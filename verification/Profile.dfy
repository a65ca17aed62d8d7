/** The profiler as a state machine: what each call made by instrumented code
    does to the profiler's state (runtime/src/Handlers.cpp). */
module Profile {
  import opened Common
  import opened Delta
  import opened ShadowSpec
  import opened Critical

  const CDT_ROWS := 256
  const ARG_QUEUE := 64
  const DUMMY_ARG := -1
  const LOAD_COST := 4
  const STORE_COST := 1
  const DOALL_THRESHOLD := 5

  /** A function activation: its table has a row for every register.  `level` is
      the nesting level of its region, which the program does not record. */
  datatype Activation = Frame(level: nat, callSite: nat, ret: int, cols: nat, rows: seq<seq<Time>>)

  type Frame = f: Activation | forall i: nat | i < |f.rows| :: |f.rows[i]| == f.cols witness Frame(0, 0, -1, 0, [])

  /** The control-dependence table. */
  type Dependences = t: seq<Vector> | |t| == 256 witness NoDependences()

  /** `regions` are the active ones, outermost first; `args` what was written to
      the argument queue, `read` of them taken off. */
  datatype State = State(max: nat, time: nat, regions: seq<Region>, frames: seq<Frame>, waiting: bool,
                         args: seq<int>, read: nat, callSite: nat,
                         cdt: Dependences, readPtr: nat, mem: map<nat, Vector>)

  function ZeroRow(n: nat): (r: seq<Time>)
    ensures |r| == n && forall i | 0 <= i < n :: r[i] == 0
  {
    seq(n, _ => 0)
  }

  function NoDependences(): (r: seq<Vector>)
    ensures |r| == CDT_ROWS && forall i: nat | i < CDT_ROWS :: r[i] == ZeroRow(MAX_LEVEL)
  {
    var row: Vector := ZeroRow(MAX_LEVEL);
    seq(CDT_ROWS, _ => row)
  }

  function Initial(max: nat): State {
    State(max, 0, [], [], false, [], 0, 0, NoDependences(), 0, map[])
  }

  /** Active levels that are instrumented. */
  function Levels(s: State): nat {
    Min(|s.regions|, s.max + 1)
  }

  function Top(s: State): Frame
    requires s.frames != []
  {
    s.frames[|s.frames| - 1]
  }

  function FrameLevels(frames: seq<Frame>): (r: seq<nat>)
    ensures |r| == |frames|
  {
    seq(|frames|, i requires 0 <= i < |frames| => frames[i].level)
  }

  function Widths(frames: seq<Frame>): (r: seq<nat>)
    ensures |r| == |frames|
  {
    seq(|frames|, i requires 0 <= i < |frames| => frames[i].cols)
  }

  function Kinds(regions: seq<Region>): (r: seq<Kind>)
    ensures |r| == |regions|
  {
    seq(|regions|, l requires 0 <= l < |regions| => regions[l].kind)
  }

  /** The levels that are function regions. */
  function FuncLevels(kinds: seq<Kind>): (r: seq<nat>)
    ensures kinds != [] && kinds[0].Func? ==> r != []
  {
    if kinds == [] then []
    else
      var n := |kinds| - 1;
      FuncLevels(kinds[..n]) + if kinds[n].Func? then [n] else []
  }

  /** Tables are wide enough for the levels their function was left at. */
  ghost predicate WideEnough(levels: seq<nat>, widths: seq<nat>, max: nat)
    requires |levels| == |widths|
  {
    forall i: nat | 0 < i < |levels| :: Min(levels[i], max + 1) <= widths[i - 1]
  }

  /** Frames are the active function regions, in order; the first region is
      one; a function without a table yet is the innermost region. */
  ghost predicate Stacked(max: nat, regions: seq<Region>, frames: seq<Frame>, waiting: bool) {
    var n := |frames| - 1;
    && FrameLevels(frames) == FuncLevels(Kinds(regions))
    && (regions != [] ==> regions[0].kind.Func?)
    && WideEnough(FrameLevels(frames), Widths(frames), max)
    && (n >= 0 ==>
       if waiting then frames[n].rows == [] && frames[n].cols == 0 else Min(|regions|, max + 1) <= frames[n].cols)
    && (waiting ==> regions != [] && regions[|regions| - 1].kind.Func?)
  }

  ghost predicate Shape(s: State) {
    && s.max < MAX_LEVEL && s.time < WORD && s.readPtr < CDT_ROWS
    && s.read <= |s.args| < ARG_QUEUE
    && Stacked(s.max, s.regions, s.frames, s.waiting)
  }

  lemma {:induction false} FuncLevelsBelow(kinds: seq<Kind>, i: nat)
    requires i < |FuncLevels(kinds)|
    ensures FuncLevels(kinds)[i] < |kinds|
  {
    var n := |kinds| - 1;
    if i < |FuncLevels(kinds[..n])| {
      FuncLevelsBelow(kinds[..n], i);
    }
  }

  lemma TopLevel(s: State)
    requires Shape(s) && s.regions != []
    ensures s.frames != []
    ensures var n := |s.regions| - 1;
            && (s.regions[n].kind.Func? <==> Top(s).level == n)
            && (s.regions[n].kind.Func? ==>
               FrameLevels(s.frames[..|s.frames| - 1]) == FuncLevels(Kinds(s.regions)[..n]))
            && (!s.regions[n].kind.Func? ==> FrameLevels(s.frames) == FuncLevels(Kinds(s.regions)[..n]))
  {
    var n := |s.regions| - 1;
    var kinds := Kinds(s.regions);
    assert kinds[n] == s.regions[n].kind && kinds[0] == s.regions[0].kind;
    assert |FrameLevels(s.frames)| == |s.frames| > 0 && FrameLevels(s.frames)[|s.frames| - 1] == Top(s).level;
    assert FuncLevels(kinds) == FuncLevels(kinds[..n]) + if kinds[n].Func? then [n] else [];
    if kinds[n].Func? {
      assert FrameLevels(s.frames[..|s.frames| - 1]) == FrameLevels(s.frames)[..|s.frames| - 1];
      assert (FuncLevels(kinds[..n]) + [n])[..|s.frames| - 1] == FuncLevels(kinds[..n]);
    } else {
      assert FuncLevels(kinds[..n])[|s.frames| - 1] == Top(s).level;
      FuncLevelsBelow(kinds[..n], |s.frames| - 1);
    }
  }

  // ------------------------------------------------------------ the calls

  /** A register and the cost of using it. */
  datatype Operand = Operand(reg: nat, offset: Time)

  /** `Timestamp` covers assignments of constants, induction variables, phis
      without controls and stamps of up to seven operands. */
  datatype Call =
    | Work(amount: nat)
    | Enter(id: nat, kind: Kind)
    | Exit(id: nat, kind: Kind)
    | LandingPad(id: nat)
    | Timestamp(dest: nat, srcs: seq<Operand>)
    | Phi(dest: nat, src: nat, ctrls: seq<nat>)
    | PhiCond(dest: nat, ctrls: seq<nat>)
    | PhiAddCond(dest: nat, src: nat)
    | Load(addr: nat, dest: nat, uses: seq<nat>)
    | Store(src: nat, addr: nat)
    | StoreConst(addr: nat)
    | PushCDep(cond: nat)
    | PopCDep
    | PrepCall(site: nat)
    | EnqArg(reg: nat)
    | EnqArgConst
    | DeqArg(dest: nat)
    | PrepRTable(regs: nat, nested: nat)
    | LinkReturn(dest: nat)
    | Return(src: nat)
    | ReturnConst

  /** One run of the timestamp updater: whether the control dependence and a
      memory cell take part, and whether critical paths are updated. */
  datatype Update = Update(dest: nat, ctrl: bool, path: bool, addr: Option<nat>, srcs: seq<Operand>)

  function Free(regs: seq<nat>): (r: seq<Operand>)
    ensures |r| == |regs| && forall i: nat | i < |r| :: r[i] == Operand(regs[i], 0)
  {
    seq(|regs|, i requires 0 <= i < |regs| => Operand(regs[i], 0))
  }

  function Updates(c: Call): seq<Update> {
    match c
    case Timestamp(dest, srcs) =>
      if |srcs| <= 5 then [Update(dest, true, true, None, srcs)]
      else [Update(dest, true, false, None, srcs[..5]),
            Update(dest, false, true, None, [Operand(dest, 0)] + srcs[5..])]
    case Phi(dest, src, ctrls) => [Update(dest, false, false, None, Free([src] + ctrls))]
    case PhiCond(dest, ctrls) => [Update(dest, false, false, None, Free([dest] + ctrls))]
    case PhiAddCond(dest, src) => [Update(dest, false, true, None, Free([dest, src]))]
    case Load(addr, dest, uses) => [Update(dest, true, true, Some(addr), Free(uses))]
    case _ => []
  }

  // ------------------------------------------------------------- stamping

  /** There is a register table to work on. */
  predicate Running(s: State) {
    s.frames != [] && !s.waiting && s.regions != []
  }

  predicate Register(s: State, reg: nat) {
    Running(s) && reg < |Top(s).rows|
  }

  predicate Registers(s: State, srcs: seq<Operand>) {
    forall i: nat | i < |srcs| :: Register(s, srcs[i].reg)
  }

  predicate CanUpdate(u: Update, s: State) {
    Register(s, u.dest) && Registers(s, u.srcs)
  }

  /** The dependences of a stamp, in the order they are considered. */
  function Sources(u: Update, s: State): (r: seq<Source>)
    requires Shape(s) && CanUpdate(u, s)
    ensures forall x | x in r :: Levels(s) <= |x.times|
  {
    (if u.ctrl then [Source(s.cdt[s.readPtr], 0)] else [])
    + (if u.addr.Some? then [Source(Read(s.mem, Cell(u.addr.value), Levels(s)), 0)] else [])
    + seq(|u.srcs|, i requires 0 <= i < |u.srcs| =>
        Source(Top(s).rows[u.srcs[i].reg], if u.addr.Some? then 0 else u.srcs[i].offset))
  }

  function Bump(u: Update): Time {
    if u.addr.Some? then LOAD_COST else 0
  }

  /** The front of a register's row replaced. */
  function WithRow(frames: seq<Frame>, i: nat, reg: nat, d: seq<Time>): (r: seq<Frame>)
    requires i < |frames| && reg < |frames[i].rows| && |d| <= frames[i].cols
    ensures |r| == |frames| && |r[i].rows| == |frames[i].rows|
    ensures forall k: nat | k < |frames| :: r[k].level == frames[k].level && r[k].cols == frames[k].cols
  {
    var f := frames[i];
    frames[i := f.(rows := f.rows[reg := d + f.rows[reg][|d|..]])]
  }

  function Applied(u: Update, s: State): (r: State)
    requires Shape(s) && CanUpdate(u, s)
    ensures Shape(r) && Running(r) && |Top(r).rows| == |Top(s).rows|
  {
    var d := Stamp(Sources(u, s), Bump(u), Levels(s));
    var regions := if u.path then Extended(s.regions, d) else s.regions;
    assert Kinds(regions) == Kinds(s.regions);
    RowKeepsShape(s, |s.frames| - 1, u.dest, d, regions);
    s.(frames := WithRow(s.frames, |s.frames| - 1, u.dest, d), regions := regions)
  }

  lemma RowKeepsShape(s: State, i: nat, reg: nat, d: seq<Time>, regions: seq<Region>)
    requires Shape(s) && i < |s.frames| && reg < |s.frames[i].rows| && |d| <= s.frames[i].cols
    requires Kinds(regions) == Kinds(s.regions)
    ensures Shape(s.(frames := WithRow(s.frames, i, reg, d), regions := regions))
  {
    var frames := WithRow(s.frames, i, reg, d);
    assert FrameLevels(frames) == FrameLevels(s.frames) && Widths(frames) == Widths(s.frames);
    assert |regions| == |Kinds(s.regions)|;
    if regions != [] {
      assert Kinds(regions)[0] == regions[0].kind && Kinds(s.regions)[0] == s.regions[0].kind;
      assert Kinds(regions)[|regions| - 1] == regions[|regions| - 1].kind
        && Kinds(s.regions)[|regions| - 1] == s.regions[|regions| - 1].kind;
    }
  }

  // --------------------------------------------------------------- stores

  lemma ExtendedStack(s: State, d: seq<Time>)
    requires Stacked(s.max, s.regions, s.frames, s.waiting) && |d| <= |s.regions|
    ensures Stacked(s.max, Extended(s.regions, d), s.frames, s.waiting)
    ensures Kinds(Extended(s.regions, d)) == Kinds(s.regions)
  {
    assert Kinds(Extended(s.regions, d)) == Kinds(s.regions);
  }

  /** What a store writes: the control dependence, and the stored register if
      there is one, plus the store's cost. */
  function StoreSources(src: Option<nat>, s: State): (r: seq<Source>)
    requires Shape(s) && Running(s) && (src.Some? ==> Register(s, src.value))
    ensures forall x | x in r :: Levels(s) <= |x.times|
  {
    [Source(s.cdt[s.readPtr], 0)] + (if src.Some? then [Source(Top(s).rows[src.value], 0)] else [])
  }

  function StoredTo(src: Option<nat>, addr: nat, s: State): (r: State)
    requires Shape(s) && Running(s) && (src.Some? ==> Register(s, src.value))
    ensures Shape(r)
  {
    var d := Stamp(StoreSources(src, s), STORE_COST, Levels(s));
    ExtendedStack(s, d);
    s.(mem := Written(s.mem, Cell(addr), d), regions := Extended(s.regions, d))
  }

  // -------------------------------------------------------------- regions

  function ZeroedAt(f: Frame, col: nat): (r: Frame)
    requires col < f.cols
    ensures r.level == f.level && r.cols == f.cols && |r.rows| == |f.rows|
  {
    f.(rows := seq(|f.rows|, i requires 0 <= i < |f.rows| => f.rows[i][col := 0]))
  }

  predicate CanEnter(kind: Kind, s: State) {
    && !s.waiting
    && (kind.Func? || (s.frames != [] && (|s.regions| <= s.max ==> |s.regions| < Top(s).cols)))
  }

  /** Entering a region: a function brings a new frame, any other region zeroes
      its level in the current table; shadow memory and the current control
      dependence are zeroed at the level. */
  function Entered(id: nat, kind: Kind, s: State): (r: State)
    requires Shape(s) && CanEnter(kind, s)
    ensures Shape(r)
  {
    var level := |s.regions|;
    var n := |s.frames| - 1;
    var frames :=
      if kind.Func? then s.frames + [Frame(level, s.callSite, -1, 0, [])]
      else if level <= s.max then s.frames[n := ZeroedAt(Top(s), level)]
      else s.frames;
    var cdt := if level <= s.max then s.cdt[s.readPtr := s.cdt[s.readPtr][level := 0]] else s.cdt;
    var r := s.(regions := s.regions + [Opened(id, kind, s.time)], frames := frames, waiting := kind.Func?,
                cdt := cdt, mem := Zeroed(s.mem, level));
    EnteredShape(s, r.regions, frames);
    r
  }

  lemma EnteredShape(s: State, regions: seq<Region>, frames: seq<Frame>)
    requires Shape(s) && |regions| == |s.regions| + 1 && regions[..|s.regions|] == s.regions
    requires var kind := regions[|s.regions|].kind;
             && CanEnter(kind, s)
             && if kind.Func? then frames == s.frames + [Frame(|s.regions|, s.callSite, -1, 0, [])]
                else FrameLevels(frames) == FrameLevels(s.frames) && Widths(frames) == Widths(s.frames)
    ensures FrameLevels(frames) == FuncLevels(Kinds(regions)) && regions[0].kind.Func?
    ensures WideEnough(FrameLevels(frames), Widths(frames), s.max)
  {
    var level := |s.regions|;
    assert Kinds(regions)[..level] == Kinds(s.regions);
    assert |FrameLevels(s.frames)| == |s.frames|;
    if regions[level].kind.Func? {
      assert FrameLevels(frames) == FrameLevels(s.frames) + [level];
      assert Widths(frames) == Widths(s.frames) + [0];
    }
  }

  /** The record of a finished region.  `selfPath` is the critical path it would
      have if its children took no longer than their critical paths, `spWork`
      its work divided by self-parallelism, before the clamp to its work. */
  datatype Stat = Stat(level: nat, id: nat, kind: Kind, callSite: nat, work: nat, cp: nat, childrenWork: nat,
                       childrenCP: nat,
                       childMaxCP: nat, childCount: nat, isDoall: bool, rawWork: nat, spWork: nat)

  /** Work divided by self-parallelism, which is `selfPath / cp`. */
  function SpWork(work: nat, selfPath: nat, cp: nat): nat {
    if work == 0 || selfPath == 0 then 0 else work * cp / selfPath
  }

  /** Unsigned 64-bit difference. */
  function Wrapped(a: int): Time {
    a % WORD
  }

  function Exited(s: State): Stat
    requires s.regions != [] && s.frames != []
  {
    var n := |s.regions| - 1;
    var r := s.regions[n];
    var work := Wrapped(s.time - r.start);
    var raw := SpWork(work, Wrapped(work - r.childrenWork + r.childrenCP), r.cp);
    Stat(n, r.id, r.kind, Top(s).callSite, work, r.cp, r.childrenWork, r.childrenCP, r.childMaxCP, r.childCount,
         r.kind.Loop? && Wrapped(r.cp - r.childMaxCP) < DOALL_THRESHOLD, raw, Min(raw, work))
  }

  /** Leaving the innermost region. */
  function Closed(s: State): (r: State)
    requires Shape(s) && Running(s)
    ensures Shape(r) && !r.waiting && |r.regions| == |s.regions| - 1
    ensures forall l: nat | l < |r.regions| ::
            r.regions[l].id == s.regions[l].id && r.regions[l].kind == s.regions[l].kind
    ensures r.regions != [] ==> Running(r)
  {
    var n := |s.regions| - 1;
    var top := s.regions[n];
    var r := s.(regions := Shut(s.regions, Wrapped(s.time - top.start)),
                frames := if top.kind.Func? then s.frames[..|s.frames| - 1] else s.frames);
    ClosedShape(s, r.regions, r.frames);
    r
  }

  lemma ClosedShape(s: State, regions: seq<Region>, frames: seq<Frame>)
    requires Shape(s) && Running(s)
    requires Kinds(regions) == Kinds(s.regions)[..|s.regions| - 1]
    requires frames == if s.regions[|s.regions| - 1].kind.Func? then s.frames[..|s.frames| - 1] else s.frames
    ensures Stacked(s.max, regions, frames, s.waiting)
    ensures regions != [] ==> frames != []
  {
    TopLevel(s);
    assert |regions| == |Kinds(regions)| && FrameLevels(frames) == FuncLevels(Kinds(regions));
    if regions != [] {
      assert Kinds(regions)[0] == s.regions[0].kind == regions[0].kind;
      assert |FrameLevels(frames)| == |frames|;
    }
    if s.regions[|s.regions| - 1].kind.Func? {
      PoppedFrame(s.frames, s.max);
    }
  }

  lemma PoppedFrame(frames: seq<Frame>, max: nat)
    requires frames != [] && WideEnough(FrameLevels(frames), Widths(frames), max)
    ensures var rest := frames[..|frames| - 1];
            && WideEnough(FrameLevels(rest), Widths(rest), max)
            && (rest != [] ==> Min(frames[|rest|].level, max + 1) <= rest[|rest| - 1].cols)
  {
    var rest := frames[..|frames| - 1];
    forall i: nat | 0 < i < |rest| ensures Min(FrameLevels(rest)[i], max + 1) <= Widths(rest)[i - 1] {
      assert Min(FrameLevels(frames)[i], max + 1) <= Widths(frames)[i - 1];
    }
    if rest != [] {
      assert Min(FrameLevels(frames)[|rest|], max + 1) <= Widths(frames)[|rest| - 1];
    }
  }

  lemma TopReplaced(s: State, top: Frame)
    requires Stacked(s.max, s.regions, s.frames, s.waiting) && s.frames != []
    requires top.level == Top(s).level && Levels(s) <= top.cols
    ensures Stacked(s.max, s.regions, s.frames[|s.frames| - 1 := top], false)
  {
    var n := |s.frames| - 1;
    var frames := s.frames[n := top];
    assert FrameLevels(frames) == FrameLevels(s.frames);
    forall i: nat | 0 < i < |FrameLevels(frames)|
      ensures Min(FrameLevels(frames)[i], s.max + 1) <= Widths(frames)[i - 1]
    {
      assert Widths(frames)[i - 1] == Widths(s.frames)[i - 1];
    }
  }

  /** The deepest level whose region has the given id; -1 if there is none. */
  function Deepest(regions: seq<Region>, id: nat): (l: int)
    ensures -1 <= l < |regions|
    ensures l >= 0 ==> regions[l].id == id
    ensures forall k: nat | l < k < |regions| :: regions[k].id != id
  {
    if regions == [] then -1
    else if regions[|regions| - 1].id == id then |regions| - 1
    else Deepest(regions[..|regions| - 1], id)
  }

  /** Leaving regions until `target` is the innermost level. */
  function Unwound(s: State, target: nat): (r: State)
    requires Shape(s) && Running(s) && target < |s.regions|
    ensures Shape(r) && |r.regions| == target + 1 && Running(r) && r.max == s.max
    decreases |s.regions|
  {
    if |s.regions| == target + 1 then s else Unwound(Closed(s), target)
  }

  function UnwoundStats(s: State, target: nat): seq<Stat>
    requires Shape(s) && Running(s) && target < |s.regions|
    decreases |s.regions|
  {
    if |s.regions| == target + 1 then [] else [Exited(s)] + UnwoundStats(Closed(s), target)
  }

  // ---------------------------------------------------------------- calls

  predicate InFunction(s: State) {
    Running(s) && s.regions[|s.regions| - 1].kind.Func?
  }

  function Caller(s: State): Frame
    requires |s.frames| >= 2
  {
    s.frames[|s.frames| - 2]
  }

  /** Copying the front of a register's row between tables. */
  function Copied(s: State, to: nat, dest: nat, from: nat, src: nat, n: nat): (r: State)
    requires Shape(s) && to < |s.frames| && from < |s.frames|
    requires dest < |s.frames[to].rows| && src < |s.frames[from].rows|
    requires n <= s.frames[to].cols && n <= s.frames[from].cols
    ensures Shape(r)
  {
    var d := s.frames[from].rows[src][..n];
    RowKeepsShape(s, to, dest, d, s.regions);
    s.(frames := WithRow(s.frames, to, dest, d))
  }

  /** Both tables of a call hold the levels that are copied between them. */
  lemma CallWidth(s: State)
    requires Shape(s) && InFunction(s) && |s.frames| >= 2
    ensures Levels(s) - 1 <= Top(s).cols && Levels(s) - 1 <= Caller(s).cols
  {
    TopLevel(s);
    assert FrameLevels(s.frames)[|s.frames| - 1] == |s.regions| - 1;
    assert Widths(s.frames)[|s.frames| - 2] == Caller(s).cols;
  }

  lemma TopWide(s: State)
    requires Shape(s) && Running(s)
    ensures Levels(s) <= Top(s).cols
  {
    hide FuncLevels, WideEnough;
  }

  lemma CallerWide(s: State)
    requires Shape(s) && InFunction(s) && |s.frames| >= 2
    ensures Min(|s.regions| - 1, s.max + 1) <= Caller(s).cols
  {
    TopLevel(s);
    assert FrameLevels(s.frames)[|s.frames| - 1] == |s.regions| - 1;
    assert Widths(s.frames)[|s.frames| - 2] == Caller(s).cols;
  }

  predicate CanDequeue(dest: nat, s: State) {
    && s.read < |s.args|
    && (s.args[s.read] != DUMMY_ARG ==>
          InFunction(s) && |s.frames| >= 2 && dest < |Top(s).rows| && 0 <= s.args[s.read] < |Caller(s).rows|)
  }

  predicate CanReturn(s: State) {
    InFunction(s) && (|s.frames| >= 2 ==> 0 <= Caller(s).ret < |Caller(s).rows|)
  }

  // ------------------------------------------------------------ all calls

  /** What the program asserts, or relies on, when a call is made. */
  predicate Legal(c: Call, s: State) {
    match c
    case Work(amount) => s.time + amount < WORD
    case Enter(_, kind) => CanEnter(kind, s)
    case Exit(id, kind) => Running(s) && var r := s.regions[|s.regions| - 1]; r.id == id && r.kind == kind
    case LandingPad(id) => Running(s) && Deepest(s.regions, id) >= 0
    case Timestamp(dest, srcs) => Register(s, dest) && Registers(s, srcs) && |srcs| <= 7
    case Phi(dest, src, ctrls) => Register(s, dest) && Registers(s, Free([src] + ctrls)) && 1 <= |ctrls| <= 4
    case PhiCond(dest, ctrls) => Register(s, dest) && Registers(s, Free([dest] + ctrls)) && |ctrls| == 4
    case PhiAddCond(dest, src) => Register(s, dest) && Register(s, src)
    case Load(_, dest, uses) => Register(s, dest) && Registers(s, Free(uses)) && |uses| <= 1
    case Store(src, _) => Register(s, src)
    case StoreConst(_) => Running(s)
    case PushCDep(cond) => Register(s, cond) && s.readPtr + 1 < CDT_ROWS
    case PopCDep => s.readPtr > 0
    case PrepCall(_) => true
    case EnqArg(_) => |s.args| + 1 < ARG_QUEUE
    case EnqArgConst => |s.args| + 1 < ARG_QUEUE
    case DeqArg(dest) => CanDequeue(dest, s)
    case PrepRTable(_, _) => s.waiting
    case LinkReturn(_) => Running(s)
    case Return(src) => CanReturn(s) && Register(s, src)
    case ReturnConst => CanReturn(s) && (|s.frames| >= 2 ==> Caller(s).cols <= MAX_LEVEL)
  }

  function Pushed(cond: nat, s: State): (r: State)
    requires Shape(s) && Register(s, cond) && s.readPtr + 1 < CDT_ROWS
    ensures Shape(r)
  {
    var p := s.readPtr + 1;
    var row := Top(s).rows[cond][..Levels(s)] + s.cdt[p][Levels(s)..];
    s.(readPtr := p, cdt := s.cdt[p := row])
  }

  function Dequeued(dest: nat, s: State): (r: State)
    requires Shape(s) && CanDequeue(dest, s)
    ensures Shape(r)
  {
    var src := s.args[s.read];
    var t := s.(read := s.read + 1);
    if src == DUMMY_ARG then t
    else
      CallWidth(s);
      Copied(t, |t.frames| - 1, dest, |t.frames| - 2, src, Levels(t) - 1)
  }

  function Prepared(regs: nat, nested: nat, s: State): (r: State)
    requires Shape(s) && s.waiting
    ensures Shape(r)
  {
    var cols := |s.regions| + nested;
    assert |FuncLevels(Kinds(s.regions))| == |s.frames|;
    var top := Top(s).(cols := cols, rows := seq(regs, _ => ZeroRow(cols)));
    TopReplaced(s, top);
    s.(waiting := false, frames := s.frames[|s.frames| - 1 := top])
  }

  function Linked(dest: nat, s: State): (r: State)
    requires Shape(s) && Running(s)
    ensures Shape(r)
  {
    TopReplaced(s, Top(s).(ret := dest));
    s.(frames := s.frames[|s.frames| - 1 := Top(s).(ret := dest)])
  }

  function Returned(src: nat, s: State): (r: State)
    requires Shape(s) && CanReturn(s) && Register(s, src)
    ensures Shape(r)
  {
    if |s.frames| < 2 then s
    else
      CallWidth(s);
      Copied(s, |s.frames| - 2, Caller(s).ret, |s.frames| - 1, src, Levels(s) - 1)
  }

  function ReturnedConst(s: State): (r: State)
    requires Shape(s) && CanReturn(s) && (|s.frames| >= 2 ==> Caller(s).cols <= MAX_LEVEL)
    ensures Shape(r)
  {
    if |s.frames| < 2 then s
    else
      var i := |s.frames| - 2;
      var d := s.cdt[s.readPtr][..Caller(s).cols];
      RowKeepsShape(s, i, Caller(s).ret, d, s.regions);
      s.(frames := WithRow(s.frames, i, Caller(s).ret, d))
  }

  lemma AllUpdate(us: seq<Update>, s: State, t: State)
    requires us != [] && (forall i: nat | i < |us| :: CanUpdate(us[i], s)) && Running(s)
    requires Running(t) && |Top(t).rows| == |Top(s).rows|
    ensures forall i: nat | i < |us[1..]| :: CanUpdate(us[1..][i], t)
  {
    forall i: nat | i < |us[1..]| ensures CanUpdate(us[1..][i], t) {
      var u := us[1..][i];
      assert u == us[i + 1] && CanUpdate(u, s);
      assert forall k: nat | k < |u.srcs| :: Register(s, u.srcs[k].reg);
    }
  }

  /** One or two updates in a row; the tables keep their sizes. */
  function Stamped(us: seq<Update>, s: State): (r: State)
    requires Shape(s) && forall i: nat | i < |us| :: CanUpdate(us[i], s)
    ensures Shape(r) && r.max == s.max
  {
    if us == [] then s
    else
      var t := Applied(us[0], s);
      assert CanUpdate(us[0], s);
      AllUpdate(us, s, t);
      Stamped(us[1..], t)
  }

  lemma UpdatesLegal(c: Call, s: State)
    requires Legal(c, s)
    ensures forall i: nat | i < |Updates(c)| :: CanUpdate(Updates(c)[i], s)
  {
  }

  /** Calls that pass values between functions, and control dependences. */
  predicate Links(c: Call) {
    c.PushCDep? || c.PopCDep? || c.PrepCall? || c.EnqArg? || c.EnqArgConst? || c.DeqArg?
    || c.PrepRTable? || c.LinkReturn? || c.Return? || c.ReturnConst?
  }

  function AfterLink(c: Call, s: State): (r: State)
    requires Shape(s) && Legal(c, s) && Links(c)
    ensures Shape(r) && r.max == s.max
  {
    match c
    case PushCDep(cond) => Pushed(cond, s)
    case PopCDep => s.(readPtr := s.readPtr - 1)
    case PrepCall(site) => s.(args := [], read := 0, callSite := site)
    case EnqArg(reg) => s.(args := s.args + [reg])
    case EnqArgConst => s.(args := s.args + [DUMMY_ARG])
    case DeqArg(dest) => Dequeued(dest, s)
    case PrepRTable(regs, nested) => Prepared(regs, nested, s)
    case LinkReturn(dest) => Linked(dest, s)
    case Return(src) => Returned(src, s)
    case ReturnConst => ReturnedConst(s)
  }

  /** The state after a call. */
  function After(c: Call, s: State): (r: State)
    requires Shape(s) && Legal(c, s)
    ensures Shape(r) && r.max == s.max
  {
    if Links(c) then AfterLink(c, s)
    else if Updates(c) != [] then
      UpdatesLegal(c, s);
      Stamped(Updates(c), s)
    else
      match c
      case Work(amount) => s.(time := s.time + amount)
      case Enter(id, kind) => Entered(id, kind, s)
      case Exit(_, _) => Closed(s)
      case LandingPad(id) => Unwound(s, Deepest(s.regions, id))
      case Store(src, addr) => StoredTo(Some(src), addr, s)
      case StoreConst(addr) => StoredTo(None, addr, s)
  }

  /** The records a call emits. */
  function Emitted(c: Call, s: State): seq<Stat>
    requires Shape(s) && Legal(c, s)
  {
    match c
    case Exit(_, _) => [Exited(s)]
    case LandingPad(id) => UnwoundStats(s, Deepest(s.regions, id))
    case _ => []
  }
}
