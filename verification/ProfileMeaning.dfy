/** What each call leaves, time by time: which value a register, a memory cell
    or a control dependence has at each level, and what stays as it was
    (runtime/src/Handlers.cpp). */
module ProfileMeaning {
  import opened Common
  import opened Delta
  import ShadowSpec
  import opened Critical
  import opened Profile
  import opened ProfileBounds

  // ------------------------------------------------------- what is there

  /** A register's time, in the table of the current function. */
  function TimeOf(s: State, reg: nat, l: nat): Time {
    if s.frames != [] && reg < |Top(s).rows| && l < Top(s).cols then Top(s).rows[reg][l] else 0
  }

  function TimesOf(s: State, regs: seq<nat>, l: nat): (r: seq<Time>)
    ensures |r| == |regs|
  {
    seq(|regs|, i requires 0 <= i < |regs| => TimeOf(s, regs[i], l))
  }

  /** Operands bring their costs with them. */
  function CostsOf(s: State, srcs: seq<Operand>, l: nat): (r: seq<Time>)
    ensures |r| == |srcs|
  {
    seq(|srcs|, i requires 0 <= i < |srcs| => Add(TimeOf(s, srcs[i].reg, l), srcs[i].offset))
  }

  /** The control dependence in force. */
  function DependenceOf(s: State, l: nat): Time {
    if s.readPtr < CDT_ROWS && l < MAX_LEVEL then s.cdt[s.readPtr][l] else 0
  }

  predicate Greatest(t: Time, times: seq<Time>) {
    t in times && forall x | x in times :: x <= t
  }

  /** One that is greatest. */
  function Highest(times: seq<Time>): (t: Time)
    requires times != []
    ensures Greatest(t, times)
  {
    var n := |times| - 1;
    if n == 0 then times[0]
    else
      var h := Highest(times[..n]);
      assert times == times[..n] + [times[n]];
      Max(h, times[n])
  }

  // ------------------------------------------------------ what may change

  /** Of the tables, at most one row of one frame, in its first `n` levels. */
  ghost predicate OnlyRow(was: seq<Frame>, now: seq<Frame>, i: nat, reg: nat, n: nat) {
    && i < |was| == |now| && reg < |was[i].rows| && n <= was[i].cols
    && (forall k: nat | k < |was| && k != i :: now[k] == was[k])
    && now[i] == was[i].(rows := now[i].rows) && |now[i].rows| == |was[i].rows|
    && (forall k: nat | k < |was[i].rows| && k != reg :: now[i].rows[k] == was[i].rows[k])
    && (forall l: nat | n <= l < was[i].cols :: now[i].rows[reg][l] == was[i].rows[reg][l])
  }

  /** Of everything but critical paths, at most the instrumented levels of one
      register of the current function. */
  ghost predicate OnlyRegister(s: State, t: State, dest: nat) {
    && s.frames != [] && t == s.(frames := t.frames, regions := t.regions)
    && OnlyRow(s.frames, t.frames, |s.frames| - 1, dest, Levels(s))
  }

  /** Of critical paths, those of instrumented levels, which take in a time each. */
  ghost predicate PathsTake(was: seq<Region>, now: seq<Region>, n: nat, times: seq<Time>) {
    && |now| == |was| && n <= |was| && n <= |times|
    && (forall l: nat | l < n :: now[l] == was[l].(cp := if times[l] > was[l].cp then times[l] else was[l].cp))
    && (forall l: nat | n <= l < |was| :: now[l] == was[l])
  }

  ghost predicate PathsTakeRegister(s: State, t: State, dest: nat) {
    t.frames != [] && dest < |Top(t).rows| && PathsTake(s.regions, t.regions, Levels(s), Top(t).rows[dest])
  }

  // -------------------------------------------------- the latest of sources

  function SourceTimes(sources: seq<Source>, l: nat): (r: seq<Time>)
    requires forall x | x in sources :: l < |x.times|
    ensures |r| == |sources|
  {
    seq(|sources|, i requires 0 <= i < |sources| => Add(sources[i].times[l], sources[i].offset))
  }

  lemma {:induction false} LatestGreatest(sources: seq<Source>, l: nat)
    requires sources != [] && forall x | x in sources :: l < |x.times|
    ensures Greatest(Latest(sources, l), SourceTimes(sources, l))
  {
    var n := |sources| - 1;
    var front, times := sources[..n], SourceTimes(sources, l);
    assert forall x | x in front :: x in sources;
    assert SourceTimes(front, l) == times[..n];
    assert times == times[..n] + [times[n]];
    if n > 0 {
      LatestGreatest(front, l);
    }
  }

  /** The times an update takes in. */
  lemma Taken(u: Update, s: State, l: nat)
    requires Shape(s) && CanUpdate(u, s) && l < Levels(s)
    ensures l < MAX_LEVEL
    ensures SourceTimes(Sources(u, s), l)
            == (if u.ctrl then [DependenceOf(s, l)] else [])
               + (if u.addr.Some? then [ShadowSpec.At(s.mem, ShadowSpec.Cell(u.addr.value), l)]
                                       + TimesOf(s, UsedBy(u), l)
                  else CostsOf(s, u.srcs, l))
  {
    hide Stacked, Sources, RegisterSources, UsedBy, CostsOf, TimesOf, SourceTimes;
    TopWide(s);
    SourcesAre(u, s);
    ControlTimes(u, s, l);
    CellTimes(u, s, l);
    ThirdTimes(u, s, l);
    TimesJoin(ControlSources(u, s), CellSources(u, s), l);
    TimesJoin(ControlSources(u, s) + CellSources(u, s), RegisterSources(u, s), l);
    assert [] + CostsOf(s, u.srcs, l) == CostsOf(s, u.srcs, l);
  }

  lemma SourcesAre(u: Update, s: State)
    requires Shape(s) && CanUpdate(u, s)
    ensures forall i: nat | i < |u.srcs| :: u.srcs[i].reg < |Top(s).rows|
    ensures Sources(u, s) == ControlSources(u, s) + CellSources(u, s) + RegisterSources(u, s)
  {
    hide Stacked;
    assert forall i: nat | i < |u.srcs| :: Register(s, u.srcs[i].reg);
  }

  function ControlSources(u: Update, s: State): seq<Source>
    requires Shape(s)
  {
    if u.ctrl then [Source(s.cdt[s.readPtr], 0)] else []
  }

  lemma ControlTimes(u: Update, s: State, l: nat)
    requires Shape(s) && l < MAX_LEVEL
    ensures forall x | x in ControlSources(u, s) :: l < |x.times|
    ensures SourceTimes(ControlSources(u, s), l) == if u.ctrl then [DependenceOf(s, l)] else []
  {
    hide Stacked;
  }

  function CellSources(u: Update, s: State): seq<Source>
    requires Shape(s)
  {
    if u.addr.Some? then [Source(ShadowSpec.Read(s.mem, ShadowSpec.Cell(u.addr.value), Levels(s)), 0)] else []
  }

  lemma CellTimes(u: Update, s: State, l: nat)
    requires Shape(s) && l < Levels(s)
    ensures l < MAX_LEVEL && forall x | x in CellSources(u, s) :: l < |x.times|
    ensures SourceTimes(CellSources(u, s), l)
            == if u.addr.Some? then [ShadowSpec.At(s.mem, ShadowSpec.Cell(u.addr.value), l)] else []
  {
    hide Stacked;
  }

  /** The registers among an update's sources. */
  function RegisterSources(u: Update, s: State): (r: seq<Source>)
    requires Running(s) && forall i: nat | i < |u.srcs| :: u.srcs[i].reg < |Top(s).rows|
    ensures |r| == |u.srcs|
  {
    seq(|u.srcs|, i requires 0 <= i < |u.srcs| =>
      Source(Top(s).rows[u.srcs[i].reg], if u.addr.Some? then 0 else u.srcs[i].offset))
  }

  lemma ThirdTimes(u: Update, s: State, l: nat)
    requires Running(s) && l < Top(s).cols && forall i: nat | i < |u.srcs| :: u.srcs[i].reg < |Top(s).rows|
    ensures forall x | x in RegisterSources(u, s) :: l < |x.times|
    ensures SourceTimes(RegisterSources(u, s), l) == if u.addr.Some? then TimesOf(s, UsedBy(u), l)
            else CostsOf(s, u.srcs, l)
  {
  }

  lemma TimesJoin(a: seq<Source>, b: seq<Source>, l: nat)
    requires (forall x | x in a :: l < |x.times|) && forall x | x in b :: l < |x.times|
    ensures forall x | x in a + b :: l < |x.times|
    ensures SourceTimes(a + b, l) == SourceTimes(a, l) + SourceTimes(b, l)
  {
  }

  function UsedBy(u: Update): (r: seq<nat>)
    ensures |r| == |u.srcs|
  {
    seq(|u.srcs|, i requires 0 <= i < |u.srcs| => u.srcs[i].reg)
  }

  lemma AppliedIs(u: Update, s: State)
    requires Shape(s) && CanUpdate(u, s)
    ensures var t := Applied(u, s);
            && OnlyRegister(s, t, u.dest)
            && (if u.path then PathsTakeRegister(s, t, u.dest) else t.regions == s.regions)
            && (forall l: nat | l < Levels(s) :: TimeOf(t, u.dest, l) == Add(Latest(Sources(u, s), l), Bump(u)))
  {
    hide Stacked, Sources;
    TopWide(s);
    var d := Stamp(Sources(u, s), Bump(u), Levels(s));
    var row := Top(s).rows[u.dest];
    assert forall l: nat | l < Top(s).cols :: (d + row[|d|..])[l] == if l < |d| then d[l] else row[l];
  }

  lemma OneUpdate(c: Call, s: State)
    requires Shape(s) && Legal(c, s) && |Updates(c)| == 1
    ensures CanUpdate(Updates(c)[0], s) && After(c, s) == Applied(Updates(c)[0], s)
  {
    hide Legal, Stacked, Applied;
    UpdatesLegal(c, s);
    var us := Updates(c);
    assert CanUpdate(us[0], s);
    assert us[1..] == [];
    assert Stamped(us, s) == Stamped(us[1..], Applied(us[0], s)) == Applied(us[0], s);
  }

  lemma FreeTimes(s: State, regs: seq<nat>, l: nat)
    ensures CostsOf(s, Free(regs), l) == TimesOf(s, regs, l)
  {
  }

  /** The times an update of no memory reads. */
  function Reads(u: Update, s: State, l: nat): seq<Time> {
    if u.ctrl then [DependenceOf(s, l)] + CostsOf(s, u.srcs, l) else CostsOf(s, u.srcs, l)
  }

  lemma TakenReads(u: Update, s: State, l: nat)
    requires u.addr.None? && (u.ctrl || u.srcs != [])
    ensures (if u.ctrl then [DependenceOf(s, l)] else []) + CostsOf(s, u.srcs, l) == Reads(u, s, l)
    ensures Reads(u, s, l) != []
  {
  }

  /** One update that takes in no memory. */
  lemma UpdatedIs(u: Update, s: State)
    requires Shape(s) && CanUpdate(u, s) && u.addr.None? && (u.ctrl || u.srcs != [])
    ensures var t := Applied(u, s);
            && OnlyRegister(s, t, u.dest)
            && (if u.path then PathsTakeRegister(s, t, u.dest) else t.regions == s.regions)
            && (forall l: nat | l < Levels(s) :: Greatest(TimeOf(t, u.dest, l), Reads(u, s, l)))
  {
    hide Stacked, Applied, OnlyRegister, PathsTakeRegister, Sources, Latest, SourceTimes, TimeOf, Reads, Greatest;
    AppliedIs(u, s);
    forall l: nat | l < Levels(s) ensures Greatest(TimeOf(Applied(u, s), u.dest, l), Reads(u, s, l)) {
      Taken(u, s, l);
      TakenReads(u, s, l);
      LatestGreatest(Sources(u, s), l);
    }
  }

  lemma UpdateIs(c: Call, s: State)
    requires Shape(s) && Legal(c, s) && |Updates(c)| == 1
    requires var u := Updates(c)[0]; u.addr.None? && (u.ctrl || u.srcs != [])
    ensures var t, u := After(c, s), Updates(c)[0];
            && OnlyRegister(s, t, u.dest)
            && (if u.path then PathsTakeRegister(s, t, u.dest) else t.regions == s.regions)
            && (forall l: nat | l < Levels(s) ::
                  Greatest(TimeOf(t, u.dest, l), Reads(u, s, l)))
  {
    hide Legal, Stacked, After, Updates, OnlyRegister, PathsTakeRegister, Applied;
    OneUpdate(c, s);
    UpdatedIs(Updates(c)[0], s);
  }

  // -------------------------------------------- stamps in two steps

  lemma OneGreatest(a: Time, b: Time, times: seq<Time>)
    requires Greatest(a, times) && Greatest(b, times)
    ensures a == b
  {
  }

  lemma LongSteps(dest: nat, srcs: seq<Operand>, s: State)
    requires Shape(s) && Legal(Timestamp(dest, srcs), s) && |srcs| > 5
    ensures var us := Updates(Timestamp(dest, srcs));
            && CanUpdate(us[0], s) && CanUpdate(us[1], Applied(us[0], s))
            && After(Timestamp(dest, srcs), s) == Applied(us[1], Applied(us[0], s))
  {
    hide Stacked, Applied;
    var c := Timestamp(dest, srcs);
    var us := Updates(c);
    UpdatesLegal(c, s);
    assert CanUpdate(us[0], s);
    var s1 := Applied(us[0], s);
    AllUpdate(us, s, s1);
    assert us[1..] == [us[1]] && us[1..][1..] == [];
    assert CanUpdate(us[1..][0], s1);
    assert Stamped(us, s) == Stamped(us[1..], s1) == Applied(us[1], s1);
  }

  /** Two changes of the same register, the second with critical paths. */
  lemma StepsJoin(s: State, s1: State, t: State, dest: nat)
    requires OnlyRegister(s, s1, dest) && s1.regions == s.regions
    requires OnlyRegister(s1, t, dest) && PathsTakeRegister(s1, t, dest)
    ensures OnlyRegister(s, t, dest) && PathsTakeRegister(s, t, dest)
  {
  }

  /** What the second step reads. */
  lemma SecondReads(s: State, s1: State, dest: nat, rest: seq<Operand>, l: nat)
    requires OnlyRegister(s, s1, dest) && l < Levels(s)
    requires forall i: nat | i < |rest| :: rest[i].reg < |Top(s).rows|
    ensures CostsOf(s1, [Operand(dest, 0)] + rest, l)
            == [TimeOf(s1, dest, l)] + CostsWith(s, dest, TimeOf(s1, dest, l), rest, l)
  {
    var all := [Operand(dest, 0)] + rest;
    forall i: nat | i < |rest|
      ensures CostsOf(s1, all, l)[i + 1] == CostsWith(s, dest, TimeOf(s1, dest, l), rest, l)[i]
    {
      assert all[i + 1] == rest[i];
    }
  }

  // ------------------------------------------------------------ the calls

  /** A phi has the latest of the incoming value and its controls. */
  lemma PhiIs(dest: nat, src: nat, ctrls: seq<nat>, s: State)
    requires Shape(s) && Legal(Phi(dest, src, ctrls), s)
    ensures var t := After(Phi(dest, src, ctrls), s);
            && OnlyRegister(s, t, dest) && t.regions == s.regions
            && forall l: nat | l < Levels(s) ::
                 Greatest(TimeOf(t, dest, l), [TimeOf(s, src, l)] + TimesOf(s, ctrls, l))
  {
    hide Stacked, After, OnlyRegister, Greatest;
    UpdateIs(Phi(dest, src, ctrls), s);
    forall l: nat | l < Levels(s)
      ensures CostsOf(s, Free([src] + ctrls), l) == [TimeOf(s, src, l)] + TimesOf(s, ctrls, l)
    {
      FreeTimes(s, [src] + ctrls, l);
    }
  }

  /** A phi's condition adds controls to what the phi has. */
  lemma PhiCondIs(dest: nat, ctrls: seq<nat>, s: State)
    requires Shape(s) && Legal(PhiCond(dest, ctrls), s)
    ensures var t := After(PhiCond(dest, ctrls), s);
            && OnlyRegister(s, t, dest) && t.regions == s.regions
            && forall l: nat | l < Levels(s) ::
                 Greatest(TimeOf(t, dest, l), [TimeOf(s, dest, l)] + TimesOf(s, ctrls, l))
  {
    hide Stacked, After, OnlyRegister, Greatest;
    UpdateIs(PhiCond(dest, ctrls), s);
    forall l: nat | l < Levels(s)
      ensures CostsOf(s, Free([dest] + ctrls), l) == [TimeOf(s, dest, l)] + TimesOf(s, ctrls, l)
    {
      FreeTimes(s, [dest] + ctrls, l);
    }
  }

  /** One condition more, which critical paths take in. */
  lemma PhiAddCondIs(dest: nat, src: nat, s: State)
    requires Shape(s) && Legal(PhiAddCond(dest, src), s)
    ensures var t := After(PhiAddCond(dest, src), s);
            && OnlyRegister(s, t, dest) && PathsTakeRegister(s, t, dest)
            && forall l: nat | l < Levels(s) ::
                 Greatest(TimeOf(t, dest, l), [TimeOf(s, dest, l), TimeOf(s, src, l)])
  {
    hide Stacked, After, OnlyRegister, PathsTakeRegister, Greatest;
    UpdateIs(PhiAddCond(dest, src), s);
    forall l: nat | l < Levels(s)
      ensures CostsOf(s, Free([dest, src]), l) == [TimeOf(s, dest, l), TimeOf(s, src, l)]
    {
      FreeTimes(s, [dest, src], l);
    }
  }

  /** A stamp has the latest of the control dependence and of its operands, each
      with its cost. */
  lemma StampIs(dest: nat, srcs: seq<Operand>, s: State)
    requires Shape(s) && Legal(Timestamp(dest, srcs), s) && |srcs| <= 5
    ensures var t := After(Timestamp(dest, srcs), s);
            && OnlyRegister(s, t, dest) && PathsTakeRegister(s, t, dest)
            && forall l: nat | l < Levels(s) ::
                 Greatest(TimeOf(t, dest, l), [DependenceOf(s, l)] + CostsOf(s, srcs, l))
  {
    hide Stacked, After, OnlyRegister, PathsTakeRegister, Greatest;
    UpdateIs(Timestamp(dest, srcs), s);
  }

  /** Operands that are read when the destination already has the time `h`. */
  function CostsWith(s: State, dest: nat, h: Time, srcs: seq<Operand>, l: nat): (r: seq<Time>)
    ensures |r| == |srcs|
  {
    seq(|srcs|, i requires 0 <= i < |srcs| =>
      Add(if srcs[i].reg == dest then h else TimeOf(s, srcs[i].reg, l), srcs[i].offset))
  }

  /** So has one of six or seven operands; if the sixth or seventh is the
      destination, it is read with what the first five have given it. */
  lemma LongStampIs(dest: nat, srcs: seq<Operand>, s: State)
    requires Shape(s) && Legal(Timestamp(dest, srcs), s) && |srcs| > 5
    ensures var t := After(Timestamp(dest, srcs), s);
            && OnlyRegister(s, t, dest) && PathsTakeRegister(s, t, dest)
            && forall l: nat | l < Levels(s) ::
                 var h := Highest([DependenceOf(s, l)] + CostsOf(s, srcs[..5], l));
                 Greatest(TimeOf(t, dest, l), [h] + CostsWith(s, dest, h, srcs[5..], l))
  {
    hide Stacked, After, OnlyRegister, PathsTakeRegister, Greatest;
    var c := Timestamp(dest, srcs);
    var us := Updates(c);
    LongSteps(dest, srcs, s);
    var s1, t := Applied(us[0], s), After(c, s);
    UpdatedIs(us[0], s);
    UpdatedIs(us[1], s1);
    StepsJoin(s, s1, t, dest);
    forall l: nat | l < Levels(s)
      ensures var h := Highest([DependenceOf(s, l)] + CostsOf(s, srcs[..5], l));
              Greatest(TimeOf(t, dest, l), [h] + CostsWith(s, dest, h, srcs[5..], l))
    {
      var h := Highest([DependenceOf(s, l)] + CostsOf(s, srcs[..5], l));
      OneGreatest(h, TimeOf(s1, dest, l), [DependenceOf(s, l)] + CostsOf(s, srcs[..5], l));
      SecondReads(s, s1, dest, srcs[5..], l);
    }
  }

  // -------------------------------------------------------- shadow memory

  /** A load has the latest of the control dependence, the cell and the
      registers used for the address, plus four. */
  lemma LoadIs(addr: nat, dest: nat, uses: seq<nat>, s: State)
    requires Shape(s) && Legal(Load(addr, dest, uses), s)
    ensures var t := After(Load(addr, dest, uses), s);
            && OnlyRegister(s, t, dest) && PathsTakeRegister(s, t, dest)
            && Levels(s) <= MAX_LEVEL
            && forall l: nat | l < Levels(s) ::
                 var cell := ShadowSpec.At(s.mem, ShadowSpec.Cell(addr), l);
                 TimeOf(t, dest, l) == Add(Highest([DependenceOf(s, l), cell] + TimesOf(s, uses, l)), 4)
  {
    hide Stacked, After, OnlyRegister, PathsTakeRegister, Greatest, Applied, DependenceOf, TimeOf;
    var c := Load(addr, dest, uses);
    OneUpdate(c, s);
    var u := Updates(c)[0];
    AppliedIs(u, s);
    forall l: nat | l < Levels(s)
      ensures var cell := ShadowSpec.At(s.mem, ShadowSpec.Cell(addr), l);
              Latest(Sources(u, s), l) == Highest([DependenceOf(s, l), cell] + TimesOf(s, uses, l))
    {
      var cell := ShadowSpec.At(s.mem, ShadowSpec.Cell(addr), l);
      var times := [DependenceOf(s, l), cell] + TimesOf(s, uses, l);
      Taken(u, s, l);
      assert UsedBy(u) == uses;
      assert [DependenceOf(s, l)] + ([cell] + TimesOf(s, uses, l)) == times;
      LatestGreatest(Sources(u, s), l);
      OneGreatest(Latest(Sources(u, s), l), Highest(times), times);
    }
  }

  /** What a store has to write at a level. */
  function StoredTimes(src: Option<nat>, s: State, l: nat): (r: seq<Time>)
    ensures r != []
  {
    [DependenceOf(s, l)] + if src.Some? then [TimeOf(s, src.value, l)] else []
  }

  /** A store gives its cell, at the instrumented levels, the later of the
      control dependence and the register, plus one; critical paths take that
      in, and no other cell or level changes. */
  lemma StoreIs(src: Option<nat>, addr: nat, s: State)
    requires Shape(s) && Running(s) && (src.Some? ==> Register(s, src.value))
    ensures var t, cell := StoredTo(src, addr, s), ShadowSpec.Cell(addr);
            && t == s.(mem := t.mem, regions := t.regions) && Levels(s) <= MAX_LEVEL
            && (forall l: nat | l < Levels(s) ::
                  ShadowSpec.At(t.mem, cell, l) == Add(Highest(StoredTimes(src, s, l)), 1))
            && (forall c: nat, l: nat | l < MAX_LEVEL && (c != cell || l >= Levels(s)) ::
                  ShadowSpec.At(t.mem, c, l) == ShadowSpec.At(s.mem, c, l))
            && PathsTake(s.regions, t.regions, Levels(s), ShadowSpec.Read(t.mem, cell, Levels(s)))
  {
    hide FuncLevels, WideEnough;
    TopWide(s);
    var sources := StoreSources(src, s);
    var d := Stamp(sources, STORE_COST, Levels(s));
    var t, cell := StoredTo(src, addr, s), ShadowSpec.Cell(addr);
    assert ShadowSpec.Read(t.mem, cell, Levels(s)) == d;
    forall l: nat | l < Levels(s) ensures d[l] == Add(Highest(StoredTimes(src, s, l)), 1) {
      assert SourceTimes(sources, l) == StoredTimes(src, s, l);
      LatestGreatest(sources, l);
      OneGreatest(Latest(sources, l), Highest(StoredTimes(src, s, l)), StoredTimes(src, s, l));
    }
  }

  // -------------------------------------------------------------- regions

  /** Entering a region starts a record, and zeroes its level wherever the
      current function can see it: in the memory, in the control dependence in
      force and, unless it is a function, in all registers.  A function brings
      an empty table.  Nothing else changes. */
  lemma EnterIs(id: nat, kind: Kind, s: State)
    requires Shape(s) && CanEnter(kind, s)
    ensures var t, n := Entered(id, kind, s), |s.regions|;
            && t == s.(regions := t.regions, frames := t.frames, waiting := kind.Func?, cdt := t.cdt, mem := t.mem)
            && t.regions == s.regions + [Region(id, kind, s.time, 0, 0, 0, 0, 0)]
            && (forall c: nat, l: nat | l < MAX_LEVEL ::
                  ShadowSpec.At(t.mem, c, l) == if l == n then 0 else ShadowSpec.At(s.mem, c, l))
            && (forall r: nat, l: nat | r < CDT_ROWS && l < MAX_LEVEL ::
                  t.cdt[r][l] == if r == s.readPtr && l == n && n <= s.max then 0 else s.cdt[r][l])
            && (kind.Func? ==> t.frames == s.frames + [Frame(n, s.callSite, -1, 0, [])])
            && (!kind.Func? ==> RowsZeroed(s.frames, t.frames, n, s.max))
  {
    hide FuncLevels, WideEnough;
  }

  /** A level of the last table zeroed, if it is instrumented. */
  ghost predicate RowsZeroed(was: seq<Frame>, now: seq<Frame>, n: nat, max: nat) {
    && |now| == |was| > 0 && now[..|was| - 1] == was[..|was| - 1]
    && var f, g := was[|was| - 1], now[|was| - 1];
       && g == f.(rows := g.rows) && |g.rows| == |f.rows|
       && forall r: nat, l: nat | r < |f.rows| && l < f.cols ::
            g.rows[r][l] == if l == n && n <= max then 0 else f.rows[r][l]
  }

  /** Leaving a region takes its record off, a function's table too, and adds
      to the record of its parent; nothing else changes. */
  lemma ExitIs(s: State)
    requires Shape(s) && Running(s)
    ensures var t, n := Closed(s), |s.regions| - 1;
            var r := s.regions[n];
            && t == s.(regions := t.regions, frames := t.frames)
            && t.frames == (if r.kind.Func? then s.frames[..|s.frames| - 1] else s.frames)
            && |t.regions| == n && (forall l: nat | l + 1 < n :: t.regions[l] == s.regions[l])
            && (n > 0 ==>
                  var p, q := s.regions[n - 1], t.regions[n - 1];
                  && q == p.(childrenWork := q.childrenWork, childrenCP := q.childrenCP,
                             childMaxCP := q.childMaxCP, childCount := p.childCount + 1)
                  && q.childrenWork == p.childrenWork + Wrapped(s.time - r.start)
                  && q.childrenCP == p.childrenCP + r.cp
                  && q.childMaxCP == if r.cp > p.childMaxCP then r.cp else p.childMaxCP)
  {
    hide Stacked;
  }

  /** The record of a region: the time since it was entered, and its totals. */
  lemma RecordIs(s: State)
    requires Shape(s) && Running(s)
    ensures var t, n := Exited(s), |s.regions| - 1;
            var r := s.regions[n];
            && t.level == n && t.id == r.id && t.kind == r.kind && t.callSite == s.frames[|s.frames| - 1].callSite
            && t.work == Wrapped(s.time - r.start) && t.cp == r.cp
            && t.childrenWork == r.childrenWork && t.childrenCP == r.childrenCP
            && t.childMaxCP == r.childMaxCP && t.childCount == r.childCount
            && (t.isDoall <==> t.kind.Loop? && Wrapped(t.cp - t.childMaxCP) < 5)
  {
    hide Stacked, SpWork;
  }

  // ------------------------------------ dependences, arguments and results

  /** A push puts the condition's instrumented times on the next row. */
  lemma PushIs(cond: nat, s: State)
    requires Shape(s) && Register(s, cond) && s.readPtr + 1 < CDT_ROWS
    ensures var t := Pushed(cond, s);
            && t == s.(readPtr := s.readPtr + 1, cdt := t.cdt)
            && forall r: nat, l: nat | r < CDT_ROWS && l < MAX_LEVEL ::
                 t.cdt[r][l] == if r == s.readPtr + 1 && l < Levels(s) then TimeOf(s, cond, l) else s.cdt[r][l]
  {
    hide FuncLevels, WideEnough;
    TopWide(s);
  }

  /** What was in force before a push is in force again after the pop. */
  lemma PushThenPop(cond: nat, s: State, l: nat)
    requires Shape(s) && Legal(PushCDep(cond), s) && l < MAX_LEVEL
    ensures Legal(PopCDep, After(PushCDep(cond), s))
    ensures var t := After(PopCDep, After(PushCDep(cond), s));
            DependenceOf(t, l) == DependenceOf(s, l) && t == s.(cdt := t.cdt)
  {
    hide Stacked;
    PushIs(cond, s);
  }

  /** An argument that is a register of the caller: the callee's register has
      its times at all instrumented levels but the innermost of them. */
  lemma ArgumentIs(dest: nat, s: State)
    requires Shape(s) && CanDequeue(dest, s) && s.args[s.read] != DUMMY_ARG
    ensures var t, n, k := Dequeued(dest, s), |s.frames|, Levels(s) - 1;
            && t == s.(read := s.read + 1, frames := t.frames) && k >= 0
            && OnlyRow(s.frames, t.frames, n - 1, dest, k) && k <= s.frames[n - 2].cols
            && var from, to := s.frames[n - 2].rows[s.args[s.read]], t.frames[n - 1].rows[dest];
               forall l: nat | l < k :: to[l] == from[l]
  {
    hide Stacked;
    CallWidth(s);
    TopWide(s);
  }

  /** Calls that queue registers for a function to be called. */
  function Queued(regs: seq<nat>, s: State): (t: State)
    requires Shape(s) && |s.args| + |regs| < ARG_QUEUE
    ensures Shape(t)
    decreases |regs|
  {
    if regs == [] then s
    else
      assert Legal(EnqArg(regs[0]), s);
      var next := After(EnqArg(regs[0]), s);
      assert next.args == s.args + [regs[0]];
      Queued(regs[1..], next)
  }

  /** They are taken off in the order they were queued in. */
  lemma {:induction false} QueuedInOrder(regs: seq<nat>, s: State)
    requires Shape(s) && |s.args| + |regs| < ARG_QUEUE
    ensures var t := Queued(regs, s);
            && t == s.(args := t.args) && |t.args| == |s.args| + |regs| && t.args[..|s.args|] == s.args
            && forall i: nat | i < |regs| :: t.args[|s.args| + i] == regs[i]
    decreases |regs|
  {
    hide Stacked;
    if regs != [] {
      var next := After(EnqArg(regs[0]), s);
      assert next.args == s.args + [regs[0]];
      QueuedInOrder(regs[1..], next);
      var t := Queued(regs, s);
      assert t.args[..|s.args| + 1][..|s.args|] == t.args[..|s.args|];
      assert t.args[|s.args|] == t.args[..|s.args| + 1][|s.args|];
      forall i: nat | i < |regs| ensures t.args[|s.args| + i] == regs[i] {
        if i > 0 {
          assert regs[1..][i - 1] == regs[i];
        }
      }
    }
  }

  /** A new call starts with an empty queue. */
  lemma QueueStarts(site: nat, s: State)
    requires Shape(s)
    ensures var t := After(PrepCall(site), s); t == s.(args := [], read := 0, callSite := site)
  {
    hide Stacked;
  }

  /** A result: the caller's return register has the callee's times at all
      instrumented levels but the innermost of them. */
  lemma ResultIs(src: nat, s: State)
    requires Shape(s) && CanReturn(s) && Register(s, src) && |s.frames| >= 2
    ensures var t, n, k := Returned(src, s), |s.frames|, Levels(s) - 1;
            && t == s.(frames := t.frames) && k >= 0 && s.frames[n - 2].ret >= 0
            && OnlyRow(s.frames, t.frames, n - 2, s.frames[n - 2].ret, k)
            && var to := t.frames[n - 2].rows[s.frames[n - 2].ret];
               forall l: nat | l < k :: to[l] == TimeOf(s, src, l)
  {
    hide Stacked;
    CallWidth(s);
    TopWide(s);
  }

  /** A constant result has the times of the control dependence in force, at
      every level of the caller's table. */
  lemma ConstResultIs(s: State)
    requires Shape(s) && CanReturn(s) && |s.frames| >= 2 && Caller(s).cols <= MAX_LEVEL
    ensures var t, n := ReturnedConst(s), |s.frames|;
            var f := s.frames[n - 2];
            && t == s.(frames := t.frames) && f.ret >= 0 && OnlyRow(s.frames, t.frames, n - 2, f.ret, f.cols)
            && var to := t.frames[n - 2].rows[f.ret];
               forall l: nat | l < f.cols :: to[l] == DependenceOf(s, l)
  {
    hide Stacked;
  }

  /** A function's table: as many registers as it has, all zero, at its own level
      and those nested in it. */
  lemma TableIs(regs: nat, nested: nat, s: State)
    requires Shape(s) && s.waiting
    ensures var t, n := Prepared(regs, nested, s), |s.frames| - 1;
            && t == s.(frames := t.frames, waiting := false) && n >= 0 && |t.frames| == n + 1
            && t.frames[..n] == s.frames[..n]
            && t.frames[n] == s.frames[n].(cols := |s.regions| + nested, rows := t.frames[n].rows)
            && |t.frames[n].rows| == regs
            && forall r: nat, l: nat | r < regs && l < |s.regions| + nested :: t.frames[n].rows[r][l] == 0
  {
    hide WideEnough;
  }

  // --------------------------------------------------------------- the price

  /** What a stamp of up to five operands costs is the greatest operand cost,
      nothing if there is no operand; loads cost four and stores one; everything
      else is free. */
  lemma CostIs(c: Call)
    ensures c.Timestamp? && |c.srcs| <= 5 ==>
              && (forall o | o in c.srcs :: o.offset <= Cost(c))
              && (Cost(c) == 0 || exists o :: o in c.srcs && o.offset == Cost(c))
    ensures c.Load? ==> Cost(c) == 4
    ensures c.Store? || c.StoreConst? ==> Cost(c) == 1
    ensures !c.Timestamp? && !c.Load? && !c.Store? && !c.StoreConst? ==> Cost(c) == 0
  {
    if c.Timestamp? {
      GreatestOffset(c.srcs);
    }
  }

  lemma {:induction false} GreatestOffset(srcs: seq<Operand>)
    ensures forall o | o in srcs :: o.offset <= MaxOffset(srcs)
    ensures MaxOffset(srcs) == 0 || exists o :: o in srcs && o.offset == MaxOffset(srcs)
  {
    if srcs != [] {
      var n := |srcs| - 1;
      GreatestOffset(srcs[..n]);
      assert srcs == srcs[..n] + [srcs[n]] && srcs[n] in srcs;
    }
  }

  /** One of six or seven is made in two steps: it costs the greater of what they
      cost, or both if the second reads what the first has written. */
  lemma LongCostIs(dest: nat, srcs: seq<Operand>)
    requires |srcs| > 5
    ensures var a, b := Cost(Timestamp(dest, srcs[..5])), Cost(Timestamp(dest, srcs[5..]));
            && |srcs[5..]| <= 5 ==>
                 Cost(Timestamp(dest, srcs))
                 == if exists i: nat :: 5 <= i < |srcs| && srcs[i].reg == dest then a + b else if a > b then a else b
  {
    var rest := srcs[5..];
    if i: nat :| 5 <= i < |srcs| && srcs[i].reg == dest {
      assert rest[i - 5] == srcs[i];
    } else {
      assert forall i: nat | i < |rest| :: rest[i] == srcs[i + 5];
    }
  }
}
