/** What holds on every run of the profiler: no critical path exceeds the work
    of its region, and none exceeds the work with the children's work replaced
    by their critical paths (runtime/src/Handlers.cpp:507-553). */
module ProfileBounds {
  import opened Common
  import opened Delta
  import ShadowSpec
  import opened Critical
  import opened Profile

  /** The accounts of a run, kept beside the program's state: time that has
      passed since the last region boundary and has not been spent by a stamp;
      the top of the control-dependence table when each active region was
      entered; and whether every value passed between functions below the
      instrumented levels was in pace, and in order, with the level the copy
      leaves out. */
  datatype Ledger = Ledger(credit: nat, bases: seq<nat>, paced: bool, sorted: bool)

  // ---------------------------------------------------- what a caller pays

  function MaxOffset(srcs: seq<Operand>): (r: nat)
    ensures forall i: nat | i < |srcs| :: srcs[i].offset <= r
  {
    if srcs == [] then 0
    else
      var n := |srcs| - 1;
      var m := MaxOffset(srcs[..n]);
      assert forall i: nat | i < n :: srcs[..n][i] == srcs[i];
      Max(m, srcs[n].offset)
  }

  /** Operands that read a register. */
  predicate Uses(srcs: seq<Operand>, reg: nat) {
    exists i: nat | i < |srcs| :: srcs[i].reg == reg
  }

  /** The largest operand cost.  A stamp of six or seven operands is made in two
      steps; when the second reads the register the first wrote, costs add up. */
  function StampCost(dest: nat, srcs: seq<Operand>): nat {
    if |srcs| <= 5 then MaxOffset(srcs)
    else if Uses(srcs[5..], dest) then MaxOffset(srcs[..5]) + MaxOffset(srcs[5..])
    else Max(MaxOffset(srcs[..5]), MaxOffset(srcs[5..]))
  }

  function Cost(c: Call): nat {
    match c
    case Timestamp(dest, srcs) => StampCost(dest, srcs)
    case Load(_, _, _) => LOAD_COST
    case Store(_, _) => STORE_COST
    case StoreConst(_) => STORE_COST
    case _ => 0
  }

  /** The instrumented program pays for a stamp before it makes it, pops only
      what the current region pushed, and takes arguments off before the
      function has stamped anything. */
  predicate Paid(c: Call, s: State, g: Ledger) {
    && Cost(c) <= g.credit
    && (c.PopCDep? && g.bases != [] ==> g.bases[|g.bases| - 1] < s.readPtr)
    && (c.DeqArg? && s.read < |s.args| && s.args[s.read] != DUMMY_ARG && s.regions != [] ==>
          s.regions[|s.regions| - 1].cp == 0)
  }

  predicate Deep(s: State) {
    |s.regions| > s.max + 1
  }

  /** What a call copies between functions below the instrumented levels: all
      instrumented levels of `from` but the last, which `over` keeps. */
  datatype Copy = NoCopy | DeepCopy(from: seq<Time>, over: seq<Time>)

  function DeepCopies(c: Call, s: State): (r: Copy)
    requires Shape(s) && Legal(c, s)
    ensures r.DeepCopy? ==> Deep(s) && s.max < |r.from| && s.max < |r.over|
  {
    if c.DeqArg? && s.args[s.read] != DUMMY_ARG && Deep(s) then
      TopWide(s);
      CallerWide(s);
      DeepCopy(Caller(s).rows[s.args[s.read]], Top(s).rows[c.dest])
    else if c.Return? && |s.frames| >= 2 && Deep(s) then
      TopWide(s);
      CallerWide(s);
      DeepCopy(Top(s).rows[c.src], Caller(s).rows[Caller(s).ret])
    else NoCopy
  }

  /** The level above the one left out exceeds it by no more than the slack. */
  predicate InPace(c: Call, s: State)
    requires Shape(s) && Legal(c, s)
  {
    match DeepCopies(c, s)
    case NoCopy => true
    case DeepCopy(from, over) => s.max > 0 ==> from[s.max - 1] <= Slack(s.regions, s.max) + over[s.max]
  }

  /** The level above the one left out is no less than it. */
  predicate InOrder(c: Call, s: State)
    requires Shape(s) && Legal(c, s)
  {
    match DeepCopies(c, s)
    case NoCopy => true
    case DeepCopy(from, over) => s.max > 0 ==> over[s.max] <= from[s.max - 1]
  }

  function Charged(c: Call, s: State, g: Ledger): Ledger
    requires Shape(s) && Legal(c, s) && Cost(c) <= g.credit && |g.bases| == |s.regions|
  {
    match c
    case Work(amount) => g.(credit := g.credit + amount)
    case Enter(_, _) => g.(credit := 0, bases := g.bases + [s.readPtr])
    case Exit(_, _) => g.(credit := 0, bases := g.bases[..|s.regions| - 1])
    case LandingPad(id) =>
      var target := Deepest(s.regions, id);
      if target + 1 == |s.regions| then g else g.(credit := 0, bases := g.bases[..target + 1])
    case _ =>
      g.(credit := g.credit - Cost(c), paced := g.paced && InPace(c, s), sorted := g.sorted && InOrder(c, s))
  }

  // -------------------------------------------------------- the invariant

  function Edge(s: State, g: Ledger): Frontier
    requires g.credit <= s.time
  {
    Frontier(s.regions, s.time - g.credit, g.paced, g.sorted)
  }

  ghost predicate TopOk(s: State, f: Frontier) {
    s.frames != [] ==> forall i: nat | i < |Top(s).rows| :: VecOk(Top(s).rows[i], Levels(s), f)
  }

  /** A register of a function that has called another, at level `level`: its
      innermost time is what the callee started from, or a value returned. */
  ghost predicate CallerOk(t: seq<Time>, level: nat, max: nat, f: Frontier) {
    && VecOk(t, Min(level, max + 1), f)
    && (f.paced && 0 < level <= max ==>
          level < |f.regions| && t[level - 1] <= Slack(f.regions, level) + f.regions[level].cp)
  }

  ghost predicate RowsOk(fr: Frame, level: nat, max: nat, f: Frontier) {
    forall k: nat | k < |fr.rows| :: CallerOk(fr.rows[k], level, max, f)
  }

  ghost predicate CallersOk(s: State, f: Frontier) {
    forall i: nat | i + 1 < |s.frames| :: RowsOk(s.frames[i], FrameLevels(s.frames)[i + 1], s.max, f)
  }

  /** Rows pushed since a region was entered are good for its levels. */
  ghost predicate CdtOk(s: State, bases: seq<nat>, f: Frontier)
    requires s.readPtr < CDT_ROWS
  {
    && (forall l: nat | l < |bases| :: bases[l] <= s.readPtr)
    && (forall l: nat, m: nat | l < m < |bases| :: bases[l] <= bases[m])
    && (forall l: nat, r: nat | l < |bases| && bases[l] <= r <= s.readPtr :: VecOk(s.cdt[r], Min(l + 1, s.max + 1), f))
  }

  ghost predicate MemOk(mem: map<nat, ShadowSpec.Vector>, n: nat, f: Frontier)
    requires n <= MAX_LEVEL
  {
    forall c: nat :: VecOk(ShadowSpec.Read(mem, c, n), n, f)
  }

  ghost predicate VectorsOk(s: State, bases: seq<nat>, f: Frontier)
    requires s.readPtr < CDT_ROWS && s.max < MAX_LEVEL
  {
    TopOk(s, f) && CallersOk(s, f) && CdtOk(s, bases, f) && MemOk(s.mem, Levels(s), f)
  }

  ghost predicate Inv(s: State, g: Ledger) {
    && Shape(s) && |g.bases| == |s.regions| && g.credit <= s.time
    && RegionsOk(s.regions, s.max, s.time, g.credit, g.paced, g.sorted)
    && VectorsOk(s, g.bases, Edge(s, g))
  }

  lemma InitiallyOk(max: nat)
    requires max < MAX_LEVEL
    ensures Inv(Initial(max), Ledger(0, [], true, true))
  {
  }

  // ---------------------------------------------- vectors under weakening

  lemma CallerLooser(t: seq<Time>, level: nat, max: nat, was: Frontier, now: Frontier)
    requires CallerOk(t, level, max, was) && Looser(was, now, level + 1)
    ensures CallerOk(t, level, max, now)
  {
    VecLooser(t, Min(level, max + 1), was, now, Min(level, max + 1));
  }

  lemma FrameBelow(s: State, i: nat)
    requires Shape(s) && i < |s.frames|
    ensures s.frames[i].level < |s.regions|
  {
    assert FrameLevels(s.frames)[i] == s.frames[i].level;
    FuncLevelsBelow(Kinds(s.regions), i);
  }

  lemma CallersLooser(s: State, was: Frontier, now: Frontier)
    requires Shape(s) && |was.regions| == |s.regions| && CallersOk(s, was) && Looser(was, now, |s.regions|)
    ensures CallersOk(s, now)
  {
    forall i: nat | i + 1 < |s.frames| ensures RowsOk(s.frames[i], FrameLevels(s.frames)[i + 1], s.max, now) {
      FrameBelow(s, i + 1);
      assert RowsOk(s.frames[i], FrameLevels(s.frames)[i + 1], s.max, was);
      forall k: nat | k < |s.frames[i].rows|
        ensures CallerOk(s.frames[i].rows[k], FrameLevels(s.frames)[i + 1], s.max, now)
      {
        CallerLooser(s.frames[i].rows[k], s.frames[i + 1].level, s.max, was, now);
      }
    }
  }

  lemma TopLooser(s: State, was: Frontier, now: Frontier, regions: seq<Region>)
    requires |was.regions| == |s.regions| == |regions| && TopOk(s, was) && Looser(was, now, |s.regions|)
    ensures TopOk(s.(regions := regions), now)
  {
    var s' := s.(regions := regions);
    if s.frames != [] {
      forall i: nat | i < |Top(s').rows| ensures VecOk(Top(s').rows[i], Levels(s'), now) {
        VecLooser(Top(s).rows[i], Levels(s), was, now, Levels(s));
      }
    }
  }

  lemma CdtLooser(s: State, bases: seq<nat>, was: Frontier, now: Frontier)
    requires s.readPtr < CDT_ROWS && |was.regions| == |bases| && CdtOk(s, bases, was) && Looser(was, now, |bases|)
    ensures CdtOk(s, bases, now)
  {
    forall l: nat, r: nat | l < |bases| && bases[l] <= r <= s.readPtr
      ensures VecOk(s.cdt[r], Min(l + 1, s.max + 1), now)
    {
      VecLooser(s.cdt[r], Min(l + 1, s.max + 1), was, now, Min(l + 1, s.max + 1));
    }
  }

  lemma MemLooser(mem: map<nat, ShadowSpec.Vector>, n: nat, was: Frontier, now: Frontier)
    requires n <= MAX_LEVEL && MemOk(mem, n, was) && n <= |was.regions| && Looser(was, now, |was.regions|)
    ensures MemOk(mem, n, now)
  {
    forall c: nat ensures VecOk(ShadowSpec.Read(mem, c, n), n, now) {
      VecLooser(ShadowSpec.Read(mem, c, n), n, was, now, n);
    }
  }

  /** Everything stays good when the bounds are loosened. */
  lemma VectorsLooser(s: State, bases: seq<nat>, was: Frontier, now: Frontier, regions: seq<Region>)
    requires Shape(s) && |was.regions| == |s.regions| == |regions| == |bases| && VectorsOk(s, bases, was)
    requires Looser(was, now, |s.regions|)
    ensures VectorsOk(s.(regions := regions), bases, now)
  {
    hide TopOk, MemOk, Looser, Stacked;
    TopLooser(s, was, now, regions);
    CallersLooser(s, was, now);
    CdtLooser(s, bases, was, now);
    MemLooser(s.mem, Levels(s), was, now);
  }

  /** Two vectors that agree on the levels are equally good. */
  lemma VecFront(t: seq<Time>, u: seq<Time>, len: nat, f: Frontier)
    requires VecOk(t, len, f) && len <= |u| && u[..len] == t[..len]
    ensures VecOk(u, len, f)
  {
    assert forall l: nat | l < len :: u[..len][l] == u[l] && t[..len][l] == t[l];
  }

  /** A good stamp put in a register. */
  lemma PutKeeps(s: State, bases: seq<nat>, f: Frontier, dest: nat, d: seq<Time>)
    requires Shape(s) && Register(s, dest) && VectorsOk(s, bases, f)
    requires |d| == Levels(s) && VecOk(d, Levels(s), f)
    ensures VectorsOk(s.(frames := WithRow(s.frames, |s.frames| - 1, dest, d)), bases, f)
  {
    var n := |s.frames| - 1;
    var frames := WithRow(s.frames, n, dest, d);
    var row := Top(s).rows[dest];
    VecFront(d, d + row[|d|..], |d|, f);
    assert FrameLevels(frames) == FrameLevels(s.frames);
  }

  // -------------------------------------------------------------- stamps

  /** A stamp that lies within what is paid for. */
  ghost predicate PaidStamp(s: State, g: Ledger, d: seq<Time>, spent: nat) {
    && |d| == Levels(s) && |g.bases| == |s.regions| && spent <= g.credit <= s.time
    && (forall l: nat | l < |d| ::
          d[l] + s.regions[l].start <= s.time - (g.credit - spent) && d[l] <= s.regions[l].cp + spent)
    && Steps(d, |d|, Edge(s, g))
  }

  lemma PaidRegions(s: State, g: Ledger, d: seq<Time>, spent: nat)
    requires Inv(s, g) && PaidStamp(s, g, d, spent)
    ensures var s' := s.(regions := Extended(s.regions, d));
            var g' := g.(credit := g.credit - spent);
            Inv(s', g') && VecOk(d, Levels(s), Edge(s', g'))
  {
    hide RegionsOk, VectorsOk, Stacked;
    var s' := s.(regions := Extended(s.regions, d));
    var g' := g.(credit := g.credit - spent);
    ExtendedStack(s, d);
    StampRegions(s.regions, s.max, s.time, g.credit, g.paced, g.sorted, d, spent);
    VectorsLooser(s, g.bases, Edge(s, g), Edge(s', g'), s'.regions);
  }

  /** A paid stamp put in a register, critical paths extended. */
  lemma StampKeeps(s: State, g: Ledger, dest: nat, d: seq<Time>, spent: nat)
    requires Inv(s, g) && Register(s, dest) && PaidStamp(s, g, d, spent)
    ensures Inv(s.(regions := Extended(s.regions, d), frames := WithRow(s.frames, |s.frames| - 1, dest, d)),
                g.(credit := g.credit - spent))
  {
    hide RegionsOk, VectorsOk, VecOk, Kinds, FrameLevels, FuncLevels, WideEnough;
    var s' := s.(regions := Extended(s.regions, d));
    PaidRegions(s, g, d, spent);
    PutKeeps(s', g.bases, Edge(s', g.(credit := g.credit - spent)), dest, d);
    ExtendedStack(s, d);
    RowKeepsShape(s, |s.frames| - 1, dest, d, s'.regions);
  }

  /** The latest of affordable sources is a stamp that is paid for. */
  lemma StampPaid(s: State, g: Ledger, sources: seq<Source>, bump: Time, cost: nat)
    requires Inv(s, g) && AllAffordable(sources, Levels(s), Edge(s, g), cost) && cost + bump <= g.credit
    ensures forall x | x in sources :: Levels(s) <= |x.times|
    ensures PaidStamp(s, g, Stamp(sources, bump, Levels(s)), cost + bump)
  {
    AllStarted(s.regions, s.max, s.time, g.credit, g.paced, g.sorted);
    StampFits(sources, bump, Levels(s), Edge(s, g), cost);
  }

  lemma GoodSource(s: State, g: Ledger, t: seq<Time>, offset: Time, cost: nat)
    requires Inv(s, g) && VecOk(t, Levels(s), Edge(s, g)) && offset <= cost
    ensures Affordable(Source(t, offset), Levels(s), Edge(s, g), cost)
  {
  }

  /** The current control dependence is good for all active levels. */
  lemma CurrentDependence(s: State, g: Ledger)
    requires Inv(s, g) && s.regions != []
    ensures VecOk(s.cdt[s.readPtr], Levels(s), Edge(s, g))
  {
    assert g.bases[|g.bases| - 1] <= s.readPtr;
  }

  lemma SourcesAffordable(u: Update, s: State, g: Ledger, cost: nat)
    requires Inv(s, g) && CanUpdate(u, s) && (u.addr.None? ==> MaxOffset(u.srcs) <= cost)
    ensures AllAffordable(Sources(u, s), Levels(s), Edge(s, g), cost)
  {
    CurrentDependence(s, g);
    forall x | x in Sources(u, s) ensures Affordable(x, Levels(s), Edge(s, g), cost) {
      GoodSource(s, g, x.times, x.offset, cost);
    }
  }

  /** A stamp that adds nothing leaves critical paths alone. */
  lemma FreeStamp(s: State, g: Ledger, d: seq<Time>)
    requires PaidStamp(s, g, d, 0)
    ensures Extended(s.regions, d) == s.regions
  {
  }

  lemma UpdateKeeps(u: Update, s: State, g: Ledger, cost: nat)
    requires Inv(s, g) && CanUpdate(u, s) && (u.addr.None? ==> MaxOffset(u.srcs) <= cost)
    requires cost + Bump(u) <= g.credit && (u.path || cost + Bump(u) == 0)
    ensures Inv(Applied(u, s), g.(credit := g.credit - (cost + Bump(u))))
  {
    hide RegionsOk, VectorsOk, Stacked, PaidStamp, AllAffordable, Stamp;
    SourcesAffordable(u, s, g, cost);
    var d := Stamp(Sources(u, s), Bump(u), Levels(s));
    StampPaid(s, g, Sources(u, s), Bump(u), cost);
    StampKeeps(s, g, u.dest, d, cost + Bump(u));
    if !u.path {
      FreeStamp(s, g, d);
    }
  }

  lemma Rewritten(s: State, dest: nat, d: seq<Time>, e: seq<Time>)
    requires Shape(s) && Register(s, dest) && |d| == |e| == Levels(s)
    ensures WithRow(WithRow(s.frames, |s.frames| - 1, dest, d), |s.frames| - 1, dest, e)
            == WithRow(s.frames, |s.frames| - 1, dest, e)
  {
    var row := Top(s).rows[dest];
    assert e + (d + row[|d|..])[|e|..] == e + row[|e|..];
    assert Top(s).rows[dest := d + row[|d|..]][dest := e + row[|e|..]] == Top(s).rows[dest := e + row[|e|..]];
  }

  /** A stamp of six or seven operands. */
  lemma TwoStepsKeep(dest: nat, srcs: seq<Operand>, s: State, g: Ledger)
    requires Inv(s, g) && Legal(Timestamp(dest, srcs), s) && |srcs| > 5 && StampCost(dest, srcs) <= g.credit
    ensures Inv(After(Timestamp(dest, srcs), s), g.(credit := g.credit - StampCost(dest, srcs)))
  {
    hide RegionsOk, VectorsOk, Stacked, PaidStamp, AllAffordable, Stamp, StampCost;
    var us := Updates(Timestamp(dest, srcs));
    var cost := StampCost(dest, srcs);
    UpdatesLegal(Timestamp(dest, srcs), s);
    assert CanUpdate(us[0], s) && CanUpdate(us[1], s);
    var s1 := Applied(us[0], s);
    AllUpdate(us, s, s1);
    assert us[1..] == [us[1]];
    assert CanUpdate(us[1..][0], s1);
    SecondAffordable(dest, srcs, s, g);
    var d1 := Stamp(Sources(us[0], s), 0, Levels(s));
    var d2 := Stamp(Sources(us[1], s1), 0, Levels(s));
    StampPaid(s, g, Sources(us[1], s1), 0, cost);
    StampKeeps(s, g, dest, d2, cost);
    Rewritten(s, dest, d1, d2);
    assert Stamped(us, s) == Stamped(us[1..], s1) == Applied(us[1], s1);
  }

  lemma PaidSource(s: State, g: Ledger, d: seq<Time>, spent: nat, t: seq<Time>, offset: Time, cost: nat)
    requires PaidStamp(s, g, d, spent) && |d| <= |t| && spent + offset <= cost
    requires forall l: nat | l < |d| :: t[l] == d[l]
    ensures Affordable(Source(t, offset), Levels(s), Edge(s, g), cost)
  {
  }

  lemma SecondAffordable(dest: nat, srcs: seq<Operand>, s: State, g: Ledger)
    requires Inv(s, g) && Legal(Timestamp(dest, srcs), s) && |srcs| > 5 && StampCost(dest, srcs) <= g.credit
    ensures var us := Updates(Timestamp(dest, srcs));
            && CanUpdate(us[0], s) && CanUpdate(us[1], Applied(us[0], s))
            && AllAffordable(Sources(us[1], Applied(us[0], s)), Levels(s), Edge(s, g), StampCost(dest, srcs))
  {
    hide RegionsOk, Stacked, Stamp, PaidStamp, Affordable;
    var us := Updates(Timestamp(dest, srcs));
    var cost := StampCost(dest, srcs);
    var first := MaxOffset(srcs[..5]);
    UpdatesLegal(Timestamp(dest, srcs), s);
    assert CanUpdate(us[0], s) && CanUpdate(us[1], s);
    var s1 := Applied(us[0], s);
    AllUpdate(us, s, s1);
    assert CanUpdate(us[1..][0], s1);
    SourcesAffordable(us[0], s, g, first);
    var d1 := Stamp(Sources(us[0], s), 0, Levels(s));
    StampPaid(s, g, Sources(us[0], s), 0, first);
    assert Top(s1).rows[dest][..|d1|] == d1;
    forall l: nat | l < |d1| ensures Top(s1).rows[dest][l] == d1[l] {
    }
    forall i: nat | i < |us[1].srcs|
      ensures Affordable(Source(Top(s1).rows[us[1].srcs[i].reg], us[1].srcs[i].offset), Levels(s), Edge(s, g), cost)
    {
      var o := us[1].srcs[i];
      if o.reg == dest {
        if i > 0 {
          assert srcs[5..][i - 1] == o && Uses(srcs[5..], dest);
        }
        PaidSource(s, g, d1, first, Top(s1).rows[dest], o.offset, cost);
      } else {
        assert srcs[5..][i - 1] == o;
        GoodSource(s, g, Top(s).rows[o.reg], o.offset, cost);
      }
    }
  }

  // -------------------------------------------------------------- stores

  lemma StoreSourcesAffordable(src: Option<nat>, s: State, g: Ledger)
    requires Inv(s, g) && Running(s) && (src.Some? ==> Register(s, src.value))
    ensures AllAffordable(StoreSources(src, s), Levels(s), Edge(s, g), 0)
  {
    CurrentDependence(s, g);
    forall x | x in StoreSources(src, s) ensures Affordable(x, Levels(s), Edge(s, g), 0) {
      GoodSource(s, g, x.times, 0, 0);
    }
  }

  lemma StoreKeeps(src: Option<nat>, addr: nat, s: State, g: Ledger)
    requires Inv(s, g) && Running(s) && (src.Some? ==> Register(s, src.value)) && STORE_COST <= g.credit
    ensures Inv(StoredTo(src, addr, s), g.(credit := g.credit - STORE_COST))
  {
    hide RegionsOk, Stacked, Stamp, PaidStamp, VectorsOk, AllAffordable;
    var d := Stamp(StoreSources(src, s), STORE_COST, Levels(s));
    StoreSourcesAffordable(src, s, g);
    StampPaid(s, g, StoreSources(src, s), STORE_COST, 0);
    PaidRegions(s, g, d, STORE_COST);
    var s1 := s.(regions := Extended(s.regions, d));
    WrittenKeeps(s1, g.bases, Edge(s1, g.(credit := g.credit - STORE_COST)), ShadowSpec.Cell(addr), d);
    assert StoredTo(src, addr, s) == s1.(mem := ShadowSpec.Written(s.mem, ShadowSpec.Cell(addr), d));
  }

  lemma WrittenKeeps(s: State, bases: seq<nat>, f: Frontier, cell: nat, d: seq<Time>)
    requires s.readPtr < CDT_ROWS && s.max < MAX_LEVEL && VectorsOk(s, bases, f)
    requires |d| == Levels(s) && VecOk(d, Levels(s), f)
    ensures VectorsOk(s.(mem := ShadowSpec.Written(s.mem, cell, d)), bases, f)
  {
    var mem := ShadowSpec.Written(s.mem, cell, d);
    WrittenOk(s.mem, cell, d, Levels(s), f);
    var s' := s.(mem := mem);
    assert Levels(s') == Levels(s) && s'.frames == s.frames;
    assert s.frames != [] ==> Top(s') == Top(s);
  }

  lemma WrittenOk(mem: map<nat, ShadowSpec.Vector>, cell: nat, d: seq<Time>, n: nat, f: Frontier)
    requires n <= MAX_LEVEL && |d| == n && VecOk(d, n, f) && MemOk(mem, n, f)
    ensures MemOk(ShadowSpec.Written(mem, cell, d), n, f)
  {
    var mem' := ShadowSpec.Written(mem, cell, d);
    forall c: nat ensures VecOk(ShadowSpec.Read(mem', c, n), n, f) {
      if c == cell {
        assert ShadowSpec.Read(mem', c, n) == d;
      } else {
        assert ShadowSpec.Read(mem', c, n) == ShadowSpec.Read(mem, c, n);
      }
    }
  }
}
