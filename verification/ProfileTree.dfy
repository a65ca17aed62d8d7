/** The records of a run form a tree: what each says of its children is what
    their own records say, and no work is counted twice or lost
    (runtime/src/Handlers.cpp:485-572). */
module ProfileTree {
  import opened Common
  import opened Delta
  import opened Critical
  import opened Profile
  import opened ProfileBounds
  import opened ProfileRun
  import opened ProfileMeaning

  // ------------------------------------------------- records, in their order

  /** A region's children finish before it does: the records one level deeper,
      as far back as no record is at its own level or above. */
  function Children(stats: seq<Stat>, level: nat): seq<Stat> {
    if stats == [] then []
    else
      var n := |stats| - 1;
      if stats[n].level <= level then []
      else Children(stats[..n], level) + if stats[n].level == level + 1 then [stats[n]] else []
  }

  function Works(stats: seq<Stat>): nat {
    if stats == [] then 0 else Works(stats[..|stats| - 1]) + stats[|stats| - 1].work
  }

  function Paths(stats: seq<Stat>): nat {
    if stats == [] then 0 else Paths(stats[..|stats| - 1]) + stats[|stats| - 1].cp
  }

  function LongestPath(stats: seq<Stat>): (p: nat)
    ensures forall t | t in stats :: t.cp <= p
    ensures stats != [] ==> exists t :: t in stats && t.cp == p
    ensures stats == [] ==> p == 0
  {
    if stats == [] then 0
    else
      var n := |stats| - 1;
      assert stats == stats[..n] + [stats[n]];
      var p := LongestPath(stats[..n]);
      if stats[n].cp >= p then
        assert stats[n] in stats;
        stats[n].cp
      else p
  }

  /** A record that says of its children what they say themselves. */
  ghost predicate Tallied(t: Stat, children: seq<Stat>) {
    && t.childrenWork == Works(children) && t.childrenCP == Paths(children)
    && t.childMaxCP == LongestPath(children) && t.childCount == |children|
  }

  /** Each record of a sequence does. */
  ghost predicate AllTallied(stats: seq<Stat>) {
    forall i: nat | i < |stats| :: Tallied(stats[i], Children(stats[..i], stats[i].level))
  }

  lemma ChildrenNext(stats: seq<Stat>, t: Stat, level: nat)
    ensures Children(stats + [t], level)
            == if t.level <= level then []
               else if t.level == level + 1 then Children(stats, level) + [t] else Children(stats, level)
  {
    assert (stats + [t])[..|stats|] == stats;
  }

  lemma OneMore(children: seq<Stat>, t: Stat)
    ensures Works(children + [t]) == Works(children) + t.work && Paths(children + [t]) == Paths(children) + t.cp
    ensures LongestPath(children + [t]) == Max(LongestPath(children), t.cp)
  {
    assert (children + [t])[..|children|] == children;
  }

  // ----------------------------------------------------------- conservation

  /** Work outside children. */
  function SelfWorks(stats: seq<Stat>): int {
    if stats == [] then 0
    else
      var t := stats[|stats| - 1];
      SelfWorks(stats[..|stats| - 1]) + t.work - t.childrenWork
  }

  /** Work of outermost regions. */
  function RootWorks(stats: seq<Stat>): nat {
    if stats == [] then 0
    else
      var t := stats[|stats| - 1];
      RootWorks(stats[..|stats| - 1]) + if t.level == 0 then t.work else 0
  }

  /** Work of children whose parents, at the first `n` levels, are not finished. */
  function OpenWorks(stats: seq<Stat>, n: nat): nat {
    if n == 0 then 0 else OpenWorks(stats, n - 1) + Works(Children(stats, n - 1))
  }

  /** Work that has been recorded belongs to one region each. */
  ghost predicate Conserved(stats: seq<Stat>, n: nat) {
    SelfWorks(stats) == RootWorks(stats) + OpenWorks(stats, n)
  }

  lemma LevelNext(stats: seq<Stat>, t: Stat, l: nat)
    requires l < t.level
    ensures Works(Children(stats + [t], l)) == Works(Children(stats, l)) + if l + 1 == t.level then t.work else 0
  {
    hide Children, Works;
    ChildrenNext(stats, t, l);
    OneMore(Children(stats, l), t);
  }

  lemma {:induction false} OpenNext(stats: seq<Stat>, t: Stat, n: nat)
    requires n <= t.level
    ensures OpenWorks(stats + [t], n) == OpenWorks(stats, n) + if n == t.level > 0 then t.work else 0
  {
    hide Children, Works;
    if n > 0 {
      OpenNext(stats, t, n - 1);
      assert OpenWorks(stats + [t], n - 1) == OpenWorks(stats, n - 1);
      LevelNext(stats, t, n - 1);
    }
  }

  lemma ExitConserves(stats: seq<Stat>, t: Stat)
    requires Conserved(stats, t.level + 1) && Tallied(t, Children(stats, t.level))
    ensures Conserved(stats + [t], t.level)
  {
    OpenNext(stats, t, t.level);
    assert (stats + [t])[..|stats|] == stats;
  }

  /** A new level has no children yet. */
  lemma EnterConserves(stats: seq<Stat>, n: nat)
    requires Conserved(stats, n) && (stats != [] ==> stats[|stats| - 1].level <= n)
    ensures Conserved(stats, n + 1)
  {
    assert Children(stats, n) == [];
  }

  // ------------------------------------------------------ regions in mid-run

  /** An active region's totals are its finished children's. */
  ghost predicate Totals(r: Region, children: seq<Stat>) {
    && r.childrenWork == Works(children) && r.childrenCP == Paths(children)
    && r.childMaxCP == LongestPath(children) && r.childCount == |children|
  }

  ghost predicate AllTotals(stats: seq<Stat>, regions: seq<Region>) {
    && AllTallied(stats)
    && (forall l: nat | l < |regions| :: Totals(regions[l], Children(stats, l)))
    && (stats != [] ==> stats[|stats| - 1].level <= |regions|)
    && Conserved(stats, |regions|)
  }

  /** Totals stay, whatever critical paths do. */
  ghost predicate SameTotals(was: seq<Region>, now: seq<Region>) {
    && |now| == |was|
    && forall l: nat | l < |was| :: now[l] == was[l].(cp := now[l].cp)
  }

  lemma {:induction false} StampedTotals(us: seq<Update>, s: State)
    requires Shape(s) && forall i: nat | i < |us| :: CanUpdate(us[i], s)
    ensures SameTotals(s.regions, Stamped(us, s).regions)
    decreases |us|
  {
    hide Stacked, Applied, Sources;
    if us != [] {
      assert CanUpdate(us[0], s);
      AppliedIs(us[0], s);
      AllUpdate(us, s, Applied(us[0], s));
      StampedTotals(us[1..], Applied(us[0], s));
    }
  }

  /** Only entries and exits change totals. */
  lemma TotalsKept(c: Call, s: State)
    requires Shape(s) && Legal(c, s) && !c.Enter? && !c.Exit? && !c.LandingPad?
    ensures SameTotals(s.regions, After(c, s).regions)
  {
    hide Stacked, Stamped, StoredTo;
    if Links(c) {
    } else if Updates(c) != [] {
      UpdatesLegal(c, s);
      StampedTotals(Updates(c), s);
    } else if c.Store? {
      StoreIs(Some(c.src), c.addr, s);
    } else if c.StoreConst? {
      StoreIs(None, c.addr, s);
    }
  }

  lemma SameKeeps(stats: seq<Stat>, was: seq<Region>, now: seq<Region>)
    requires AllTotals(stats, was) && SameTotals(was, now)
    ensures AllTotals(stats, now)
  {
  }

  lemma EnterTotals(stats: seq<Stat>, id: nat, kind: Kind, s: State)
    requires Shape(s) && CanEnter(kind, s) && AllTotals(stats, s.regions)
    ensures AllTotals(stats, Entered(id, kind, s).regions)
  {
    hide AllTallied, Conserved, Stacked;
    EnterIs(id, kind, s);
    EnterConserves(stats, |s.regions|);
  }

  lemma TalliedNext(stats: seq<Stat>, t: Stat)
    requires AllTallied(stats) && Tallied(t, Children(stats, t.level))
    ensures AllTallied(stats + [t])
  {
    hide Tallied, Children;
    var now := stats + [t];
    forall i: nat | i < |now| ensures Tallied(now[i], Children(now[..i], now[i].level)) {
      assert now[..i] == if i < |stats| then stats[..i] else stats;
    }
  }

  /** The record of an exit counts for the parent. */
  lemma ExitRegion(stats: seq<Stat>, s: State, l: nat)
    requires Shape(s) && Running(s) && l + 1 < |s.regions| && Totals(s.regions[l], Children(stats, l))
    ensures Totals(Closed(s).regions[l], Children(stats + [Exited(s)], l))
  {
    hide Stacked, Closed, Works, Paths, LongestPath, Children;
    ExitIs(s);
    RecordIs(s);
    ChildrenNext(stats, Exited(s), l);
    OneMore(Children(stats, l), Exited(s));
  }

  /** And tallies. */
  lemma ExitTotals(stats: seq<Stat>, s: State)
    requires Shape(s) && Running(s) && AllTotals(stats, s.regions)
    ensures AllTotals(stats + [Exited(s)], Closed(s).regions)
  {
    hide Stacked, Closed, Exited, Works, Paths, LongestPath, Children, AllTallied, Conserved;
    ExitIs(s);
    RecordIs(s);
    TalliedNext(stats, Exited(s));
    ExitConserves(stats, Exited(s));
    forall l: nat | l + 1 < |s.regions| ensures Totals(Closed(s).regions[l], Children(stats + [Exited(s)], l)) {
      ExitRegion(stats, s, l);
    }
  }

  lemma {:induction false} UnwindTotals(stats: seq<Stat>, s: State, target: nat)
    requires Shape(s) && Running(s) && target < |s.regions| && AllTotals(stats, s.regions)
    ensures AllTotals(stats + UnwoundStats(s, target), Unwound(s, target).regions)
    decreases |s.regions|
  {
    hide Stacked, Closed, Exited, AllTotals;
    if |s.regions| > target + 1 {
      ExitTotals(stats, s);
      UnwindTotals(stats + [Exited(s)], Closed(s), target);
      var rest := UnwoundStats(Closed(s), target);
      assert stats + [Exited(s)] + rest == stats + ([Exited(s)] + rest);
    } else {
      assert stats + [] == stats;
    }
  }

  lemma CallTotals(stats: seq<Stat>, c: Call, s: State)
    requires Shape(s) && Legal(c, s) && AllTotals(stats, s.regions)
    ensures AllTotals(stats + Emitted(c, s), After(c, s).regions)
  {
    hide Stacked, AllTotals, SameTotals, Entered, Closed, Exited, Unwound, UnwoundStats;
    match c
    case Enter(id, kind) =>
      EnterTotals(stats, id, kind, s);
      assert stats + [] == stats;
    case Exit(_, _) => ExitTotals(stats, s);
    case LandingPad(id) => UnwindTotals(stats, s, Deepest(s.regions, id));
    case _ =>
      TotalsKept(c, s);
      SameKeeps(stats, s.regions, After(c, s).regions);
      assert stats + [] == stats;
  }

  // ------------------------------------------------------------ whole runs

  /** On every run, from a state whose records so far tally, all records do. */
  lemma {:induction false} RunTotals(stats: seq<Stat>, calls: seq<Call>, s: State, g: Ledger)
    requires Inv(s, g) && CanRun(calls, s, g) && AllTotals(stats, s.regions)
    ensures AllTotals(stats + RunStats(calls, s, g), RunState(calls, s, g).regions)
    decreases |calls|
  {
    hide RegionsOk, VectorsOk, Stacked, AllTotals, After, Charged, Emitted, Legal;
    if calls != [] {
      var c := calls[0];
      CallKeeps(c, s, g);
      CallTotals(stats, c, s);
      RunTotals(stats + Emitted(c, s), calls[1..], After(c, s), Charged(c, s, g));
      var rest := RunStats(calls[1..], After(c, s), Charged(c, s, g));
      assert stats + Emitted(c, s) + rest == stats + (Emitted(c, s) + rest);
    } else {
      assert stats + [] == stats;
    }
  }

  /** What the records of a run from the start say of children is what the
      children's own records say; and once all regions are left, the work they
      did themselves adds up to the work of the outermost. */
  lemma RecordsTally(calls: seq<Call>, max: nat)
    requires max < MAX_LEVEL && Inv(Initial(max), Ledger(0, [], true, true))
    requires CanRun(calls, Initial(max), Ledger(0, [], true, true))
    ensures var stats := RunStats(calls, Initial(max), Ledger(0, [], true, true));
            && AllTallied(stats)
            && (RunState(calls, Initial(max), Ledger(0, [], true, true)).regions == [] ==>
                  SelfWorks(stats) == RootWorks(stats))
  {
    hide RunStats, RunState, CanRun, Inv, AllTotals, AllTallied, NoDependences;
    var s, g := Initial(max), Ledger(0, [], true, true);
    NoTotals();
    RunTotals([], calls, s, g);
    assert [] + RunStats(calls, s, g) == RunStats(calls, s, g);
    EndTotals(RunStats(calls, s, g), RunState(calls, s, g).regions);
  }

  lemma NoTotals()
    ensures AllTotals([], [])
  {
  }

  lemma EndTotals(stats: seq<Stat>, regions: seq<Region>)
    requires AllTotals(stats, regions)
    ensures AllTallied(stats) && (regions == [] ==> SelfWorks(stats) == RootWorks(stats))
  {
  }
}
