/** When a finished region that has done work has a critical path at all, which
    the runtime asserts in debug builds (runtime/src/Handlers.cpp:539-546). */
module ProfileLive {
  import opened Common
  import opened Delta
  import opened Critical
  import opened Profile
  import opened ProfileBounds
  import opened ProfileRegions
  import opened ProfileRun

  /** For each active region, whether a call of positive cost has been made
      since it was entered. */
  type Stirs = seq<bool>

  function Stirred(c: Call, s: State, a: Stirs): (r: Stirs)
    requires Legal(c, s) && |a| == |s.regions|
  {
    if c.Enter? then a + [false]
    else if c.Exit? then a[..|a| - 1]
    else if c.LandingPad? then a[..Deepest(s.regions, c.id) + 1]
    else if Cost(c) > 0 then AllStirred(|a|)
    else a
  }

  function AllStirred(n: nat): (r: Stirs)
    ensures |r| == n && forall l: nat | l < n :: r[l]
  {
    seq(n, _ => true)
  }

  /** An instrumented region has a critical path exactly when it was stirred. */
  ghost predicate Live(s: State, a: Stirs) {
    && |a| == |s.regions|
    && forall l: nat | l < |a| && l <= s.max :: a[l] <==> s.regions[l].cp > 0
  }

  // ------------------------------------------------------------ the stamps

  /** A stamp is no earlier than any of its sources, nor than its cost. */
  lemma {:induction false} LatestAtLeast(sources: seq<Source>, l: nat, len: nat, f: Frontier, cost: nat, i: nat)
    requires AllAffordable(sources, len, f, cost) && l < len <= |f.regions| && i < |sources|
    requires f.regions[l].start <= f.limit && f.limit + cost < WORD
    ensures Latest(sources, l) >= sources[i].times[l] + sources[i].offset
    decreases |sources|
  {
    var n := |sources| - 1;
    assert sources[n] in sources && forall s | s in sources[..n] :: s in sources;
    assert Affordable(sources[n], len, f, cost);
    if i < n {
      LatestAtLeast(sources[..n], l, len, f, cost, i);
    }
  }

  /** Every level of a stamp that costs something is positive. */
  lemma StampPositive(s: State, g: Ledger, sources: seq<Source>, bump: Time, cost: nat, i: nat)
    requires Inv(s, g) && AllAffordable(sources, Levels(s), Edge(s, g), cost) && cost + bump <= g.credit
    requires bump > 0 || (i < |sources| && sources[i].offset > 0)
    ensures forall x | x in sources :: Levels(s) <= |x.times|
    ensures forall l: nat | l < Levels(s) :: Stamp(sources, bump, Levels(s))[l] > 0
  {
    hide VectorsOk, Stacked;
    AllStarted(s.regions, s.max, s.time, g.credit, g.paced, g.sorted);
    forall l: nat | l < Levels(s) ensures Stamp(sources, bump, Levels(s))[l] > 0 {
      LatestBounds(sources, l, Levels(s), Edge(s, g), cost);
      if bump == 0 {
        LatestAtLeast(sources, l, Levels(s), Edge(s, g), cost, i);
        assert sources[i] in sources && Levels(s) <= |sources[i].times|;
        var t: Time := sources[i].times[l];
        assert Latest(sources, l) >= t + sources[i].offset > 0;
      }
      assert Latest(sources, l) + bump < WORD;
      assert Stamp(sources, bump, Levels(s))[l] == Latest(sources, l) + bump;
    }
  }

  lemma ExtendedLive(s: State, s': State, a: Stirs, d: seq<Time>)
    requires Live(s, a) && |d| == Levels(s) && forall l: nat | l < |d| :: d[l] > 0
    requires s'.regions == Extended(s.regions, d) && s'.max == s.max
    ensures Live(s', AllStirred(|a|))
  {
  }

  lemma {:induction false} SomeOffset(srcs: seq<Operand>) returns (i: nat)
    requires MaxOffset(srcs) > 0
    ensures i < |srcs| && srcs[i].offset > 0
    decreases |srcs|
  {
    var n := |srcs| - 1;
    if srcs[n].offset > 0 {
      i := n;
    } else {
      i := SomeOffset(srcs[..n]);
    }
  }

  /** The place of an operand among the sources of an update. */
  lemma OperandSource(u: Update, s: State, i: nat) returns (k: nat)
    requires Shape(s) && CanUpdate(u, s) && u.addr.None? && i < |u.srcs|
    ensures k < |Sources(u, s)| && Sources(u, s)[k] == Source(Top(s).rows[u.srcs[i].reg], u.srcs[i].offset)
  {
    hide Stacked;
    k := i + if u.ctrl then 1 else 0;
  }

  lemma UpdateLive(u: Update, s: State, g: Ledger, a: Stirs, cost: nat)
    requires Inv(s, g) && Live(s, a) && CanUpdate(u, s) && (u.addr.None? ==> MaxOffset(u.srcs) == cost)
    requires u.addr.Some? ==> cost == 0
    requires cost + Bump(u) <= g.credit && (u.path || cost + Bump(u) == 0)
    ensures Live(Applied(u, s), if cost + Bump(u) > 0 then AllStirred(|a|) else a)
  {
    hide RegionsOk, VectorsOk, Stacked, AllAffordable, Stamp;
    SourcesAffordable(u, s, g, cost);
    var d := Stamp(Sources(u, s), Bump(u), Levels(s));
    StampPaid(s, g, Sources(u, s), Bump(u), cost);
    if cost + Bump(u) == 0 {
      FreeStamp(s, g, d);
    } else {
      var k: nat := 0;
      if Bump(u) == 0 {
        var i := SomeOffset(u.srcs);
        k := OperandSource(u, s, i);
      }
      StampPositive(s, g, Sources(u, s), Bump(u), cost, k);
      ExtendedLive(s, Applied(u, s), a, d);
    }
  }

  /** The second step of a stamp of six or seven operands takes in the first. */
  lemma TwoStepsLive(dest: nat, srcs: seq<Operand>, s: State, g: Ledger, a: Stirs)
    requires Inv(s, g) && Live(s, a) && Legal(Timestamp(dest, srcs), s) && |srcs| > 5
    requires StampCost(dest, srcs) <= g.credit
    ensures Live(After(Timestamp(dest, srcs), s), if StampCost(dest, srcs) > 0 then AllStirred(|a|) else a)
  {
    hide RegionsOk, VectorsOk, Stacked, AllAffordable, Stamp, StampCost;
    var us := Updates(Timestamp(dest, srcs));
    var cost := StampCost(dest, srcs);
    UpdatesLegal(Timestamp(dest, srcs), s);
    assert CanUpdate(us[0], s) && CanUpdate(us[1], s);
    var s1 := Applied(us[0], s);
    AllUpdate(us, s, s1);
    assert us[1..] == [us[1]];
    SecondAffordable(dest, srcs, s, g);
    var d := Stamp(Sources(us[1], s1), 0, Levels(s));
    StampPaid(s, g, Sources(us[1], s1), 0, cost);
    assert Stamped(us, s) == Stamped(us[1..], s1) == Applied(us[1], s1);
    if cost == 0 {
      FreeStamp(s, g, d);
    } else {
      SecondPositive(dest, srcs, s, g);
      ExtendedLive(s, Applied(us[1], s1), a, d);
    }
  }

  lemma SecondPositive(dest: nat, srcs: seq<Operand>, s: State, g: Ledger)
    requires Inv(s, g) && Legal(Timestamp(dest, srcs), s) && |srcs| > 5
    requires 0 < StampCost(dest, srcs) <= g.credit
    ensures var us := Updates(Timestamp(dest, srcs));
            && CanUpdate(us[0], s) && CanUpdate(us[1], Applied(us[0], s))
            && forall l: nat | l < Levels(s) :: Stamp(Sources(us[1], Applied(us[0], s)), 0, Levels(s))[l] > 0
  {
    hide RegionsOk, VectorsOk, Stacked, AllAffordable, Stamp;
    var us := Updates(Timestamp(dest, srcs));
    var cost := StampCost(dest, srcs);
    SecondAffordable(dest, srcs, s, g);
    var s1 := Applied(us[0], s);
    var sources := Sources(us[1], s1);
    if MaxOffset(srcs[5..]) > 0 {
      var i := SomeOffset(srcs[5..]);
      var k := OperandSource(us[1], s1, i + 1);
      StampPositive(s, g, sources, 0, cost, k);
    } else {
      var i := SomeOffset(srcs[..5]);
      var j := OperandSource(us[0], s, i);
      SourcesAffordable(us[0], s, g, MaxOffset(srcs[..5]));
      StampPositive(s, g, Sources(us[0], s), 0, MaxOffset(srcs[..5]), j);
      var k := OperandSource(us[1], s1, 0);
      var d1 := Stamp(Sources(us[0], s), 0, Levels(s));
      assert Top(s1).rows[dest][..|d1|] == d1;
      SecondAtLeast(s, g, sources, cost, k, d1);
    }
  }

  lemma SecondAtLeast(s: State, g: Ledger, sources: seq<Source>, cost: nat, k: nat, d1: seq<Time>)
    requires Inv(s, g) && AllAffordable(sources, Levels(s), Edge(s, g), cost) && cost <= g.credit
    requires k < |sources| && |d1| == Levels(s) <= |sources[k].times| && sources[k].times[..|d1|] == d1
    requires forall l: nat | l < |d1| :: d1[l] > 0
    ensures forall x | x in sources :: Levels(s) <= |x.times|
    ensures forall l: nat | l < Levels(s) :: Stamp(sources, 0, Levels(s))[l] > 0
  {
    hide VectorsOk, Stacked;
    AllStarted(s.regions, s.max, s.time, g.credit, g.paced, g.sorted);
    forall l: nat | l < Levels(s) ensures Stamp(sources, 0, Levels(s))[l] > 0 {
      LatestAtLeast(sources, l, Levels(s), Edge(s, g), cost, k);
      LatestBounds(sources, l, Levels(s), Edge(s, g), cost);
      assert sources[k].times[l] == sources[k].times[..|d1|][l];
    }
  }

  lemma StoreLive(src: Option<nat>, addr: nat, s: State, g: Ledger, a: Stirs)
    requires Inv(s, g) && Live(s, a) && Running(s) && (src.Some? ==> Register(s, src.value)) && STORE_COST <= g.credit
    ensures Live(StoredTo(src, addr, s), AllStirred(|a|))
  {
    hide RegionsOk, Stacked, Stamp, VectorsOk, AllAffordable;
    var d := Stamp(StoreSources(src, s), STORE_COST, Levels(s));
    StoreSourcesAffordable(src, s, g);
    StampPositive(s, g, StoreSources(src, s), STORE_COST, 0, 0);
    ExtendedLive(s, StoredTo(src, addr, s), a, d);
  }

  // ------------------------------------------------------------- the calls

  lemma LinkLive(c: Call, s: State, a: Stirs)
    requires Shape(s) && Live(s, a) && Legal(c, s) && Links(c)
    ensures Live(AfterLink(c, s), a)
  {
    hide Stacked;
  }

  lemma {:induction false} UnwoundLive(s: State, a: Stirs, target: nat)
    requires Shape(s) && Running(s) && Live(s, a) && target < |s.regions|
    ensures Live(Unwound(s, target), a[..target + 1])
    decreases |s.regions|
  {
    hide Stacked, Shut;
    if |s.regions| == target + 1 {
      assert a[..target + 1] == a;
    } else {
      UnwoundLive(Closed(s), a[..|a| - 1], target);
      assert a[..|a| - 1][..target + 1] == a[..target + 1];
    }
  }

  lemma StampsLive(c: Call, s: State, g: Ledger, a: Stirs)
    requires Inv(s, g) && Live(s, a) && Legal(c, s) && Cost(c) <= g.credit && Updates(c) != []
    ensures Live(After(c, s), Stirred(c, s, a))
  {
    hide RegionsOk, VectorsOk, Stacked, MaxOffset, StampCost, Applied, Legal, Live;
    if c.Timestamp? && |c.srcs| > 5 {
      TwoStepsLive(c.dest, c.srcs, s, g, a);
    } else {
      OneStepLive(c, s, g, a);
    }
  }

  lemma OneStepLive(c: Call, s: State, g: Ledger, a: Stirs)
    requires Inv(s, g) && Live(s, a) && Legal(c, s) && Cost(c) <= g.credit && Updates(c) != []
    requires c.Timestamp? ==> |c.srcs| <= 5
    ensures Live(After(c, s), if Cost(c) > 0 then AllStirred(|a|) else a)
  {
    hide RegionsOk, VectorsOk, Stacked, MaxOffset, StampCost, Applied, Legal, Live;
    UpdatesLegal(c, s);
    var u := Updates(c)[0];
    assert CanUpdate(Updates(c)[0], s);
    OneStepCost(c);
    UpdateLive(u, s, g, a, Cost(c) - Bump(u));
    assert Stamped(Updates(c), s) == Stamped(Updates(c)[1..], Applied(u, s)) == Applied(u, s);
  }

  /** What the one update of a call costs. */
  lemma OneStepCost(c: Call)
    requires Updates(c) != [] && (c.Timestamp? ==> |c.srcs| <= 5)
    ensures |Updates(c)| == 1 && var u := Updates(c)[0];
            && Cost(c) >= Bump(u) && (u.path || Cost(c) == 0)
            && (u.addr.None? ==> MaxOffset(u.srcs) == Cost(c) - Bump(u))
            && (u.addr.Some? ==> Cost(c) == Bump(u))
  {
    FreeOffsets(Updates(c)[0].srcs);
  }

  /** Every call keeps the account. */
  lemma CallLive(c: Call, s: State, g: Ledger, a: Stirs)
    requires Inv(s, g) && Live(s, a) && Legal(c, s) && Paid(c, s, g)
    ensures Live(After(c, s), Stirred(c, s, a))
  {
    hide RegionsOk, VectorsOk, Stacked, MaxOffset, StampCost;
    if Links(c) {
      AfterLinks(c, s);
      LinkLive(c, s, a);
    } else if Updates(c) != [] {
      StampsLive(c, s, g, a);
    } else {
      match c
      case Work(_) =>
      case Enter(_, _) =>
      case Exit(_, _) =>
      case LandingPad(id) => UnwoundLive(s, a, Deepest(s.regions, id));
      case Store(src, addr) => StoreLive(Some(src), addr, s, g, a);
      case StoreConst(addr) => StoreLive(None, addr, s, g, a);
    }
  }

  // --------------------------------------------------------------- the runs

  /** What the runtime asserts of a finished instrumented region. */
  predicate PathFound(t: Stat, max: nat) {
    t.level <= max && t.work > 0 ==> t.cp > 0
  }

  /** Instrumented regions from level `from` up have been stirred, unless no
      time has passed since they were entered. */
  predicate Earned(s: State, a: Stirs, from: nat)
    requires |a| == |s.regions|
  {
    forall l: nat | from <= l < |a| && l <= s.max :: a[l] || s.time == s.regions[l].start
  }

  /** A call leaves such regions only. */
  predicate LeavesEarned(c: Call, s: State, a: Stirs)
    requires Legal(c, s) && |a| == |s.regions|
  {
    match c
    case Exit(_, _) => Earned(s, a, |a| - 1)
    case LandingPad(id) => Earned(s, a, Deepest(s.regions, id) + 1)
    case _ => true
  }

  lemma ExitFound(s: State, g: Ledger, a: Stirs)
    requires Inv(s, g) && Running(s) && Live(s, a)
    ensures var n := |a| - 1;
            PathFound(Exited(s), s.max) <==> (n <= s.max ==> a[n] || s.time == s.regions[n].start)
  {
    hide RegionsOk, VectorsOk, Stacked;
    WorkExact(s, g);
  }

  lemma {:induction false} UnwoundFound(s: State, g: Ledger, a: Stirs, target: nat)
    requires Inv(s, g) && Running(s) && Live(s, a) && target < |s.regions|
    ensures (forall t | t in UnwoundStats(s, target) :: PathFound(t, s.max)) <==> Earned(s, a, target + 1)
    decreases |s.regions|
  {
    hide RegionsOk, VectorsOk, Stacked, PathFound, Exited, Earned;
    if |s.regions| > target + 1 {
      ExitFound(s, g, a);
      CloseKeeps(s, g);
      CloseLive(s, a);
      var s', a' := Closed(s), a[..|a| - 1];
      UnwoundFound(s', Settled(g), a', target);
      EarnedMore(s, a, target);
      var rest := UnwoundStats(s', target);
      assert UnwoundStats(s, target) == [Exited(s)] + rest;
      AllAfter(Exited(s), rest, s.max);
    } else {
      NoneEarned(s, a, target);
    }
  }

  lemma AllAfter(t: Stat, rest: seq<Stat>, max: nat)
    ensures (forall x | x in [t] + rest :: PathFound(x, max)) <==> PathFound(t, max) && forall x | x in rest ::
            PathFound(x, max)
  {
    assert t in [t] + rest && forall x | x in rest :: x in [t] + rest;
  }

  lemma CloseLive(s: State, a: Stirs)
    requires Shape(s) && Running(s) && Live(s, a)
    ensures |a| == |s.regions| && Live(Closed(s), a[..|a| - 1])
  {
    hide Stacked;
  }

  /** The innermost region and the rest. */
  lemma EarnedMore(s: State, a: Stirs, target: nat)
    requires Shape(s) && Running(s) && |a| == |s.regions| && target + 1 < |a|
    ensures var n := |a| - 1;
            && |Closed(s).regions| == n
            && (Earned(s, a, target + 1)
                <==> Earned(Closed(s), a[..n], target + 1) && (n <= s.max ==> a[n] || s.time == s.regions[n].start))
  {
    hide Stacked;
    var n := |a| - 1;
    assert forall l: nat | l < n :: Closed(s).regions[l].start == s.regions[l].start && a[..n][l] == a[l];
  }

  lemma NoneEarned(s: State, a: Stirs, target: nat)
    requires Live(s, a) && |a| == target + 1
    ensures Earned(s, a, target + 1)
  {
  }

  lemma EmittedFound(c: Call, s: State, g: Ledger, a: Stirs)
    requires Inv(s, g) && Legal(c, s) && Live(s, a)
    ensures (forall t | t in Emitted(c, s) :: PathFound(t, s.max)) <==> LeavesEarned(c, s, a)
  {
    hide RegionsOk, VectorsOk, Stacked, PathFound, Exited;
    if c.Exit? {
      ExitFound(s, g, a);
      assert Exited(s) in Emitted(c, s);
    } else if c.LandingPad? {
      UnwoundFound(s, g, a, Deepest(s.regions, c.id));
    }
  }

  /** A run that leaves an instrumented region in which time has passed only
      after a call of positive cost. */
  ghost predicate RunEarns(calls: seq<Call>, s: State, g: Ledger, a: Stirs)
    requires Inv(s, g) && Live(s, a) && CanRun(calls, s, g)
  {
    calls == []
    || (CallKeeps(calls[0], s, g); CallLive(calls[0], s, g, a);
        && LeavesEarned(calls[0], s, a)
        && RunEarns(calls[1..], After(calls[0], s), Charged(calls[0], s, g), Stirred(calls[0], s, a)))
  }

  /** Every finished region's record passes the check if and only if the run
      earns it. */
  lemma {:induction false} PathsFound(calls: seq<Call>, s: State, g: Ledger, a: Stirs)
    requires Inv(s, g) && Live(s, a) && CanRun(calls, s, g)
    ensures (forall t | t in RunStats(calls, s, g) :: PathFound(t, s.max)) <==> RunEarns(calls, s, g, a)
    decreases |calls|
  {
    hide RegionsOk, VectorsOk, Stacked, PathFound, Emitted, LeavesEarned, After, Charged, Stirred, Legal;
    if calls != [] {
      var c := calls[0];
      CallKeeps(c, s, g);
      CallLive(c, s, g, a);
      EmittedFound(c, s, g, a);
      PathsFound(calls[1..], After(c, s), Charged(c, s, g), Stirred(c, s, a));
      assert RunStats(calls, s, g) == Emitted(c, s) + RunStats(calls[1..], After(c, s), Charged(c, s, g));
    }
  }

  // --------------------------------------------------- a run that fails

  /** Wherever a program stands in an instrumented region that it has not
      stirred, letting time pass and leaving fails the check. */
  lemma IdleFails(s: State, g: Ledger, a: Stirs, amount: nat)
    requires Inv(s, g) && Live(s, a) && Running(s) && s.time + amount < WORD
    requires var n := |s.regions| - 1; n <= s.max && !a[n] && s.time + amount > s.regions[n].start
    ensures var r := s.regions[|s.regions| - 1];
            var calls := [Work(amount), Exit(r.id, r.kind)];
            CanRun(calls, s, g) && !RunEarns(calls, s, g, a)
  {
    hide RegionsOk, VectorsOk, Stacked, After, Charged, Stirred, Live, LeavesEarned;
    var r := s.regions[|s.regions| - 1];
    var w, e := Work(amount), Exit(r.id, r.kind);
    var s1, g1 := s.(time := s.time + amount), g.(credit := g.credit + amount);
    WorkIs(amount, s, g, a);
    CallKeeps(w, s, g);
    CallLive(w, s, g, a);
    OneExit(s1, g1);
    ExitUnearned(s1, g1, a);
    assert [w, e][1..] == [e];
  }

  lemma WorkIs(amount: nat, s: State, g: Ledger, a: Stirs)
    requires Inv(s, g) && Live(s, a) && s.time + amount < WORD
    ensures After(Work(amount), s) == s.(time := s.time + amount)
    ensures |a| == |s.regions|
    ensures Charged(Work(amount), s, g) == g.(credit := g.credit + amount)
    ensures Stirred(Work(amount), s, a) == a
  {
    hide RegionsOk, VectorsOk, Stacked;
  }

  lemma ExitUnearned(s: State, g: Ledger, a: Stirs)
    requires Inv(s, g) && Live(s, a) && Running(s)
    requires var n := |s.regions| - 1; n <= s.max && !a[n] && s.time > s.regions[n].start
    ensures var r := s.regions[|s.regions| - 1];
            var calls := [Exit(r.id, r.kind)];
            CanRun(calls, s, g) && !RunEarns(calls, s, g, a)
  {
    hide RegionsOk, VectorsOk, Stacked, After, Charged;
    var r := s.regions[|s.regions| - 1];
    var e := Exit(r.id, r.kind);
    OneExit(s, g);
    CallKeeps(e, s, g);
    assert [e][1..] == [];
    assert !LeavesEarned(e, s, a);
  }

  /** The least of them: a function that does nothing but work. */
  lemma IdleRunFails()
    ensures var s, g := Initial(1), Ledger(0, [], true, true);
            var calls := [Enter(0, Func), PrepRTable(0, 0), Work(1), Exit(0, Func)];
            Inv(s, g) && CanRun(calls, s, g) && Live(s, []) && !RunEarns(calls, s, g, [])
  {
    hide RegionsOk, VectorsOk, Stacked, NoDependences;
    var s, g := Initial(1), Ledger(0, [], true, true);
    var calls := [Enter(0, Func), PrepRTable(0, 0), Work(1), Exit(0, Func)];
    InitiallyOk(1);
    CallKeeps(calls[0], s, g);
    CallLive(calls[0], s, g, []);
    var s1, g1, a1 := After(calls[0], s), Charged(calls[0], s, g), Stirred(calls[0], s, []);
    CallKeeps(calls[1], s1, g1);
    CallLive(calls[1], s1, g1, a1);
    var s2, g2, a2 := After(calls[1], s1), Charged(calls[1], s1, g1), Stirred(calls[1], s1, a1);
    IdleFails(s2, g2, a2, 1);
    assert calls[1..][1..] == [Work(1), Exit(0, Func)];
  }
}
