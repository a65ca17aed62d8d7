/** Entering and leaving regions keeps the bounds. */
module ProfileRegions {
  import opened Delta
  import ShadowSpec
  import opened Critical
  import opened Profile
  import opened ProfileBounds

  // ------------------------------------------------------------- entering

  /** A level that starts at zero. */
  lemma VecGrow(t: seq<Time>, n: nat, was: Frontier, now: Frontier)
    requires VecOk(t, n, was) && n == |was.regions| && Looser(was, now, n)
    requires n < |t| && t[n] == 0 && n < |now.regions|
    requires now.regions[n].start <= now.limit
             && (now.paced && 0 < n ==> was.regions[n - 1].cp <= Slack(now.regions, n))
    ensures VecOk(t, n + 1, now)
  {
  }

  /** A vector of the current levels, its new level zeroed if instrumented. */
  lemma VecEnter(t: seq<Time>, u: seq<Time>, n: nat, max: nat, was: Frontier, now: Frontier)
    requires n == |was.regions| && VecOk(t, Min(n, max + 1), was) && Looser(was, now, n)
    requires |u| == |t| && (n <= max ==> n < |t| && u == t[n := 0]) && (n > max ==> u == t)
    requires n < |now.regions|
    requires now.regions[n].start <= now.limit
             && (now.paced && 0 < n <= max ==> was.regions[n - 1].cp <= Slack(now.regions, n))
    ensures VecOk(u, Min(n + 1, max + 1), now)
  {
    if n <= max {
      VecFront(t, u, n, was);
      VecGrow(u, n, was, now);
    } else {
      VecLooser(t, max + 1, was, now, max + 1);
    }
  }

  /** The bounds before and after a region is entered. */
  ghost predicate Opening(s: State, bases: seq<nat>, was: Frontier, now: Frontier) {
    var n := |s.regions|;
    && n == |was.regions| == |bases| && Looser(was, now, n)
    && n < |now.regions| && now.regions[n].cp == 0
    && now.regions[n].start <= now.limit
       && (now.paced && 0 < n <= s.max ==> was.regions[n - 1].cp <= Slack(now.regions, n))
  }

  lemma TopEnters(id: nat, kind: Kind, s: State, bases: seq<nat>, was: Frontier, now: Frontier)
    requires Shape(s) && CanEnter(kind, s) && Opening(s, bases, was, now) && TopOk(s, was)
    ensures TopOk(Entered(id, kind, s), now)
  {
    hide Stacked, VecOk, Looser;
    var s' := Entered(id, kind, s);
    var n := |s.regions|;
    if kind.Func? {
      assert Top(s').rows == [];
    } else {
      assert Top(s') == if n <= s.max then ZeroedAt(Top(s), n) else Top(s);
      forall i: nat | i < |Top(s').rows| ensures VecOk(Top(s').rows[i], Levels(s'), now) {
        VecEnter(Top(s).rows[i], Top(s').rows[i], n, s.max, was, now);
      }
    }
  }

  /** A register of the function that is about to call another. */
  lemma BecomesCaller(t: seq<Time>, s: State, bases: seq<nat>, was: Frontier, now: Frontier)
    requires Opening(s, bases, was, now) && VecOk(t, Levels(s), was)
    ensures CallerOk(t, |s.regions|, s.max, now)
  {
    VecLooser(t, Levels(s), was, now, Levels(s));
  }

  lemma CallersEnter(id: nat, kind: Kind, s: State, bases: seq<nat>, was: Frontier, now: Frontier)
    requires Shape(s) && CanEnter(kind, s) && Opening(s, bases, was, now) && TopOk(s, was) && CallersOk(s, was)
    ensures CallersOk(Entered(id, kind, s), now)
  {
    hide Stacked, VecOk;
    var s' := Entered(id, kind, s);
    var n := |s.regions|;
    forall i: nat | i + 1 < |s'.frames| ensures RowsOk(s'.frames[i], FrameLevels(s'.frames)[i + 1], s.max, now) {
      assert s'.frames[i] == s.frames[i];
      if i + 1 < |s.frames| {
        FrameBelow(s, i + 1);
        assert RowsOk(s.frames[i], FrameLevels(s.frames)[i + 1], s.max, was);
        forall k: nat | k < |s.frames[i].rows|
          ensures CallerOk(s.frames[i].rows[k], s.frames[i + 1].level, s.max, now)
        {
          CallerLooser(s.frames[i].rows[k], s.frames[i + 1].level, s.max, was, now);
        }
      } else {
        assert s.frames[i] == Top(s);
        forall k: nat | k < |s.frames[i].rows| ensures CallerOk(s.frames[i].rows[k], n, s.max, now) {
          BecomesCaller(s.frames[i].rows[k], s, bases, was, now);
        }
      }
    }
  }

  lemma CdtEnters(id: nat, kind: Kind, s: State, bases: seq<nat>, was: Frontier, now: Frontier)
    requires Shape(s) && CanEnter(kind, s) && Opening(s, bases, was, now) && CdtOk(s, bases, was)
    ensures CdtOk(Entered(id, kind, s), bases + [s.readPtr], now)
  {
    hide Stacked, VecOk, Looser;
    var s' := Entered(id, kind, s);
    var bases' := bases + [s.readPtr];
    var n := |s.regions|;
    forall l: nat, r: nat | l < |bases'| && bases'[l] <= r <= s.readPtr
      ensures VecOk(s'.cdt[r], Min(l + 1, s.max + 1), now)
    {
      if l < n {
        OldRowEnters(s, s'.cdt[r], bases, was, now, l, r);
      } else {
        NewRowEnters(s, s'.cdt[r], bases, was, now);
      }
    }
  }

  lemma OldRowEnters(s: State, u: seq<Time>, bases: seq<nat>, was: Frontier, now: Frontier, l: nat, r: nat)
    requires s.readPtr < CDT_ROWS && s.max < MAX_LEVEL && Opening(s, bases, was, now) && CdtOk(s, bases, was)
    requires l < |bases| && bases[l] <= r <= s.readPtr
    requires u == s.cdt[r] || (|s.regions| <= s.max && u == s.cdt[r][|s.regions| := 0])
    ensures VecOk(u, Min(l + 1, s.max + 1), now)
  {
    var len := Min(l + 1, s.max + 1);
    assert VecOk(s.cdt[r], len, was);
    VecLooser(s.cdt[r], len, was, now, len);
    VecFront(s.cdt[r], u, len, now);
  }

  lemma NewRowEnters(s: State, u: seq<Time>, bases: seq<nat>, was: Frontier, now: Frontier)
    requires s.readPtr < CDT_ROWS && s.max < MAX_LEVEL && Opening(s, bases, was, now) && CdtOk(s, bases, was)
    requires u == if |s.regions| <= s.max then s.cdt[s.readPtr][|s.regions| := 0] else s.cdt[s.readPtr]
    ensures VecOk(u, Min(|s.regions| + 1, s.max + 1), now)
  {
    var n := |s.regions|;
    if n > 0 {
      assert bases[n - 1] <= s.readPtr;
    }
    VecEnter(s.cdt[s.readPtr], u, n, s.max, was, now);
  }

  /** A cell as it is read one level deeper. */
  lemma ReadEnters(mem: map<nat, ShadowSpec.Vector>, c: nat, n: nat, max: nat)
    requires max < MAX_LEVEL
    ensures var len := Min(n + 1, max + 1);
            var t, u := ShadowSpec.Read(mem, c, len), ShadowSpec.Read(ShadowSpec.Zeroed(mem, n), c, len);
            && t[..Min(n, max + 1)] == ShadowSpec.Read(mem, c, Min(n, max + 1))
            && u == if n <= max then t[n := 0] else t
  {
  }

  lemma MemEnters(mem: map<nat, ShadowSpec.Vector>, s: State, bases: seq<nat>, was: Frontier, now: Frontier)
    requires s.max < MAX_LEVEL && Opening(s, bases, was, now) && MemOk(mem, Levels(s), was)
    ensures MemOk(ShadowSpec.Zeroed(mem, |s.regions|), Min(|s.regions| + 1, s.max + 1), now)
  {
    hide VecOk, Looser, ShadowSpec.Read;
    var n := |s.regions|;
    var mem' := ShadowSpec.Zeroed(mem, n);
    var len := Min(n + 1, s.max + 1);
    forall c: nat ensures VecOk(ShadowSpec.Read(mem', c, len), len, now) {
      var t := ShadowSpec.Read(mem, c, len);
      ReadEnters(mem, c, n, s.max);
      VecFront(ShadowSpec.Read(mem, c, Levels(s)), t, Levels(s), was);
      VecEnter(t, ShadowSpec.Read(mem', c, len), n, s.max, was, now);
    }
  }

  lemma EnterKeeps(id: nat, kind: Kind, s: State, g: Ledger)
    requires Inv(s, g) && CanEnter(kind, s)
    ensures Inv(Entered(id, kind, s), Charged(Enter(id, kind), s, g))
  {
    hide RegionsOk, TopOk, CallersOk, CdtOk, MemOk, Stacked;
    var g' := Charged(Enter(id, kind), s, g);
    var s' := Entered(id, kind, s);
    OpenRegions(s.regions, s.max, s.time, g.credit, g.paced, g.sorted, id, kind);
    var was, now := Edge(s, g), Edge(s', g');
    TopEnters(id, kind, s, g.bases, was, now);
    CallersEnter(id, kind, s, g.bases, was, now);
    CdtEnters(id, kind, s, g.bases, was, now);
    MemEnters(s.mem, s, g.bases, was, now);
  }

  // -------------------------------------------------------------- leaving

  /** The caller's table is current again. */
  lemma CallerCloses(s: State, was: Frontier, now: Frontier)
    requires Shape(s) && InFunction(s) && |s.frames| >= 2 && Looser(was, now, |s.regions| - 1)
    requires CallersOk(s, was)
    ensures forall i: nat | i < |Caller(s).rows| :: VecOk(Caller(s).rows[i], Min(|s.regions| - 1, s.max + 1), now)
  {
    TopLevel(s);
    hide Stacked, Looser;
    var n := |s.regions| - 1;
    var k: nat := |s.frames| - 2;
    assert FrameLevels(s.frames)[k + 1] == n;
    assert RowsOk(s.frames[k], FrameLevels(s.frames)[k + 1], s.max, was);
    forall i: nat | i < |Caller(s).rows| ensures VecOk(Caller(s).rows[i], Min(n, s.max + 1), now) {
      assert CallerOk(s.frames[k].rows[i], n, s.max, was);
      CallerPrefix(s.frames[k].rows[i], n, s.max, was, now);
    }
  }

  lemma CallerPrefix(t: seq<Time>, level: nat, max: nat, was: Frontier, now: Frontier)
    requires CallerOk(t, level, max, was) && Looser(was, now, level)
    ensures VecOk(t, Min(level, max + 1), now)
  {
  }

  lemma TopCloses(s: State, was: Frontier, now: Frontier)
    requires Shape(s) && Running(s) && |was.regions| == |s.regions| && Looser(was, now, |s.regions| - 1)
    requires TopOk(s, was) && CallersOk(s, was)
    ensures TopOk(Closed(s), now)
  {
    hide Stacked, CallersOk;
    var s' := Closed(s);
    var len := Min(|s.regions| - 1, s.max + 1);
    if InFunction(s) {
      if |s.frames| >= 2 {
        CallerCloses(s, was, now);
        assert Top(s') == Caller(s);
      }
    } else {
      assert Top(s') == Top(s);
      forall i: nat | i < |Top(s').rows| ensures VecOk(Top(s').rows[i], len, now) {
        VecLooser(Top(s).rows[i], Levels(s), was, now, len);
      }
    }
  }

  lemma CallersClose(s: State, was: Frontier, now: Frontier)
    requires Shape(s) && Running(s) && |was.regions| == |s.regions| && Looser(was, now, |s.regions| - 1)
    requires CallersOk(s, was)
    ensures CallersOk(Closed(s), now)
  {
    hide Stacked;
    var s' := Closed(s);
    forall i: nat | i + 1 < |s'.frames| ensures RowsOk(s'.frames[i], FrameLevels(s'.frames)[i + 1], s.max, now) {
      FrameBelow(s', i + 1);
      assert RowsOk(s.frames[i], FrameLevels(s.frames)[i + 1], s.max, was);
      forall k: nat | k < |s.frames[i].rows| ensures CallerOk(s.frames[i].rows[k], s.frames[i + 1].level, s.max, now) {
        CallerLooser(s.frames[i].rows[k], s.frames[i + 1].level, s.max, was, now);
      }
    }
  }

  lemma CdtCloses(s: State, s': State, bases: seq<nat>, was: Frontier, now: Frontier)
    requires s.readPtr < CDT_ROWS && bases != [] && |was.regions| == |bases| && Looser(was, now, |bases| - 1)
    requires s'.readPtr == s.readPtr && s'.cdt == s.cdt && s'.max == s.max
    requires CdtOk(s, bases, was)
    ensures CdtOk(s', bases[..|bases| - 1], now)
  {
    var bases' := bases[..|bases| - 1];
    forall l: nat, r: nat | l < |bases'| && bases'[l] <= r <= s.readPtr
      ensures VecOk(s.cdt[r], Min(l + 1, s.max + 1), now)
    {
      assert VecOk(s.cdt[r], Min(l + 1, s.max + 1), was);
      VecLooser(s.cdt[r], Min(l + 1, s.max + 1), was, now, Min(l + 1, s.max + 1));
    }
  }

  lemma MemCloses(mem: map<nat, ShadowSpec.Vector>, n: nat, n': nat, was: Frontier, now: Frontier)
    requires n' <= n <= MAX_LEVEL && MemOk(mem, n, was) && Looser(was, now, n')
    ensures MemOk(mem, n', now)
  {
    forall c: nat ensures VecOk(ShadowSpec.Read(mem, c, n'), n', now) {
      VecLooser(ShadowSpec.Read(mem, c, n), n, was, now, n');
      VecFront(ShadowSpec.Read(mem, c, n), ShadowSpec.Read(mem, c, n'), n', now);
    }
  }

  /** The accounts after the innermost region is left. */
  function Settled(g: Ledger): Ledger
    requires g.bases != []
  {
    g.(credit := 0, bases := g.bases[..|g.bases| - 1])
  }

  /** Time since a region's start needs no wrap. */
  lemma WorkExact(s: State, g: Ledger)
    requires Inv(s, g) && s.regions != []
    ensures var r := s.regions[|s.regions| - 1];
            r.start + r.childrenWork <= s.time && Wrapped(s.time - r.start) == s.time - r.start
  {
  }

  lemma CloseKeeps(s: State, g: Ledger)
    requires Inv(s, g) && Running(s)
    ensures Inv(Closed(s), Settled(g))
  {
    hide RegionsOk, TopOk, CallersOk, CdtOk, MemOk, Stacked;
    var s' := Closed(s);
    var g' := Settled(g);
    WorkExact(s, g);
    ShutRegions(s.regions, s.max, s.time, g.credit, g.paced, g.sorted);
    var was, now := Edge(s, g), Edge(s', g');
    TopCloses(s, was, now);
    CallersClose(s, was, now);
    CdtCloses(s, s', g.bases, was, now);
    MemCloses(s.mem, Levels(s), Levels(s'), was, now);
  }

  /** Unwinding settles every region above the target. */
  function SettledTo(g: Ledger, target: nat): Ledger
    requires target < |g.bases|
  {
    if target + 1 == |g.bases| then g else g.(credit := 0, bases := g.bases[..target + 1])
  }

  lemma {:induction false} UnwindKeeps(s: State, g: Ledger, target: nat)
    requires Inv(s, g) && Running(s) && target < |s.regions|
    ensures Inv(Unwound(s, target), SettledTo(g, target))
    decreases |s.regions|
  {
    hide RegionsOk, VectorsOk, Stacked;
    if |s.regions| > target + 1 {
      CloseKeeps(s, g);
      UnwindKeeps(Closed(s), Settled(g), target);
      assert Settled(g).bases[..target + 1] == g.bases[..target + 1];
    }
  }

  // -------------------------------------------------------------- records

  /** What the profiler asserts of a finished region only when debugging: no
      critical path beyond the work, which is divided as it should be; above the deepest instrumented level,
      self-parallelism of at least one, so that the clamp never acts; and no
      wrap-around in the figure behind the doall flag. */
  ghost predicate StatOk(t: Stat, max: nat, paced: bool, sorted: bool) {
    && t.cp <= t.work && t.childrenCP <= t.childrenWork <= t.work && Divided(t)
    && (paced && t.level < max ==> Parallel(t) && t.spWork == t.rawWork <= t.work)
    && (sorted ==> ChildrenWithin(t) && (t.isDoall <==> t.kind.Loop? && t.cp - t.childMaxCP < DOALL_THRESHOLD))
  }

  /** Self-parallelism of at least one. */
  predicate Parallel(t: Stat) {
    t.cp + t.childrenWork <= t.work + t.childrenCP
  }

  /** The work divided by self-parallelism, rounded down: self-parallelism is the
      self path over the critical path.  The record reports that, or the work if
      it is less. */
  predicate Divided(t: Stat) {
    var selfPath := t.work - t.childrenWork + t.childrenCP;
    && t.spWork == (if t.rawWork > t.work then t.work else t.rawWork)
    && (if t.work > 0 && selfPath > 0 then t.rawWork * selfPath <= t.work * t.cp < (t.rawWork + 1) * selfPath
        else t.rawWork == 0)
  }

  /** No child with a longer critical path. */
  predicate ChildrenWithin(t: Stat) {
    t.childMaxCP <= t.cp
  }

  /** The quotient as products, for any figures. */
  lemma QuotientIs(work: nat, selfPath: nat, cp: nat)
    ensures var q := SpWork(work, selfPath, cp);
            if work > 0 && selfPath > 0 then q * selfPath <= work * cp < (q + 1) * selfPath else q == 0
  {
    if work > 0 && selfPath > 0 {
      DivMod(work * cp, selfPath);
    }
  }

  lemma DivMod(a: nat, b: nat)
    requires b > 0
    ensures a / b * b <= a < (a / b + 1) * b
  {
    var q := a / b;
    assert a == q * b + a % b;
    assert (q + 1) * b == q * b + b;
  }

  lemma DividedWork(work: nat, selfPath: nat, cp: nat)
    requires cp <= selfPath
    ensures SpWork(work, selfPath, cp) <= work
  {
    hide SpWork;
    QuotientIs(work, selfPath, cp);
    var q := SpWork(work, selfPath, cp);
    if work > 0 && selfPath > 0 {
      Product(selfPath, cp, work);
      assert (work + 1) * selfPath == selfPath * work + selfPath;
      if q > work {
        Product(q, work + 1, selfPath);
      }
    }
  }

  lemma Product(a: nat, b: nat, c: nat)
    requires a >= b
    ensures a * c >= b * c
  {
  }

  /** The facts about the innermost region that its record reports. */
  lemma InnermostOk(s: State, g: Ledger)
    requires Inv(s, g) && s.regions != []
    ensures var n := |s.regions| - 1;
            var r := s.regions[n];
            && r.cp + r.start <= s.time && r.childrenCP <= r.childrenWork
            && (g.sorted ==> r.childMaxCP <= r.cp)
            && (g.paced && n < s.max ==> r.cp + r.childrenWork + r.start <= s.time + r.childrenCP)
  {
    hide VectorsOk, Stacked;
    StartsAscend(s.regions, s.max, s.time, g.credit, g.paced, g.sorted, |s.regions| - 1);
  }

  lemma ExitedOk(s: State, g: Ledger)
    requires Inv(s, g) && Running(s)
    ensures StatOk(Exited(s), s.max, g.paced, g.sorted)
  {
    hide RegionsOk, VectorsOk, Stacked, SpWork;
    WorkExact(s, g);
    InnermostOk(s, g);
    var n := |s.regions| - 1;
    var r := s.regions[n];
    var work := s.time - r.start;
    var selfPath := work - r.childrenWork + r.childrenCP;
    assert 0 <= selfPath <= work && Wrapped(selfPath) == selfPath;
    if g.sorted {
      assert Wrapped(r.cp - r.childMaxCP) == r.cp - r.childMaxCP;
    }
    QuotientIs(work, selfPath, r.cp);
    if g.paced && n < s.max {
      DividedWork(work, selfPath, r.cp);
    }
  }
}
