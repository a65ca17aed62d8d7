/** Passing values between functions, and control dependences, keep the bounds. */
module ProfileLinks {
  import opened Delta
  import ShadowSpec
  import opened Critical
  import opened Profile
  import opened ProfileBounds

  // ------------------------------------------------- control dependences

  lemma CdtPushed(s: State, s': State, bases: seq<nat>, f: Frontier, row: ShadowSpec.Vector)
    requires s.readPtr + 1 < CDT_ROWS && CdtOk(s, bases, f) && |bases| == |s.regions| == |f.regions|
    requires s' == s.(readPtr := s.readPtr + 1, cdt := s.cdt[s.readPtr + 1 := row]) && VecOk(row, Levels(s), f)
    ensures CdtOk(s', bases, f)
  {
    forall l: nat, r: nat | l < |bases| && bases[l] <= r <= s'.readPtr
      ensures VecOk(s'.cdt[r], Min(l + 1, s.max + 1), f)
    {
      if r == s'.readPtr {
        VecLooser(row, Levels(s), f, f, Min(l + 1, s.max + 1));
      } else {
        assert VecOk(s.cdt[r], Min(l + 1, s.max + 1), f);
      }
    }
  }

  lemma PushKeeps(cond: nat, s: State, g: Ledger)
    requires Inv(s, g) && Register(s, cond) && s.readPtr + 1 < CDT_ROWS
    ensures Inv(Pushed(cond, s), g)
  {
    hide RegionsOk, Stacked, TopOk, CallersOk, CdtOk, MemOk;
    var s' := Pushed(cond, s);
    TopWide(s);
    GoodRows(s, g);
    VecFront(Top(s).rows[cond], s'.cdt[s'.readPtr], Levels(s), Edge(s, g));
    CdtPushed(s, s', g.bases, Edge(s, g), s'.cdt[s'.readPtr]);
    Unlinked(s, s', g.bases, Edge(s, g));
  }

  lemma CdtPopped(s: State, s': State, bases: seq<nat>, f: Frontier)
    requires 0 < s.readPtr < CDT_ROWS && CdtOk(s, bases, f)
    requires bases != [] ==> bases[|bases| - 1] < s.readPtr
    requires s' == s.(readPtr := s.readPtr - 1)
    ensures CdtOk(s', bases, f)
  {
    forall l: nat | l < |bases| ensures bases[l] <= s'.readPtr {
      if l < |bases| - 1 {
        assert bases[l] <= bases[|bases| - 1];
      }
    }
  }

  lemma PopKeeps(s: State, g: Ledger)
    requires Inv(s, g) && s.readPtr > 0 && (g.bases != [] ==> g.bases[|g.bases| - 1] < s.readPtr)
    ensures Inv(s.(readPtr := s.readPtr - 1), g)
  {
    hide RegionsOk, Stacked, TopOk, CallersOk, CdtOk, MemOk;
    var s' := s.(readPtr := s.readPtr - 1);
    CdtPopped(s, s', g.bases, Edge(s, g));
    Unlinked(s, s', g.bases, Edge(s, g));
  }

  /** Tables and memory do not depend on the rest of the state. */
  lemma Unlinked(s: State, s': State, bases: seq<nat>, f: Frontier)
    requires s.readPtr < CDT_ROWS && s.max < MAX_LEVEL && VectorsOk(s, bases, f)
    requires s'.frames == s.frames && s'.regions == s.regions && s'.mem == s.mem && s'.max == s.max
    requires s'.readPtr < CDT_ROWS && CdtOk(s', bases, f)
    ensures VectorsOk(s', bases, f)
  {
    assert Levels(s') == Levels(s);
    assert s.frames != [] ==> Top(s') == Top(s);
  }

  // --------------------------------------------------------------- tables

  /** The innermost table replaced. */
  lemma TopReplacedKeeps(s: State, s': State, bases: seq<nat>, f: Frontier, top: Frame)
    requires Shape(s) && s.frames != [] && VectorsOk(s, bases, f) && top.level == Top(s).level
    requires s' == s.(frames := s.frames[|s.frames| - 1 := top], waiting := s'.waiting)
    requires forall i: nat | i < |top.rows| :: VecOk(top.rows[i], Levels(s), f)
    ensures VectorsOk(s', bases, f)
  {
    hide Stacked;
    assert Top(s') == top && Levels(s') == Levels(s);
    assert FrameLevels(s'.frames) == FrameLevels(s.frames);
  }

  lemma PrepareKeeps(regs: nat, nested: nat, s: State, g: Ledger)
    requires Inv(s, g) && s.waiting
    ensures Inv(Prepared(regs, nested, s), g)
  {
    hide RegionsOk, Stacked, VectorsOk;
    WaitingIsActive(s);
    TopLevel(s);
    var s' := Prepared(regs, nested, s);
    FreshRows(s, g, Top(s').rows);
    TopReplacedKeeps(s, s', g.bases, Edge(s, g), Top(s'));
  }

  lemma WaitingIsActive(s: State)
    requires Shape(s) && s.waiting
    ensures s.regions != []
  {
    hide FuncLevels, WideEnough;
  }

  lemma FreshRows(s: State, g: Ledger, rows: seq<seq<Time>>)
    requires Inv(s, g)
    requires forall i: nat | i < |rows| :: Levels(s) <= |rows[i]| && forall l: nat | l < Levels(s) :: rows[i][l] == 0
    ensures forall i: nat | i < |rows| :: VecOk(rows[i], Levels(s), Edge(s, g))
  {
    hide VectorsOk, Stacked;
    AllStarted(s.regions, s.max, s.time, g.credit, g.paced, g.sorted);
  }

  lemma LinkKeeps(dest: nat, s: State, g: Ledger)
    requires Inv(s, g) && Running(s)
    ensures Inv(Linked(dest, s), g)
  {
    hide RegionsOk, Stacked, VectorsOk;
    var s' := Linked(dest, s);
    GoodRows(s, g);
    TopReplacedKeeps(s, s', g.bases, Edge(s, g), Top(s'));
  }

  lemma GoodRows(s: State, g: Ledger)
    requires Inv(s, g) && s.frames != []
    ensures forall i: nat | i < |Top(s).rows| :: VecOk(Top(s).rows[i], Levels(s), Edge(s, g))
  {
  }

  // ------------------------------------------------------------ arguments

  /** Less is asked of adjacent levels. */
  lemma Unrelated(s: State, g: Ledger, paced: bool, sorted: bool)
    requires Inv(s, g) && (paced ==> g.paced) && (sorted ==> g.sorted)
    ensures Inv(s, g.(paced := paced, sorted := sorted))
  {
    hide Stacked;
    var now := Edge(s, g.(paced := paced, sorted := sorted));
    VectorsLooser(s, g.bases, Edge(s, g), now, s.regions);
    assert s.(regions := s.regions) == s;
  }

  /** The register of a caller, read as an argument: its copy in a function
      that has stamped nothing yet. */
  lemma ArgumentOk(t: seq<Time>, d: seq<Time>, s: State, g: Ledger)
    requires Inv(s, g) && InFunction(s) && s.regions[|s.regions| - 1].cp == 0
    requires VecOk(d, Levels(s), Edge(s, g)) && CallerOk(t, |s.regions| - 1, s.max, Edge(s, g))
    requires Deep(s) ==> CopyOk(t, d, s, g)
    ensures VecOk(t[..Levels(s) - 1] + [d[Levels(s) - 1]], Levels(s), Edge(s, g))
  {
    hide RegionsOk, VectorsOk, Stacked;
    var n := Levels(s) - 1;
    var u := t[..n] + [d[n]];
    if n > 0 {
      assert u[n] == d[n] && u[n - 1] == t[n - 1];
    }
  }

  /** A deep copy that keeps what the accounts say of adjacent levels. */
  ghost predicate CopyOk(t: seq<Time>, d: seq<Time>, s: State, g: Ledger)
    requires Deep(s) && s.max < |t| && s.max < |d|
  {
    s.max > 0 ==>
      && (g.paced ==> t[s.max - 1] <= Slack(s.regions, s.max) + d[s.max])
      && (g.sorted ==> d[s.max] <= t[s.max - 1])
  }

  lemma CallerRow(s: State, g: Ledger, k: nat)
    requires Inv(s, g) && InFunction(s) && |s.frames| >= 2 && k < |Caller(s).rows|
    ensures CallerOk(Caller(s).rows[k], |s.regions| - 1, s.max, Edge(s, g))
  {
    TopLevel(s);
    hide RegionsOk, Stacked;
    var i: nat := |s.frames| - 2;
    assert RowsOk(s.frames[i], FrameLevels(s.frames)[i + 1], s.max, Edge(s, g));
  }

  lemma DequeueKeeps(dest: nat, s: State, g: Ledger)
    requires Inv(s, g) && CanDequeue(dest, s)
    requires s.args[s.read] != DUMMY_ARG ==> s.regions[|s.regions| - 1].cp == 0
    ensures var c := DeqArg(dest);
            Legal(c, s)
              && Inv(Dequeued(dest, s), g.(paced := g.paced && InPace(c, s), sorted := g.sorted && InOrder(c, s)))
  {
    hide RegionsOk, Stacked, VectorsOk;
    var src := s.args[s.read];
    if src == DUMMY_ARG {
      assert Edge(s.(read := s.read + 1), g) == Edge(s, g);
      Unqueued(s, s.(read := s.read + 1), g.bases, Edge(s, g));
    } else {
      var c := DeqArg(dest);
      var g' := g.(paced := g.paced && InPace(c, s), sorted := g.sorted && InOrder(c, s));
      Unrelated(s, g, g'.paced, g'.sorted);
      ArgumentKeeps(dest, s, g');
    }
  }

  lemma ArgumentKeeps(dest: nat, s: State, g: Ledger)
    requires Inv(s, g) && CanDequeue(dest, s) && s.args[s.read] != DUMMY_ARG
    requires s.regions[|s.regions| - 1].cp == 0
    requires var c := DeqArg(dest); (g.paced ==> InPace(c, s)) && (g.sorted ==> InOrder(c, s))
    ensures Inv(Dequeued(dest, s), g)
  {
    hide RegionsOk, Stacked, VectorsOk, VecOk, CallerOk;
    CallWidth(s);
    TopWide(s);
    GoodRows(s, g);
    CallerRow(s, g, s.args[s.read]);
    var s' := Dequeued(dest, s);
    var n := Levels(s);
    var t := Caller(s).rows[s.args[s.read]];
    var d := Top(s).rows[dest];
    ArgumentOk(t, d, s, g);
    var u := t[..n - 1] + [d[n - 1]];
    PutKeeps(s, g.bases, Edge(s, g), dest, u);
    assert t[..n - 1] + d[n - 1..] == u + d[n..];
    Unqueued(s.(frames := WithRow(s.frames, |s.frames| - 1, dest, u)), s', g.bases, Edge(s, g));
  }

  lemma Unqueued(s: State, s': State, bases: seq<nat>, f: Frontier)
    requires s.readPtr < CDT_ROWS && s.max < MAX_LEVEL && VectorsOk(s, bases, f)
    requires s' == s.(read := s'.read)
    ensures VectorsOk(s', bases, f)
  {
    Unlinked(s, s', bases, f);
  }

  // -------------------------------------------------------------- returns

  lemma CallersPut(s: State, f: Frontier, reg: nat, d: seq<Time>)
    requires Shape(s) && InFunction(s) && |s.frames| >= 2 && CallersOk(s, f)
    requires reg < |Caller(s).rows| && |d| <= Caller(s).cols
    requires CallerOk(d + Caller(s).rows[reg][|d|..], |s.regions| - 1, s.max, f)
    ensures CallersOk(s.(frames := WithRow(s.frames, |s.frames| - 2, reg, d)), f)
  {
    TopLevel(s);
    hide Stacked, CallerOk;
    var i: nat := |s.frames| - 2;
    var frames := WithRow(s.frames, i, reg, d);
    assert FrameLevels(frames) == FrameLevels(s.frames);
    forall k: nat | k + 1 < |frames| ensures RowsOk(frames[k], FrameLevels(frames)[k + 1], s.max, f) {
      assert RowsOk(s.frames[k], FrameLevels(s.frames)[k + 1], s.max, f);
    }
  }

  lemma CallersReplaced(s: State, frames: seq<Frame>, bases: seq<nat>, f: Frontier)
    requires s.readPtr < CDT_ROWS && s.max < MAX_LEVEL && VectorsOk(s, bases, f)
    requires |frames| == |s.frames| >= 2 && frames[|frames| - 1] == Top(s) && CallersOk(s.(frames := frames), f)
    ensures VectorsOk(s.(frames := frames), bases, f)
  {
    assert Top(s.(frames := frames)) == Top(s);
  }

  /** A returned vector in the caller's register. */
  lemma ReturnPut(s: State, g: Ledger, d: seq<Time>)
    requires Inv(s, g) && CanReturn(s) && |s.frames| >= 2 && |d| <= Caller(s).cols
    requires CallerOk(d + Caller(s).rows[Caller(s).ret][|d|..], |s.regions| - 1, s.max, Edge(s, g))
    ensures Inv(s.(frames := WithRow(s.frames, |s.frames| - 2, Caller(s).ret, d)), g)
  {
    hide RegionsOk, Stacked, CallerOk, TopOk, MemOk, CdtOk, CallersOk;
    var i: nat := |s.frames| - 2;
    var s' := s.(frames := WithRow(s.frames, i, Caller(s).ret, d));
    RowKeepsShape(s, i, Caller(s).ret, d, s.regions);
    CallersPut(s, Edge(s, g), Caller(s).ret, d);
    CallersReplaced(s, s'.frames, g.bases, Edge(s, g));
    assert s.(frames := s'.frames, regions := s.regions) == s';
  }

  /** A register of the callee, copied to the caller. */
  lemma ResultOk(t: seq<Time>, d: seq<Time>, s: State, g: Ledger)
    requires Inv(s, g) && s.regions != [] && VecOk(t, Levels(s), Edge(s, g))
    requires CallerOk(d, |s.regions| - 1, s.max, Edge(s, g)) && Levels(s) - 1 <= |d|
    requires Deep(s) ==> s.max < |d| && CopyOk(t, d, s, g)
    ensures CallerOk(t[..Levels(s) - 1] + d[Levels(s) - 1..], |s.regions| - 1, s.max, Edge(s, g))
  {
    hide RegionsOk, VectorsOk, Stacked, CallerOk, VecOk;
    if Deep(s) {
      DeepResult(t, d, s, g);
    } else {
      OwnResult(t, d, s, g);
    }
  }

  lemma DeepResult(t: seq<Time>, d: seq<Time>, s: State, g: Ledger)
    requires Inv(s, g) && Deep(s) && VecOk(t, Levels(s), Edge(s, g))
    requires CallerOk(d, |s.regions| - 1, s.max, Edge(s, g)) && s.max < |d| && CopyOk(t, d, s, g)
    ensures CallerOk(t[..Levels(s) - 1] + d[Levels(s) - 1..], |s.regions| - 1, s.max, Edge(s, g))
  {
    hide RegionsOk, VectorsOk, Stacked, Slack;
    var n := s.max;
    var u := t[..n] + d[n..];
    assert Levels(s) == n + 1 && |u| == |d|;
    assert u[n] == d[n];
    forall l: nat | l < n ensures u[l] == t[l] {
    }
  }

  lemma OwnResult(t: seq<Time>, d: seq<Time>, s: State, g: Ledger)
    requires Inv(s, g) && s.regions != [] && !Deep(s) && VecOk(t, Levels(s), Edge(s, g)) && |s.regions| - 1 <= |d|
    ensures CallerOk(t[..Levels(s) - 1] + d[Levels(s) - 1..], |s.regions| - 1, s.max, Edge(s, g))
  {
    hide RegionsOk, VectorsOk, Stacked;
    var n := |s.regions| - 1;
    var u := t[..n] + d[n..];
    assert u[..n] == t[..n];
    VecFront(t, u, n, Edge(s, g));
    if n > 0 {
      assert u[n - 1] == t[n - 1];
    }
  }

  /** The control dependence of the callee, copied to the caller. */
  lemma DependenceOk(t: seq<Time>, cols: nat, s: State, g: Ledger)
    requires Inv(s, g) && s.regions != [] && VecOk(t, Levels(s), Edge(s, g))
    requires Min(|s.regions| - 1, s.max + 1) <= cols <= |t|
    ensures CallerOk(t[..cols], |s.regions| - 1, s.max, Edge(s, g))
  {
    hide RegionsOk, VectorsOk, Stacked;
    VecFront(t, t[..cols], Min(|s.regions| - 1, s.max + 1), Edge(s, g));
  }

  lemma ReturnKeeps(src: nat, s: State, g: Ledger)
    requires Inv(s, g) && CanReturn(s) && Register(s, src)
    ensures var c := Return(src);
            Legal(c, s)
              && Inv(Returned(src, s), g.(paced := g.paced && InPace(c, s), sorted := g.sorted && InOrder(c, s)))
  {
    hide RegionsOk, Stacked, VectorsOk, CallerOk;
    if |s.frames| >= 2 {
      var c := Return(src);
      var g' := g.(paced := g.paced && InPace(c, s), sorted := g.sorted && InOrder(c, s));
      Unrelated(s, g, g'.paced, g'.sorted);
      CallWidth(s);
      TopWide(s);
      GoodRows(s, g');
      CallerRow(s, g', Caller(s).ret);
      CallerWide(s);
      var n := Levels(s) - 1;
      var t, d := Top(s).rows[src], Caller(s).rows[Caller(s).ret];
      ResultOk(t, d, s, g');
      ReturnPut(s, g', t[..n]);
    }
  }

  lemma ReturnConstKeeps(s: State, g: Ledger)
    requires Inv(s, g) && CanReturn(s) && (|s.frames| >= 2 ==> Caller(s).cols <= MAX_LEVEL)
    ensures Inv(ReturnedConst(s), g)
  {
    hide RegionsOk, Stacked, VectorsOk, CallerOk;
    if |s.frames| >= 2 {
      CallerWide(s);
      CurrentDependence(s, g);
      var cols := Caller(s).cols;
      var t := s.cdt[s.readPtr];
      DependenceOk(t, cols, s, g);
      assert t[..cols] == t[..cols] + Caller(s).rows[Caller(s).ret][cols..];
      ReturnPut(s, g, t[..cols]);
    }
  }
}
