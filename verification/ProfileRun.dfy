/** Whole runs of the profiler. */
module ProfileRun {
  import opened Common
  import opened Delta
  import opened Critical
  import opened Profile
  import opened ProfileBounds
  import opened ProfileRegions
  import opened ProfileLinks

  // ------------------------------------------------------------- one call

  /** Calls that run the updater once, and what that run costs. */
  lemma SingleUpdate(c: Call)
    requires Updates(c) != [] && (c.Timestamp? ==> |c.srcs| <= 5)
    ensures |Updates(c)| == 1 && var u := Updates(c)[0];
            && Cost(c) >= Bump(u) && (u.path || Cost(c) == 0)
            && (u.addr.None? ==> MaxOffset(u.srcs) <= Cost(c) - Bump(u))
  {
    FreeOffsets(Updates(c)[0].srcs);
  }

  lemma StampsKeep(c: Call, s: State, g: Ledger)
    requires Inv(s, g) && Legal(c, s) && Cost(c) <= g.credit && Updates(c) != []
    ensures Inv(After(c, s), g.(credit := g.credit - Cost(c)))
  {
    hide RegionsOk, VectorsOk, Stacked, MaxOffset, StampCost, Applied, Legal;
    if c.Timestamp? && |c.srcs| > 5 {
      TwoStepsKeep(c.dest, c.srcs, s, g);
    } else {
      SingleUpdate(c);
      UpdatesLegal(c, s);
      hide Updates, Cost, Registers;
      var u := Updates(c)[0];
      assert CanUpdate(Updates(c)[0], s);
      UpdateKeeps(u, s, g, Cost(c) - Bump(u));
      assert Stamped(Updates(c), s) == Stamped(Updates(c)[1..], Applied(u, s)) == Applied(u, s);
    }
  }

  lemma {:induction false} FreeOffsets(srcs: seq<Operand>)
    ensures (forall i: nat | i < |srcs| :: srcs[i].offset == 0) ==> MaxOffset(srcs) == 0
  {
    if srcs != [] {
      FreeOffsets(srcs[..|srcs| - 1]);
    }
  }

  lemma WorkKeeps(amount: nat, s: State, g: Ledger)
    requires Inv(s, g) && s.time + amount < WORD
    ensures Inv(s.(time := s.time + amount), g.(credit := g.credit + amount))
  {
    hide RegionsOk, Stacked;
    var s', g' := s.(time := s.time + amount), g.(credit := g.credit + amount);
    WorkRegions(s.regions, s.max, s.time, g.credit, g.paced, g.sorted, amount);
    assert Edge(s', g') == Edge(s, g);
    Unlinked(s, s', g.bases, Edge(s, g));
  }

  lemma QueueKeeps(s: State, s': State, g: Ledger)
    requires Inv(s, g) && s' == s.(args := s'.args, read := s'.read, callSite := s'.callSite)
    requires s'.read <= |s'.args| < ARG_QUEUE
    ensures Inv(s', g)
  {
    hide RegionsOk, Stacked;
    assert Edge(s', g) == Edge(s, g);
    Unlinked(s, s', g.bases, Edge(s, g));
  }

  /** Passing values costs nothing, and only copies can end the accounts of
      adjacent levels. */
  lemma LinkCharges(c: Call, s: State, g: Ledger)
    requires Shape(s) && Legal(c, s) && Cost(c) <= g.credit && |g.bases| == |s.regions| && Links(c)
    ensures if c.DeqArg? || c.Return? then
              Charged(c, s, g) == g.(paced := g.paced && InPace(c, s), sorted := g.sorted && InOrder(c, s))
            else Charged(c, s, g) == g
  {
    hide Stacked;
  }

  lemma LinksKeep(c: Call, s: State, g: Ledger)
    requires Inv(s, g) && Legal(c, s) && Paid(c, s, g) && Links(c)
    ensures Inv(AfterLink(c, s), Charged(c, s, g))
  {
    hide RegionsOk, VectorsOk, Stacked, Charged, InPace, InOrder;
    hide Pushed, Dequeued, Prepared, Linked, Returned, ReturnedConst;
    LinkCharges(c, s, g);
    match c
    case PushCDep(cond) => PushKeeps(cond, s, g);
    case PopCDep => PopKeeps(s, g);
    case PrepCall(site) => QueueKeeps(s, s.(args := [], read := 0, callSite := site), g);
    case EnqArg(reg) => QueueKeeps(s, s.(args := s.args + [reg]), g);
    case EnqArgConst => QueueKeeps(s, s.(args := s.args + [DUMMY_ARG]), g);
    case DeqArg(dest) => DequeueKeeps(dest, s, g);
    case PrepRTable(regs, nested) => PrepareKeeps(regs, nested, s, g);
    case LinkReturn(dest) => LinkKeeps(dest, s, g);
    case Return(src) => ReturnKeeps(src, s, g);
    case ReturnConst => ReturnConstKeeps(s, g);
  }

  lemma RegionsKeep(c: Call, s: State, g: Ledger)
    requires Inv(s, g) && Legal(c, s) && Paid(c, s, g) && !Links(c) && Updates(c) == []
    ensures Inv(After(c, s), Charged(c, s, g))
  {
    hide RegionsOk, VectorsOk, Stacked, Registers, Entered, Closed, Unwound, StoredTo;
    match c
    case Work(amount) => WorkKeeps(amount, s, g);
    case Enter(id, kind) => EnterKeeps(id, kind, s, g);
    case Exit(_, _) => CloseKeeps(s, g);
    case LandingPad(id) => UnwindKeeps(s, g, Deepest(s.regions, id));
    case Store(src, addr) => StoreKeeps(Some(src), addr, s, g);
    case StoreConst(addr) => StoreKeeps(None, addr, s, g);
  }

  /** Every call keeps the invariant. */
  lemma CallKeeps(c: Call, s: State, g: Ledger)
    requires Inv(s, g) && Legal(c, s) && Paid(c, s, g)
    ensures Inv(After(c, s), Charged(c, s, g))
  {
    hide RegionsOk, VectorsOk, Stacked, After, Legal, MaxOffset, Cost;
    if Links(c) {
      LinksKeep(c, s, g);
      AfterLinks(c, s);
    } else if Updates(c) != [] {
      StampsKeep(c, s, g);
    } else {
      RegionsKeep(c, s, g);
    }
  }

  lemma AfterLinks(c: Call, s: State)
    requires Shape(s) && Legal(c, s) && Links(c)
    ensures After(c, s) == AfterLink(c, s)
  {
    hide Legal, Stacked, AfterLink;
  }

  lemma {:induction false} UnwoundOk(s: State, g: Ledger, target: nat)
    requires Inv(s, g) && Running(s) && target < |s.regions|
    ensures forall t | t in UnwoundStats(s, target) :: StatOk(t, s.max, g.paced, g.sorted)
    decreases |s.regions|
  {
    hide RegionsOk, VectorsOk, Stacked, StatOk;
    if |s.regions| > target + 1 {
      ExitedOk(s, g);
      CloseKeeps(s, g);
      UnwoundOk(Closed(s), Settled(g), target);
    }
  }

  lemma EmittedOk(c: Call, s: State, g: Ledger)
    requires Inv(s, g) && Legal(c, s)
    ensures forall t | t in Emitted(c, s) :: StatOk(t, s.max, g.paced, g.sorted)
  {
    hide RegionsOk, VectorsOk, Stacked, StatOk;
    if c.Exit? {
      ExitedOk(s, g);
    } else if c.LandingPad? {
      UnwoundOk(s, g, Deepest(s.regions, c.id));
    }
  }

  // ----------------------------------------------------------------- runs

  /** A run an instrumented program can make from a state. */
  ghost predicate CanRun(calls: seq<Call>, s: State, g: Ledger)
    requires Inv(s, g)
  {
    calls == []
    || (&& Legal(calls[0], s) && Paid(calls[0], s, g)
        && (CallKeeps(calls[0], s, g); CanRun(calls[1..], After(calls[0], s), Charged(calls[0], s, g))))
  }

  ghost function RunStats(calls: seq<Call>, s: State, g: Ledger): seq<Stat>
    requires Inv(s, g) && CanRun(calls, s, g)
  {
    if calls == [] then []
    else
      CallKeeps(calls[0], s, g);
      Emitted(calls[0], s) + RunStats(calls[1..], After(calls[0], s), Charged(calls[0], s, g))
  }

  ghost function RunLedger(calls: seq<Call>, s: State, g: Ledger): Ledger
    requires Inv(s, g) && CanRun(calls, s, g)
  {
    if calls == [] then g
    else
      CallKeeps(calls[0], s, g);
      RunLedger(calls[1..], After(calls[0], s), Charged(calls[0], s, g))
  }

  ghost function RunState(calls: seq<Call>, s: State, g: Ledger): State
    requires Inv(s, g) && CanRun(calls, s, g)
  {
    if calls == [] then s
    else
      CallKeeps(calls[0], s, g);
      RunState(calls[1..], After(calls[0], s), Charged(calls[0], s, g))
  }

  lemma Weaker(t: Stat, max: nat, g: Ledger, g': Ledger)
    requires StatOk(t, max, g.paced, g.sorted) && (g'.paced ==> g.paced) && (g'.sorted ==> g.sorted)
    ensures StatOk(t, max, g'.paced, g'.sorted)
  {
  }

  /** On every run, every finished region's record meets the bounds: those
      between levels as long as every deep copy was in pace, or in order. */
  lemma {:induction false} RunBounds(calls: seq<Call>, s: State, g: Ledger)
    requires Inv(s, g) && CanRun(calls, s, g)
    ensures var e := RunLedger(calls, s, g);
            && (e.paced ==> g.paced) && (e.sorted ==> g.sorted)
            && forall t | t in RunStats(calls, s, g) :: StatOk(t, s.max, e.paced, e.sorted)
    decreases |calls|
  {
    hide StatOk, Stacked, RegionsOk, VectorsOk;
    if calls != [] {
      var c := calls[0];
      var e := RunLedger(calls, s, g);
      CallKeeps(c, s, g);
      EmittedOk(c, s, g);
      RunBounds(calls[1..], After(c, s), Charged(c, s, g));
      forall t | t in Emitted(c, s) ensures StatOk(t, s.max, e.paced, e.sorted) {
        Weaker(t, s.max, g, e);
      }
    }
  }

  // ----------------------------------------------------------- equivalents

  /** The exits that an unwind stands for. */
  ghost function ExitsTo(s: State, target: nat): seq<Call>
    requires Shape(s) && Running(s) && target < |s.regions|
    decreases |s.regions|
  {
    if |s.regions| == target + 1 then []
    else
      var r := s.regions[|s.regions| - 1];
      [Exit(r.id, r.kind)] + ExitsTo(Closed(s), target)
  }

  /** The exit of the innermost region, as a call. */
  lemma OneExit(s: State, g: Ledger)
    requires Shape(s) && Running(s) && |g.bases| == |s.regions|
    ensures var r := s.regions[|s.regions| - 1];
            var c := Exit(r.id, r.kind);
            && Legal(c, s) && Paid(c, s, g) && After(c, s) == Closed(s)
            && Charged(c, s, g) == Settled(g) && Emitted(c, s) == [Exited(s)]
  {
    hide Stacked, Exited;
  }

  /** An unwind does what repeated region exits do, down to the deepest region
      with the id: same state, same records, same accounts. */
  lemma {:induction false} UnwindIsExits(s: State, g: Ledger, target: nat)
    requires Inv(s, g) && Running(s) && target < |s.regions|
    ensures CanRun(ExitsTo(s, target), s, g)
    ensures RunState(ExitsTo(s, target), s, g) == Unwound(s, target)
    ensures RunStats(ExitsTo(s, target), s, g) == UnwoundStats(s, target)
    ensures RunLedger(ExitsTo(s, target), s, g) == SettledTo(g, target)
    decreases |s.regions|
  {
    hide RegionsOk, VectorsOk, Stacked, Legal, Paid, After, Charged, Emitted, Closed, Exited;
    if |s.regions| > target + 1 {
      var calls := ExitsTo(s, target);
      var r := s.regions[|s.regions| - 1];
      var c := Exit(r.id, r.kind);
      OneExit(s, g);
      CallKeeps(c, s, g);
      UnwindIsExits(Closed(s), Settled(g), target);
      assert calls[0] == c && calls[1..] == ExitsTo(Closed(s), target);
      assert Settled(g).bases[..target + 1] == g.bases[..target + 1];
    }
  }

  lemma {:induction false} LatestJoined(a: seq<Source>, b: seq<Source>, l: nat)
    requires forall x | x in a + b :: l < |x.times|
    ensures (forall x | x in a :: l < |x.times|) && (forall x | x in b :: l < |x.times|)
    ensures Latest(a + b, l) == Max(Latest(a, l), Latest(b, l))
    decreases |b|
  {
    assert forall x | x in a :: x in a + b;
    assert forall x | x in b :: x in a + b;
    if b == [] {
      assert a + b == a;
    } else {
      var n := |b| - 1;
      assert (a + b)[..|a + b| - 1] == a + b[..n];
      assert forall x | x in a + b[..n] :: x in a + b;
      LatestJoined(a, b[..n], l);
    }
  }

  /** Registers as sources. */
  function RegSources(rows: seq<seq<Time>>, srcs: seq<Operand>): (r: seq<Source>)
    requires forall i: nat | i < |srcs| :: srcs[i].reg < |rows|
    ensures |r| == |srcs|
  {
    seq(|srcs|, i requires 0 <= i < |srcs| => Source(rows[srcs[i].reg], srcs[i].offset))
  }

  lemma SourcesSplit(u: Update, s: State)
    requires Shape(s) && CanUpdate(u, s) && u.addr.None?
    ensures forall i: nat | i < |u.srcs| :: u.srcs[i].reg < |Top(s).rows|
    ensures Sources(u, s) == (if u.ctrl then [Source(s.cdt[s.readPtr], 0)] else []) + RegSources(Top(s).rows, u.srcs)
  {
    hide Stacked;
    assert forall i: nat | i < |u.srcs| :: Register(s, u.srcs[i].reg);
  }

  /** Two stamps in a row, the second taking in the first, are one stamp. */
  lemma StampsJoined(a: seq<Source>, b: seq<Source>, row: seq<Time>, n: nat)
    requires forall x | x in a + b :: n <= |x.times|
    requires (forall x | x in a :: n <= |x.times|) && n <= |row| && row[..n] == Stamp(a, 0, n)
    ensures forall x | x in [Source(row, 0)] + b :: n <= |x.times|
    ensures Stamp([Source(row, 0)] + b, 0, n) == Stamp(a + b, 0, n)
  {
    assert forall x | x in b :: x in a + b;
    forall l: nat | l < n ensures Latest([Source(row, 0)] + b, l) == Latest(a + b, l) {
      LatestJoined(a, b, l);
      LatestJoined([Source(row, 0)], b, l);
      assert [Source(row, 0)][..0] == [];
      assert row[l] == row[..n][l] == Latest(a, l);
      assert Latest([Source(row, 0)], l) == row[l];
    }
  }

  /** A stamp put in a register, critical paths extended. */
  function Stamping(s: State, dest: nat, d: seq<Time>): State
    requires Shape(s) && Register(s, dest) && |d| == Levels(s) <= Top(s).cols
  {
    s.(frames := WithRow(s.frames, |s.frames| - 1, dest, d), regions := Extended(s.regions, d))
  }

  /** The registers once the first five operands have been taken in. */
  function FirstRows(dest: nat, srcs: seq<Operand>, s: State): (rows: seq<seq<Time>>)
    requires Shape(s) && Legal(Timestamp(dest, srcs), s) && |srcs| > 5
    ensures |rows| == |Top(s).rows|
  {
    UpdatesLegal(Timestamp(dest, srcs), s);
    assert CanUpdate(Updates(Timestamp(dest, srcs))[0], s);
    Top(Applied(Updates(Timestamp(dest, srcs))[0], s)).rows
  }

  /** What a stamp of six or seven operands takes in: the control dependence and
      the first five, and the others as they are read after those. */
  function LongSources(dest: nat, srcs: seq<Operand>, s: State): (r: seq<Source>)
    requires Shape(s) && Legal(Timestamp(dest, srcs), s) && |srcs| > 5
    ensures forall x | x in r :: Levels(s) <= |x.times|
  {
    UpdatesLegal(Timestamp(dest, srcs), s);
    assert CanUpdate(Updates(Timestamp(dest, srcs))[0], s);
    TopWide(s);
    var t := Applied(Updates(Timestamp(dest, srcs))[0], s);
    assert forall i: nat | i < |srcs| :: Register(s, srcs[i].reg);
    Sources(Updates(Timestamp(dest, srcs))[0], s) + RegSources(FirstRows(dest, srcs, s), srcs[5..])
  }

  /** A stamp of six or seven operands is made in two steps, with the result of
      the first as an operand of the second: that is one stamp of them all,
      where an operand of the second that is the destination itself is read
      after the first. */
  lemma LongStamp(dest: nat, srcs: seq<Operand>, s: State)
    requires Shape(s) && Legal(Timestamp(dest, srcs), s) && |srcs| > 5
    ensures Levels(s) <= Top(s).cols
    ensures After(Timestamp(dest, srcs), s) == Stamping(s, dest, Stamp(LongSources(dest, srcs, s), 0, Levels(s)))
    ensures var u := Update(dest, true, true, None, srcs);
            CanUpdate(u, s) && (!Uses(srcs[5..], dest) ==> After(Timestamp(dest, srcs), s) == Applied(u, s))
  {
    hide Stacked, Stamp, Sources, Uses;
    var u := Update(dest, true, true, None, srcs);
    var us := Updates(Timestamp(dest, srcs));
    UpdatesLegal(Timestamp(dest, srcs), s);
    assert CanUpdate(us[0], s);
    TopWide(s);
    TwoStamps(dest, srcs, s);
    if !Uses(srcs[5..], dest) {
      UnusedDest(dest, srcs, s);
    }
  }

  lemma TwoStamps(dest: nat, srcs: seq<Operand>, s: State)
    requires Shape(s) && Legal(Timestamp(dest, srcs), s) && |srcs| > 5 && Levels(s) <= Top(s).cols
    ensures After(Timestamp(dest, srcs), s) == Stamping(s, dest, Stamp(LongSources(dest, srcs, s), 0, Levels(s)))
  {
    hide Stacked, Stamp;
    var us := Updates(Timestamp(dest, srcs));
    UpdatesLegal(Timestamp(dest, srcs), s);
    assert CanUpdate(us[0], s);
    var s1 := Applied(us[0], s);
    AllUpdate(us, s, s1);
    assert CanUpdate(us[1..][0], s1);
    var n := Levels(s);
    var d1, d2 := Stamp(Sources(us[0], s), 0, n), Stamp(Sources(us[1], s1), 0, n);
    SecondStamp(dest, srcs, s);
    Rewritten(s, dest, d1, d2);
    assert Stamped(us, s) == Stamped(us[1..], s1) == Applied(us[1], s1);
  }

  lemma SecondStamp(dest: nat, srcs: seq<Operand>, s: State)
    requires Shape(s) && Legal(Timestamp(dest, srcs), s) && |srcs| > 5 && Levels(s) <= Top(s).cols
    ensures var us := Updates(Timestamp(dest, srcs));
            && CanUpdate(us[0], s) && CanUpdate(us[1], Applied(us[0], s))
            && Stamp(Sources(us[1], Applied(us[0], s)), 0, Levels(s)) == Stamp(LongSources(dest, srcs, s), 0, Levels(s))
  {
    hide Stacked, Stamp;
    var us := Updates(Timestamp(dest, srcs));
    UpdatesLegal(Timestamp(dest, srcs), s);
    assert CanUpdate(us[0], s);
    var s1 := Applied(us[0], s);
    AllUpdate(us, s, s1);
    assert CanUpdate(us[1..][0], s1);
    SourcesSplit(us[1], s1);
    var n, rows1 := Levels(s), Top(s1).rows;
    var d1 := Stamp(Sources(us[0], s), 0, n);
    assert rows1[dest][..n] == d1;
    RestSplit(rows1, dest, srcs);
    var rest := RegSources(rows1, srcs[5..]);
    assert [] + RegSources(rows1, us[1].srcs) == RegSources(rows1, us[1].srcs);
    assert LongSources(dest, srcs, s) == Sources(us[0], s) + rest;
    hide Sources, RegSources, LongSources;
    StampsJoined(Sources(us[0], s), rest, rows1[dest], n);
  }

  lemma RestSplit(rows: seq<seq<Time>>, dest: nat, srcs: seq<Operand>)
    requires dest < |rows| && |srcs| > 5 && forall i: nat | i < |srcs| :: srcs[i].reg < |rows|
    ensures forall i: nat | i < |srcs[5..]| :: srcs[5..][i] == srcs[i + 5]
    ensures RegSources(rows, [Operand(dest, 0)] + srcs[5..]) == [Source(rows[dest], 0)] + RegSources(rows, srcs[5..])
  {
  }

  /** Unless the others read the destination, it makes no difference when they
      are read. */
  lemma UnusedDest(dest: nat, srcs: seq<Operand>, s: State)
    requires Shape(s) && Legal(Timestamp(dest, srcs), s) && |srcs| > 5 && !Uses(srcs[5..], dest)
    ensures var u := Update(dest, true, true, None, srcs);
            CanUpdate(u, s) && LongSources(dest, srcs, s) == Sources(u, s)
  {
    hide Stacked, Stamp, Applied;
    var us := Updates(Timestamp(dest, srcs));
    var u := Update(dest, true, true, None, srcs);
    UpdatesLegal(Timestamp(dest, srcs), s);
    assert CanUpdate(us[0], s);
    SourcesSplit(us[0], s);
    SourcesSplit(u, s);
    OtherRegisters(us[0], s);
    RowsSplit(Top(s).rows, FirstRows(dest, srcs, s), dest, srcs);
  }

  lemma OtherRegisters(u: Update, s: State)
    requires Shape(s) && CanUpdate(u, s)
    ensures Running(Applied(u, s)) && |Top(Applied(u, s)).rows| == |Top(s).rows|
    ensures forall k: nat | k < |Top(s).rows| && k != u.dest :: Top(Applied(u, s)).rows[k] == Top(s).rows[k]
  {
    hide Stacked, Stamp, Sources;
  }

  lemma RowsSplit(rows: seq<seq<Time>>, now: seq<seq<Time>>, dest: nat, srcs: seq<Operand>)
    requires |now| == |rows| && dest < |rows| && |srcs| > 5 && forall i: nat | i < |srcs| :: srcs[i].reg < |rows|
    requires forall k: nat | k < |rows| && k != dest :: now[k] == rows[k]
    requires !Uses(srcs[5..], dest)
    ensures forall i: nat | i < |srcs[5..]| :: srcs[5..][i] == srcs[i + 5]
    ensures RegSources(rows, srcs) == RegSources(rows, srcs[..5]) + RegSources(now, srcs[5..])
  {
    var rest := srcs[5..];
    forall i: nat | i < |rest| ensures RegSources(now, rest)[i] == RegSources(rows, srcs)[i + 5] {
      assert rest[i].reg != dest;
    }
  }
}
