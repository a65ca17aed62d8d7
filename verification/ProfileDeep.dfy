/** Calls below the deepest instrumented level: values passed to and from them
    lose their innermost instrumented time, which the code takes to be the
    callee's own (runtime/src/Handlers.cpp:1071-1074, 1144-1147).  What such a
    copy may leave out, exactly. */
module ProfileDeep {
  import opened Common
  import opened Delta
  import opened Critical
  import opened Profile
  import opened ProfileBounds
  import opened ProfileRegions
  import opened ProfileLinks
  import opened ProfileRun

  // ------------------------------------------------ runs without a copy

  /** No argument is taken off and no result passed back. */
  predicate NoCopies(calls: seq<Call>) {
    forall c | c in calls :: !c.DeqArg? && !c.Return?
  }

  /** Such a run leaves the relations between levels as they are. */
  lemma {:induction false} NoCopiesKeep(calls: seq<Call>, s: State, g: Ledger)
    requires Inv(s, g) && CanRun(calls, s, g) && NoCopies(calls)
    ensures var e := RunLedger(calls, s, g); e.paced == g.paced && e.sorted == g.sorted
    decreases |calls|
  {
    hide RegionsOk, VectorsOk, Stacked, Legal, After;
    if calls != [] {
      var c := calls[0];
      assert c in calls && forall x | x in calls[1..] :: x in calls;
      CallKeeps(c, s, g);
      assert DeepCopies(c, s).NoCopy?;
      NoCopiesKeep(calls[1..], After(c, s), Charged(c, s, g));
    }
  }

  // --------------------------------------------------------- one more run

  /** A run that can be made and emits the record. */
  ghost predicate RunShows(calls: seq<Call>, s: State, g: Ledger, t: Stat) {
    Inv(s, g) && CanRun(calls, s, g) && t in RunStats(calls, s, g)
  }

  /** A call that can be made, and what it leads to. */
  ghost predicate Leads(c: Call, s: State, g: Ledger, s': State, g': Ledger) {
    && Shape(s) && |g.bases| == |s.regions| && Legal(c, s) && Paid(c, s, g)
    && After(c, s) == s' && Charged(c, s, g) == g'
  }

  lemma CallThenShows(c: Call, rest: seq<Call>, s: State, g: Ledger, s': State, g': Ledger, t: Stat)
    requires Inv(s, g) && Leads(c, s, g, s', g')
    requires Inv(s', g') ==> RunShows(rest, s', g', t)
    ensures RunShows([c] + rest, s, g, t)
  {
    hide RegionsOk, VectorsOk, Stacked, Legal, Paid, Charged, After, Emitted;
    CallKeeps(c, s, g);
    assert ([c] + rest)[1..] == rest;
  }

  lemma ExitShows(s: State, g: Ledger)
    requires Inv(s, g) && Running(s)
    ensures var r := s.regions[|s.regions| - 1];
            RunShows([Exit(r.id, r.kind)], s, g, Exited(s))
  {
    hide Stacked, RegionsOk, VectorsOk, Legal, Paid, After, Charged, Emitted, Closed, Exited;
    var r := s.regions[|s.regions| - 1];
    var c := Exit(r.id, r.kind);
    OneExit(s, g);
    CallKeeps(c, s, g);
    assert [c][1..] == [];
    assert CanRun([], After(c, s), Charged(c, s, g));
    assert RunStats([c], s, g) == [Exited(s)] + RunStats([c][1..], After(c, s), Charged(c, s, g));
  }

  // -------------------------------------------------------- leaving levels

  datatype Name = Name(id: nat, kind: Kind)

  function Names(regions: seq<Region>): (r: seq<Name>)
    ensures |r| == |regions| && forall l: nat | l < |r| :: r[l] == Name(regions[l].id, regions[l].kind)
  {
    seq(|regions|, l requires 0 <= l < |regions| => Name(regions[l].id, regions[l].kind))
  }

  /** The exits of all regions down to and including level `target`. */
  function Leave(names: seq<Name>, target: nat): (r: seq<Call>)
    ensures NoCopies(r)
    decreases |names|
  {
    if |names| <= target then []
    else
      var n := |names| - 1;
      [Exit(names[n].id, names[n].kind)] + Leave(names[..n], target)
  }

  /** What the record of level `target` says about it and the level below. */
  ghost predicate Reports(t: Stat, regions: seq<Region>, target: nat)
    requires target + 1 < |regions|
  {
    && t.level == target && t.cp == regions[target].cp
    && t.work + t.childrenCP - t.childrenWork == Slack(regions, target + 1) + regions[target + 1].cp
    && t.childMaxCP == Max(regions[target].childMaxCP, regions[target + 1].cp)
  }

  /** The record of the region that has just got its child back. */
  lemma ParentReports(s: State, g: Ledger)
    requires Inv(s, g) && Running(s) && |s.regions| >= 2
    ensures Inv(Closed(s), Settled(g)) && Reports(Exited(Closed(s)), s.regions, |s.regions| - 2)
  {
    hide Stacked, VectorsOk, RegionsOk, Closed;
    CloseKeeps(s, g);
    WorkExact(s, g);
    WorkExact(Closed(s), Settled(g));
    var n: nat := |s.regions| - 2;
    ClosedParent(s);
    ExitedIs(Closed(s), Credited(s.regions[n], s.time - s.regions[n + 1].start, s.regions[n + 1].cp));
  }

  lemma ClosedParent(s: State)
    requires Shape(s) && Running(s) && |s.regions| >= 2
    requires Wrapped(s.time - s.regions[|s.regions| - 1].start) == s.time - s.regions[|s.regions| - 1].start
    ensures var n: nat := |s.regions| - 2;
            && Closed(s).time == s.time && |Closed(s).regions| == n + 1
            && Closed(s).regions[n] == Credited(s.regions[n], s.time - s.regions[n + 1].start, s.regions[n + 1].cp)
  {
    hide Stacked;
  }

  lemma ExitedIs(s: State, r: Region)
    requires s.regions != [] && s.frames != [] && s.regions[|s.regions| - 1] == r
    requires Wrapped(s.time - r.start) == s.time - r.start
    ensures var t := Exited(s);
            && t.level == |s.regions| - 1 && t.work == s.time - r.start && t.cp == r.cp
            && t.childrenWork == r.childrenWork && t.childrenCP == r.childrenCP && t.childMaxCP == r.childMaxCP
  {
  }

  lemma {:induction false} LeaveReports(s: State, g: Ledger, target: nat) returns (t: Stat)
    requires Inv(s, g) && Running(s) && target + 1 < |s.regions|
    ensures RunShows(Leave(Names(s.regions), target), s, g, t) && Reports(t, s.regions, target)
    decreases |s.regions|
  {
    hide RegionsOk, VectorsOk, Stacked, Exited, Closed, RunShows, Leads;
    var n := |s.regions| - 1;
    var names := Names(s.regions);
    LeaveStep(s, g);
    var s', g' := Closed(s), Settled(g);
    assert names[..n] == Names(s'.regions);
    if n == target + 1 {
      t := LastReports(s, g);
    } else {
      t := LeaveReports(s', g', target);
    }
    CallThenShows(Exit(s.regions[n].id, s.regions[n].kind), Leave(Names(s'.regions), target), s, g, s', g', t);
  }

  lemma LastReports(s: State, g: Ledger) returns (t: Stat)
    requires Inv(s, g) && Running(s) && |s.regions| >= 2
    ensures Inv(Closed(s), Settled(g)) && Running(Closed(s))
    ensures RunShows(Leave(Names(Closed(s).regions), |s.regions| - 2), Closed(s), Settled(g), t)
    ensures Reports(t, s.regions, |s.regions| - 2)
  {
    hide RegionsOk, VectorsOk, Stacked, Exited, Closed, RunShows, Reports;
    ParentReports(s, g);
    t := Exited(Closed(s));
    ExitShows(Closed(s), Settled(g));
    LeaveOne(Closed(s).regions);
  }

  lemma LeaveOne(regions: seq<Region>)
    requires regions != []
    ensures var n := |regions| - 1;
            Leave(Names(regions), n) == [Exit(regions[n].id, regions[n].kind)]
  {
    var n := |regions| - 1;
    assert Leave(Names(regions)[..n], n) == [];
  }

  /** One exit on the way. */
  lemma LeaveStep(s: State, g: Ledger)
    requires Inv(s, g) && Running(s) && |s.regions| >= 2
    ensures var r := s.regions[|s.regions| - 1];
            Leads(Exit(r.id, r.kind), s, g, Closed(s), Settled(g))
    ensures Inv(Closed(s), Settled(g)) && Running(Closed(s)) && Closed(s).max == s.max
    ensures var n := |s.regions| - 1;
            && |Closed(s).regions| == n
            && (forall l: nat | l < n :: Closed(s).regions[l].cp == s.regions[l].cp
                                         && Closed(s).regions[l].id == s.regions[l].id
                                         && Closed(s).regions[l].kind == s.regions[l].kind)
            && (forall l: nat | l + 1 < n :: Closed(s).regions[l] == s.regions[l])
            && (forall l: nat | 0 < l < n :: Slack(Closed(s).regions, l) == Slack(s.regions, l))
  {
    hide RegionsOk, VectorsOk, Stacked, Exited;
    OneExit(s, g);
    CloseKeeps(s, g);
  }

  // ----------------------------------------------------- stamping a register

  /** Time passes and a register is stamped with all of it. */
  function Drive(dest: nat, amount: Time): seq<Call> {
    [Work(amount), Timestamp(dest, [Operand(dest, amount)])]
  }

  lemma LatestOfTwo(a: seq<Time>, row: seq<Time>, offset: Time, l: nat)
    requires l < |a| && l < |row| && row[l] + offset < WORD
    ensures Latest([Source(a, 0), Source(row, offset)], l) == Max(a[l], row[l] + offset)
  {
    var sources := [Source(a, 0), Source(row, offset)];
    assert sources[..1] == [Source(a, 0)] && [Source(a, 0)][..0] == [];
    assert Latest([Source(a, 0)], l) == a[l];
  }

  lemma OneOffset(reg: nat, offset: Time)
    ensures MaxOffset([Operand(reg, offset)]) == offset
  {
    assert [Operand(reg, offset)][..0] == [];
  }

  /** The stamp of a register onto itself. */
  lemma OwnStamp(s: State, dest: nat, offset: Time, d: seq<Time>)
    requires Shape(s) && Register(s, dest) && |d| == Levels(s) <= Top(s).cols
    requires forall l: nat | l < |d| ::
               Top(s).rows[dest][l] + offset < WORD && d[l] == Max(s.cdt[s.readPtr][l], Top(s).rows[dest][l] + offset)
    ensures var u := Update(dest, true, true, None, [Operand(dest, offset)]);
            CanUpdate(u, s) && Stamp(Sources(u, s), Bump(u), Levels(s)) == d
  {
    hide Stacked;
    var u := Update(dest, true, true, None, [Operand(dest, offset)]);
    var row := Top(s).rows[dest];
    assert Sources(u, s) == [Source(s.cdt[s.readPtr], 0), Source(row, offset)];
    forall l: nat | l < |d| ensures Stamp(Sources(u, s), 0, Levels(s))[l] == d[l] {
      LatestOfTwo(s.cdt[s.readPtr], row, offset, l);
    }
  }

  lemma StampStep(s: State, dest: nat, offset: Time, d: seq<Time>)
    requires Shape(s) && Register(s, dest) && |d| == Levels(s) <= Top(s).cols
    requires forall l: nat | l < |d| ::
               Top(s).rows[dest][l] + offset < WORD && d[l] == Max(s.cdt[s.readPtr][l], Top(s).rows[dest][l] + offset)
    ensures var c := Timestamp(dest, [Operand(dest, offset)]);
            Legal(c, s) && Cost(c) == offset && DeepCopies(c, s).NoCopy?
            && After(c, s)
               == s.(frames := WithRow(s.frames, |s.frames| - 1, dest, d), regions := Extended(s.regions, d))
  {
    hide Stacked, Stamp, Sources;
    var c := Timestamp(dest, [Operand(dest, offset)]);
    var u := Update(dest, true, true, None, [Operand(dest, offset)]);
    OwnStamp(s, dest, offset, d);
    OneOffset(dest, offset);
    assert Updates(c) == [u] && CanUpdate(Updates(c)[0], s);
    assert Stamped([u], s) == Stamped([u][1..], Applied(u, s)) == Applied(u, s);
  }

  /** Critical paths once they have taken in a row and an amount of time. */
  ghost predicate Driven(was: seq<Region>, now: seq<Region>, row: seq<Time>, amount: Time, len: nat)
    requires len <= |was| && len <= |row|
  {
    && |now| == |was| && Names(now) == Names(was)
    && (forall l: nat | l < len :: now[l] == was[l].(cp := Max(was[l].cp, row[l] + amount)))
    && (forall l: nat | 0 < l < len :: Slack(now, l) == Slack(was, l))
  }

  /** What a register and the control dependence hold is within bounds. */
  lemma RowFits(s: State, g: Ledger, dest: nat)
    requires Inv(s, g) && Register(s, dest)
    ensures Levels(s) <= Top(s).cols
    ensures forall l: nat | l < Levels(s) ::
              Top(s).rows[dest][l] <= s.time && s.cdt[s.readPtr][l] <= s.regions[l].cp
  {
    hide Stacked, RegionsOk, MemOk, CallersOk;
    TopWide(s);
    assert VecOk(Top(s).rows[dest], Levels(s), Edge(s, g));
    CurrentDependence(s, g);
  }

  /** The time a drive stamps. */
  function DriveTime(s: State, dest: nat, amount: Time): (d: seq<Time>)
    requires Register(s, dest) && Levels(s) <= Top(s).cols && s.max < MAX_LEVEL && s.readPtr < CDT_ROWS
    requires forall l: nat | l < Levels(s) :: Top(s).rows[dest][l] + amount < WORD
    ensures |d| == Levels(s)
  {
    seq(Levels(s), l requires 0 <= l < Levels(s) => Max(s.cdt[s.readPtr][l], Top(s).rows[dest][l] + amount))
  }

  lemma WorkLeads(amount: nat, s: State, g: Ledger)
    requires Shape(s) && |g.bases| == |s.regions| && s.time + amount < WORD
    ensures Leads(Work(amount), s, g, s.(time := s.time + amount), g.(credit := g.credit + amount))
  {
    hide Stacked;
  }

  lemma StampLeads(s: State, g: Ledger, dest: nat, amount: Time, d: seq<Time>)
    requires Shape(s) && Register(s, dest) && |d| == Levels(s) <= Top(s).cols
    requires amount <= g.credit && |g.bases| == |s.regions|
    requires forall l: nat | l < |d| ::
               Top(s).rows[dest][l] + amount < WORD && d[l] == Max(s.cdt[s.readPtr][l], Top(s).rows[dest][l] + amount)
    ensures Leads(Timestamp(dest, [Operand(dest, amount)]), s, g,
                  s.(frames := WithRow(s.frames, |s.frames| - 1, dest, d), regions := Extended(s.regions, d)),
                  g.(credit := g.credit - amount))
  {
    hide Stacked, After, Legal, Cost, DeepCopies, WithRow, Extended;
    StampStep(s, dest, amount, d);
  }

  /** The states that a drive goes through. */
  function Timed(s: State, amount: nat): State {
    s.(time := s.time + amount)
  }

  function DriveEnd(s: State, dest: nat, amount: Time): State
    requires Register(s, dest) && Levels(s) <= Top(s).cols && s.max < MAX_LEVEL && s.readPtr < CDT_ROWS
    requires forall l: nat | l < Levels(s) :: Top(s).rows[dest][l] + amount < WORD
  {
    var d := DriveTime(s, dest, amount);
    Timed(s, amount).(frames := WithRow(s.frames, |s.frames| - 1, dest, d), regions := Extended(s.regions, d))
  }

  lemma DriveLeads(s: State, g: Ledger, dest: nat, amount: Time)
    requires Inv(s, g) && Register(s, dest) && s.time + amount < WORD
    ensures Levels(s) <= Top(s).cols && forall l: nat | l < Levels(s) :: Top(s).rows[dest][l] + amount < WORD
    ensures var g1 := g.(credit := g.credit + amount);
            && Leads(Work(amount), s, g, Timed(s, amount), g1)
            && Leads(Timestamp(dest, [Operand(dest, amount)]), Timed(s, amount), g1, DriveEnd(s, dest, amount), g)
            && Inv(Timed(s, amount), g1) && Inv(DriveEnd(s, dest, amount), g)
  {
    hide Stacked, RegionsOk, VectorsOk, Leads, Extended, WithRow;
    RowFits(s, g, dest);
    var g1 := g.(credit := g.credit + amount);
    WorkKeeps(amount, s, g);
    WorkLeads(amount, s, g);
    StampLeads(Timed(s, amount), g1, dest, amount, DriveTime(s, dest, amount));
    LeadsKeeps(Timestamp(dest, [Operand(dest, amount)]), Timed(s, amount), g1, DriveEnd(s, dest, amount), g);
  }

  lemma LeadsKeeps(c: Call, s: State, g: Ledger, s': State, g': Ledger)
    requires Inv(s, g) && Leads(c, s, g, s', g')
    ensures Inv(s', g')
  {
    hide RegionsOk, VectorsOk, Stacked, Legal, Paid, Charged, After;
    CallKeeps(c, s, g);
  }

  lemma DriveDrives(s: State, g: Ledger, dest: nat, amount: Time)
    requires Inv(s, g) && Register(s, dest) && s.time + amount < WORD && Levels(s) <= Top(s).cols
    requires forall l: nat | l < Levels(s) :: Top(s).rows[dest][l] + amount < WORD
    ensures Driven(s.regions, Extended(s.regions, DriveTime(s, dest, amount)), Top(s).rows[dest], amount, Levels(s))
  {
    hide Stacked, RegionsOk, VectorsOk;
    RowFits(s, g, dest);
    assert Names(Extended(s.regions, DriveTime(s, dest, amount))) == Names(s.regions);
  }

  lemma DriveShows(s: State, g: Ledger, dest: nat, amount: Time, s1: State, s': State,
                   rest: seq<Call>, t: Stat)
    requires Inv(s, g) && Inv(s1, g.(credit := g.credit + amount))
    requires Leads(Work(amount), s, g, s1, g.(credit := g.credit + amount))
    requires Leads(Timestamp(dest, [Operand(dest, amount)]), s1, g.(credit := g.credit + amount), s', g)
    requires RunShows(rest, s', g, t)
    ensures RunShows(Drive(dest, amount) + rest, s, g, t)
  {
    hide Stacked, RegionsOk, VectorsOk, RunShows, Leads;
    var c, g1 := Timestamp(dest, [Operand(dest, amount)]), g.(credit := g.credit + amount);
    CallThenShows(c, rest, s1, g1, s', g, t);
    CallThenShows(Work(amount), [c] + rest, s, g, s1, g1, t);
    assert [Work(amount)] + ([c] + rest) == Drive(dest, amount) + rest;
  }

  /** A register's time drives critical paths until the level above the deepest
      is left, whose record shows it. */
  lemma DrivenReports(s: State, g: Ledger, dest: nat, amount: Time) returns (t: Stat)
    requires Inv(s, g) && Register(s, dest) && s.time + amount < WORD
    requires 0 < s.max < |s.regions|
    ensures Levels(s) <= Top(s).cols
    ensures RunShows(Drive(dest, amount) + Leave(Names(s.regions), s.max - 1), s, g, t)
    ensures Exposes(t, s.regions, s.max, Top(s).rows[dest][s.max - 1], Top(s).rows[dest][s.max], amount)
  {
    hide Stacked, RegionsOk, VectorsOk, RunShows, Leads;
    DriveLeads(s, g, dest, amount);
    DriveDrives(s, g, dest, amount);
    var s' := DriveEnd(s, dest, amount);
    t := LeaveReports(s', g, s.max - 1);
    DriveShows(s, g, dest, amount, Timed(s, amount), s', Leave(Names(s.regions), s.max - 1), t);
  }

  /** The record of level `max - 1` after a register with the two given times at
      the deepest instrumented levels has been driven. */
  ghost predicate Exposes(t: Stat, regions: seq<Region>, max: nat, above: Time, left: Time, amount: Time)
    requires 0 < max < |regions|
  {
    && t.level == max - 1 && t.cp == Max(regions[max - 1].cp, above + amount)
    && t.work + t.childrenCP - t.childrenWork == Slack(regions, max) + Max(regions[max].cp, left + amount)
    && t.childMaxCP == Max(regions[max - 1].childMaxCP, Max(regions[max].cp, left + amount))
  }

  // ------------------------------------------------------------- a deep copy

  /** What can follow a copy: the callee is left if the value went to its
      caller, the register is driven, and regions are left. */
  function Exposure(c: Call, s: State, amount: Time): (r: seq<Call>)
    requires Shape(s) && Legal(c, s) && DeepCopies(c, s).DeepCopy? && s.max > 0
    ensures NoCopies(r)
  {
    var names := Names(s.regions);
    var n := |names| - 1;
    if c.DeqArg? then Drive(c.dest, amount) + Leave(names, s.max - 1)
    else [Exit(names[n].id, names[n].kind)] + (Drive(Caller(s).ret, amount) + Leave(names[..n], s.max - 1))
  }

  /** Whatever the accounts, a deep copy has a continuation whose record at the
      level above the deepest shows the copied time and the one left out. */
  lemma CopyExposed(c: Call, s: State, g: Ledger, amount: Time) returns (t: Stat)
    requires Inv(s, g) && Legal(c, s) && Paid(c, s, g)
    requires DeepCopies(c, s).DeepCopy? && s.max > 0 && s.time + amount < WORD
    ensures RunShows([c] + Exposure(c, s, amount), s, g, t)
    ensures var copy := DeepCopies(c, s);
            Exposes(t, s.regions, s.max, copy.from[s.max - 1], copy.over[s.max], amount)
  {
    hide Stacked, RegionsOk, VectorsOk, RunShows;
    CallKeeps(c, s, g);
    var s1, g1 := After(c, s), Charged(c, s, g);
    assert Leads(c, s, g, s1, g1);
    if c.DeqArg? {
      ArgumentCopied(c.dest, s);
      t := DrivenReports(s1, g1, c.dest, amount);
      CallThenShows(c, Exposure(c, s, amount), s, g, s1, g1, t);
    } else {
      t := ResultExposed(c.src, s, s1, g1, amount);
      CallThenShows(c, Exposure(c, s, amount), s, g, s1, g1, t);
    }
  }

  lemma ResultExposed(src: nat, s: State, s1: State, g1: Ledger, amount: Time) returns (t: Stat)
    requires Shape(s) && Legal(Return(src), s) && Inv(s1, g1) && s1 == Returned(src, s)
    requires DeepCopies(Return(src), s).DeepCopy? && s.max > 0 && s.time + amount < WORD
    ensures RunShows(Exposure(Return(src), s, amount), s1, g1, t)
    ensures var copy := DeepCopies(Return(src), s);
            Exposes(t, s.regions, s.max, copy.from[s.max - 1], copy.over[s.max], amount)
  {
    hide Stacked, RegionsOk, VectorsOk, RunShows, Exposes, Closed, Settled, Names;
    var n := |s.regions| - 1;
    var names := Names(s.regions);
    ResultCopied(src, s);
    LeaveStep(s1, g1);
    var s2, g2 := Closed(s1), Settled(g1);
    NamesFront(s.regions, s2.regions);
    t := DrivenReports(s2, g2, Caller(s).ret, amount);
    var rest := Drive(Caller(s).ret, amount) + Leave(names[..n], s.max - 1);
    CallThenShows(Exit(names[n].id, names[n].kind), rest, s1, g1, s2, g2, t);
    var copy := DeepCopies(Return(src), s);
    ExposesOn(t, s.regions, s2.regions, s.max, copy.from[s.max - 1], copy.over[s.max], amount);
  }

  lemma NamesFront(was: seq<Region>, now: seq<Region>)
    requires |now| < |was| && forall l: nat | l < |now| :: now[l].id == was[l].id && now[l].kind == was[l].kind
    ensures Names(now) == Names(was)[..|now|]
  {
  }

  /** Regions that are left do not matter. */
  lemma ExposesOn(t: Stat, was: seq<Region>, now: seq<Region>, max: nat, above: Time, left: Time, amount: Time)
    requires 0 < max < |now| < |was| && Exposes(t, now, max, above, left, amount)
    requires now[max - 1] == was[max - 1] && now[max].cp == was[max].cp && Slack(now, max) == Slack(was, max)
    ensures Exposes(t, was, max, above, left, amount)
  {
  }

  /** The register an argument was copied to. */
  lemma ArgumentCopied(dest: nat, s: State)
    requires Shape(s) && CanDequeue(dest, s) && DeepCopies(DeqArg(dest), s).DeepCopy?
    ensures var s1 := Dequeued(dest, s); var copy := DeepCopies(DeqArg(dest), s);
            && Register(s1, dest) && s1.regions == s.regions && s1.max == s.max && s1.time == s.time
            && Top(s1).cols == Top(s).cols && s.max < Top(s).cols
            && (s.max > 0 ==> Top(s1).rows[dest][s.max - 1] == copy.from[s.max - 1])
            && Top(s1).rows[dest][s.max] == copy.over[s.max]
  {
    hide Stacked;
    TopWide(s);
    CallWidth(s);
  }

  /** The register a result was copied to, once the callee has been left. */
  lemma ResultCopied(src: nat, s: State)
    requires Shape(s) && Legal(Return(src), s) && DeepCopies(Return(src), s).DeepCopy?
    ensures var s1 := Returned(src, s);
            && Running(s1) && s1.regions == s.regions && s1.max == s.max && s1.time == s.time
            && |s1.frames| == |s.frames| && Shape(s1)
    ensures var s2 := Closed(Returned(src, s)); var copy := DeepCopies(Return(src), s);
            && s2.time == s.time && s2.max == s.max && Register(s2, Caller(s).ret)
            && s.max < Top(s2).cols
            && (s.max > 0 ==> Top(s2).rows[Caller(s).ret][s.max - 1] == copy.from[s.max - 1])
            && Top(s2).rows[Caller(s).ret][s.max] == copy.over[s.max]
  {
    hide Stacked;
    TopWide(s);
    CallerWide(s);
    CallWidth(s);
  }

  // -------------------------------------------------------------- exactness

  /** How long the deepest level needs to catch up with its critical path. */
  function Gap(cp: nat, t: Time): nat {
    if t < cp then cp - t else 0
  }

  /** The clock has room to show what a copy left out. */
  predicate Room(c: Call, s: State)
    requires Shape(s) && Legal(c, s)
  {
    match DeepCopies(c, s)
    case NoCopy => true
    case DeepCopy(from, over) =>
      s.max > 0 ==> && s.time + Gap(s.regions[s.max].cp, over[s.max]) < WORD
                    && s.time + Gap(s.regions[s.max - 1].cp, from[s.max - 1]) < WORD
  }

  /** No run that begins with the call and copies nothing more has a record,
      above the deepest instrumented level, of self-parallelism below one. */
  ghost predicate AlwaysParallel(c: Call, s: State, g: Ledger)
    requires Inv(s, g)
  {
    forall rest: seq<Call> | NoCopies(rest) && CanRun([c] + rest, s, g) ::
      forall t | t in RunStats([c] + rest, s, g) :: t.level < s.max ==> Parallel(t)
  }

  /** Nor one with a child of a longer critical path than its own. */
  ghost predicate AlwaysWithin(c: Call, s: State, g: Ledger)
    requires Inv(s, g)
  {
    forall rest: seq<Call> | NoCopies(rest) && CanRun([c] + rest, s, g) ::
      forall t | t in RunStats([c] + rest, s, g) :: ChildrenWithin(t)
  }

  /** Records after a call that is followed by no copy. */
  lemma AfterwardsOk(c: Call, rest: seq<Call>, s: State, g: Ledger)
    requires Inv(s, g) && CanRun([c] + rest, s, g) && NoCopies(rest) && Legal(c, s) && Paid(c, s, g)
    ensures forall t | t in RunStats([c] + rest, s, g) ::
              StatOk(t, s.max, g.paced && InPace(c, s), g.sorted && InOrder(c, s))
  {
    hide Stacked, RegionsOk, VectorsOk, Legal, Paid, After, Emitted, StatOk, InPace, InOrder;
    RunBounds([c] + rest, s, g);
    CallKeeps(c, s, g);
    assert ([c] + rest)[1..] == rest;
    NoCopiesKeep(rest, After(c, s), Charged(c, s, g));
    FlagsCharged(c, s, g);
    var e := RunLedger([c] + rest, s, g);
    forall t | t in RunStats([c] + rest, s, g)
      ensures StatOk(t, s.max, g.paced && InPace(c, s), g.sorted && InOrder(c, s))
    {
      assert StatOk(t, s.max, e.paced, e.sorted);
    }
  }

  lemma FlagsCharged(c: Call, s: State, g: Ledger)
    requires Shape(s) && Legal(c, s) && Cost(c) <= g.credit && |g.bases| == |s.regions|
    ensures Charged(c, s, g).paced == (g.paced && InPace(c, s))
    ensures Charged(c, s, g).sorted == (g.sorted && InOrder(c, s))
  {
    hide Stacked, Legal, Cost;
  }

  /** What a run of the program may still show, as the accounts see it. */
  lemma CopyWithin(c: Call, s: State, g: Ledger)
    requires Inv(s, g) && Legal(c, s) && DeepCopies(c, s).DeepCopy? && s.max > 0
    ensures DeepCopies(c, s).over[s.max] <= s.regions[s.max].cp
    ensures DeepCopies(c, s).from[s.max - 1] <= s.regions[s.max - 1].cp
  {
    hide Stacked, RegionsOk, MemOk, CdtOk, CallersOk;
    if c.DeqArg? {
      CallerRow(s, g, s.args[s.read]);
      assert VecOk(Top(s).rows[c.dest], Levels(s), Edge(s, g));
    } else {
      CallerRow(s, g, Caller(s).ret);
      assert VecOk(Top(s).rows[c.src], Levels(s), Edge(s, g));
    }
  }

  /** A call keeps self-parallelism, whatever follows short of another copy, if
      and only if it is in pace. */
  lemma PaceExact(c: Call, s: State, g: Ledger)
    requires Inv(s, g) && g.paced && Legal(c, s) && Paid(c, s, g) && Room(c, s)
    ensures InPace(c, s) <==> AlwaysParallel(c, s, g)
  {
    hide Stacked, RegionsOk, VectorsOk, Legal, Paid, CanRun, RunStats;
    if InPace(c, s) {
      forall rest: seq<Call> | NoCopies(rest) && CanRun([c] + rest, s, g)
        ensures forall t | t in RunStats([c] + rest, s, g) :: t.level < s.max ==> Parallel(t)
      {
        AfterwardsOk(c, rest, s, g);
      }
    } else {
      var copy := DeepCopies(c, s);
      CopyWithin(c, s, g);
      var t := CopyExposed(c, s, g, Gap(s.regions[s.max].cp, copy.over[s.max]));
      assert !Parallel(t);
    }
  }

  /** A call keeps children's critical paths within their parents', whatever
      follows short of another copy, if and only if it is in order. */
  lemma OrderExact(c: Call, s: State, g: Ledger)
    requires Inv(s, g) && g.sorted && Legal(c, s) && Paid(c, s, g) && Room(c, s)
    ensures InOrder(c, s) <==> AlwaysWithin(c, s, g)
  {
    hide Stacked, RegionsOk, VectorsOk, Legal, Paid, CanRun, RunStats;
    if InOrder(c, s) {
      forall rest: seq<Call> | NoCopies(rest) && CanRun([c] + rest, s, g)
        ensures forall t | t in RunStats([c] + rest, s, g) :: ChildrenWithin(t)
      {
        AfterwardsOk(c, rest, s, g);
      }
    } else {
      var copy := DeepCopies(c, s);
      CopyWithin(c, s, g);
      var t := CopyExposed(c, s, g, Gap(s.regions[s.max - 1].cp, copy.from[s.max - 1]));
      assert !ChildrenWithin(t);
    }
  }
}
