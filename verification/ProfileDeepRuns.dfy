/** Two runs from a fresh profiler, paid for throughout, that end in records
    the runtime's debug checks reject: a function and a loop, both instrumented,
    and a function called from the loop, which is not. */
module ProfileDeepRuns {
  import opened Delta
  import opened Critical
  import opened Profile
  import opened ProfileBounds
  import opened ProfileRegions
  import opened ProfileRun
  import opened ProfileDeep

  // ------------------------------------------------------------- the calls

  /** The loop computes a value in register 0 and calls. */
  function Outset(): (calls: seq<Call>)
    ensures |calls| == 6
  {
    [Enter(0, Func), PrepRTable(1, 1), Enter(1, Loop), Work(8), Timestamp(0, [Operand(0, 8)]), PrepCall(0)]
  }

  /** The value is passed on, and the callee works with it. */
  function PassedIn(): (calls: seq<Call>)
    ensures |calls| == 4
  {
    [EnqArg(0), Enter(2, Func), PrepRTable(1, 0), DeqArg(0)]
  }

  function AfterArgument(): seq<Call> {
    [Work(10), Timestamp(0, [Operand(0, 10)]), Exit(2, Func), Exit(1, Loop), Exit(0, Func)]
  }

  function ArgumentRun(): seq<Call> {
    Outset() + PassedIn() + AfterArgument()
  }

  /** A value computed from nothing is passed back, and the caller works with it. */
  function PassedBack(): (calls: seq<Call>)
    ensures |calls| == 6
  {
    [LinkReturn(0), Enter(2, Func), PrepRTable(1, 0), Work(1), Timestamp(0, [Operand(0, 1)]), Return(0)]
  }

  function AfterResult(): seq<Call> {
    [Exit(2, Func), Work(100), Timestamp(0, [Operand(0, 100)]), Exit(1, Loop), Exit(0, Func)]
  }

  function ResultRun(): seq<Call> {
    Outset() + PassedBack() + AfterResult()
  }

  // ------------------------------------------------------------ the states

  function At(time: nat, regions: seq<Region>, frames: seq<Frame>, waiting: bool, args: seq<int>): State {
    State(1, time, regions, frames, waiting, args, 0, 0, NoDependences(), 0, map[])
  }

  function Outer(cp: nat): Region {
    Region(0, Func, 0, cp, 0, 0, 0, 0)
  }

  function Inner(cp: nat): Region {
    Region(1, Loop, 0, cp, 0, 0, 0, 0)
  }

  function CallerRow1(ret: int, t: Time): Frame {
    Frame(0, 0, ret, 2, [[t, t]])
  }

  function Callee(row: seq<Time>): Frame
    requires |row| == 3
  {
    Frame(2, 0, -1, 3, [row])
  }

  /** The states of the outset; the last two are the same. */
  function Setting(k: nat): State {
    match k
    case 0 => At(0, [], [], false, [])
    case 1 => At(0, [Outer(0)], [Frame(0, 0, -1, 0, [])], true, [])
    case 2 => At(0, [Outer(0)], [CallerRow1(-1, 0)], false, [])
    case 3 => At(0, [Outer(0), Inner(0)], [CallerRow1(-1, 0)], false, [])
    case 4 => At(8, [Outer(0), Inner(0)], [CallerRow1(-1, 0)], false, [])
    case _ => At(8, [Outer(8), Inner(8)], [CallerRow1(-1, 8)], false, [])
  }

  function SettingAccounts(k: nat): Ledger {
    Ledger(if k == 4 then 8 else 0, if k == 0 then [] else if k <= 2 then [0] else [0, 0], true, true)
  }

  /** The regions during the call. */
  function Within(): seq<Region> {
    [Outer(8), Inner(8), Opened(2, Func, 8)]
  }

  function Passing(k: nat): State {
    match k
    case 0 => At(8, [Outer(8), Inner(8)], [CallerRow1(-1, 8)], false, [])
    case 1 => At(8, [Outer(8), Inner(8)], [CallerRow1(-1, 8)], false, [0])
    case 2 => At(8, Within(), [CallerRow1(-1, 8), Frame(2, 0, -1, 0, [])], true, [0])
    case _ => At(8, Within(), [CallerRow1(-1, 8), Callee([0, 0, 0])], false, [0])
  }

  function PassingAccounts(k: nat): Ledger {
    Ledger(0, if k <= 1 then [0, 0] else [0, 0, 0], true, true)
  }

  function Returning(k: nat): State {
    match k
    case 0 => At(8, [Outer(8), Inner(8)], [CallerRow1(-1, 8)], false, [])
    case 1 => At(8, [Outer(8), Inner(8)], [CallerRow1(0, 8)], false, [])
    case 2 => At(8, Within(), [CallerRow1(0, 8), Frame(2, 0, -1, 0, [])], true, [])
    case 3 => At(8, Within(), [CallerRow1(0, 8), Callee([0, 0, 0])], false, [])
    case 4 => At(9, Within(), [CallerRow1(0, 8), Callee([0, 0, 0])], false, [])
    case _ => At(9, Within(), [CallerRow1(0, 8), Callee([1, 1, 0])], false, [])
  }

  function ReturningAccounts(k: nat): Ledger {
    Ledger(if k == 4 then 1 else 0, if k <= 1 then [0, 0] else [0, 0, 0], true, true)
  }

  // ------------------------------------------------------------- the steps

  lemma NoDependenceHere(level: nat)
    requires level < MAX_LEVEL
    ensures NoDependences()[0 := NoDependences()[0][level := 0]] == NoDependences()
  {
    assert NoDependences()[0][level := 0] == NoDependences()[0];
  }

  lemma EnterStep(id: nat, kind: Kind, s: State)
    requires Shape(s) && CanEnter(kind, s) && s.cdt == NoDependences() && s.readPtr == 0 && s.mem == map[]
    ensures var r := Entered(id, kind, s);
            && r.cdt == s.cdt && r.mem == s.mem && r.regions == s.regions + [Opened(id, kind, s.time)]
            && (kind.Func? ==> r.frames == s.frames + [Frame(|s.regions|, s.callSite, -1, 0, [])])
  {
    hide Stacked;
    if |s.regions| <= s.max {
      NoDependenceHere(|s.regions|);
    }
  }

  /** Frames with one register. */
  lemma SameRow(f: Frame, f': Frame, row: seq<Time>)
    requires f == f'.(rows := f.rows) && |f.rows| == |f'.rows| == 1 && f.rows[0] == f'.rows[0] == row
    ensures f == f'
  {
  }

  lemma RowPut(frames: seq<Frame>, f: Frame, was: seq<Time>, d: seq<Time>, row: seq<Time>)
    requires |d| <= |was| == f.cols && f.rows == [was] && row == d + was[|d|..]
    ensures WithRow(frames + [f], |frames|, 0, d) == frames + [f.(rows := [row])]
  {
    var g: Frame := f.(rows := [row]);
    var r := WithRow(frames + [f], |frames|, 0, d);
    SameRow(r[|frames|], g, row);
    assert r == frames + [g];
  }

  /** Stamping register 0 where there is no control dependence. */
  lemma StampZero(s: State, offset: Time, d: seq<Time>)
    requires Shape(s) && Register(s, 0) && s.cdt == NoDependences() && s.readPtr == 0
    requires |d| == Levels(s) <= Top(s).cols && forall l: nat | l < |d| :: d[l] == Top(s).rows[0][l] + offset
    ensures var c := Timestamp(0, [Operand(0, offset)]);
            && Legal(c, s) && Cost(c) == offset && DeepCopies(c, s).NoCopy?
            && After(c, s) == s.(frames := WithRow(s.frames, |s.frames| - 1, 0, d), regions := Extended(s.regions, d))
  {
    hide Stacked, NoDependences, After, Legal, Cost, DeepCopies;
    assert s.cdt[0] == ZeroRow(MAX_LEVEL);
    StampStep(s, 0, offset, d);
  }

  lemma ZeroStampLeads(s: State, g: Ledger, offset: Time, d: seq<Time>, regions: seq<Region>, frames: seq<Frame>)
    requires Shape(s) && Register(s, 0) && s.cdt == NoDependences() && s.readPtr == 0
    requires |d| == Levels(s) <= Top(s).cols && forall l: nat | l < |d| :: d[l] == Top(s).rows[0][l] + offset
    requires offset <= g.credit && |g.bases| == |s.regions|
    requires regions == Extended(s.regions, d) && frames == WithRow(s.frames, |s.frames| - 1, 0, d)
    ensures Leads(Timestamp(0, [Operand(0, offset)]), s, g,
                  s.(regions := regions, frames := frames), g.(credit := g.credit - offset))
  {
    hide Stacked, NoDependences, After, Legal, Cost, DeepCopies, WithRow, Extended;
    StampZero(s, offset, d);
  }

  lemma FreshTable(regs: nat, nested: nat, s: State, f: Frame, row: seq<Time>)
    requires Shape(s) && s.waiting && regs == 1 && s.frames != []
    requires |row| == |s.regions| + nested && forall l: nat | l < |row| :: row[l] == 0
    requires f == Activation.Frame(Top(s).level, Top(s).callSite, Top(s).ret, |row|, [row])
    ensures Prepared(regs, nested, s) == s.(waiting := false, frames := s.frames[|s.frames| - 1 := f])
  {
    hide Stacked;
    var r := Prepared(regs, nested, s);
    assert Top(r).rows[0] == row;
    SameRow(Top(r), f, row);
  }

  /** Calls between functions other than the copies cost nothing. */
  lemma LinkLeads(c: Call, s: State, g: Ledger, s': State)
    requires Shape(s) && |g.bases| == |s.regions| && Legal(c, s)
    requires Links(c) && !c.DeqArg? && !c.Return? && !c.PopCDep? && AfterLink(c, s) == s'
    ensures Leads(c, s, g, s', g)
  {
    hide Stacked, Legal, AfterLink;
    AfterLinks(c, s);
  }

  lemma TableLeads(nested: nat, s: State, g: Ledger, s': State, f: Frame, row: seq<Time>)
    requires Shape(s) && s.waiting && s.frames != [] && |g.bases| == |s.regions|
    requires |row| == |s.regions| + nested && forall l: nat | l < |row| :: row[l] == 0
    requires f == Activation.Frame(Top(s).level, Top(s).callSite, Top(s).ret, |row|, [row])
    requires s' == s.(waiting := false, frames := s.frames[|s.frames| - 1 := f])
    ensures Leads(PrepRTable(1, nested), s, g, s', g)
  {
    hide Stacked, Prepared, Leads;
    FreshTable(1, nested, s, f, row);
    LinkLeads(PrepRTable(1, nested), s, g, s');
  }

  lemma Outset0()
    requires Shape(Setting(0))
    ensures Leads(Outset()[0], Setting(0), SettingAccounts(0), Setting(1), SettingAccounts(1))
  {
    hide Stacked;
    EnterStep(0, Func, Setting(0));
  }

  lemma Outset1()
    requires Shape(Setting(1))
    ensures Leads(Outset()[1], Setting(1), SettingAccounts(1), Setting(2), SettingAccounts(2))
  {
    hide Stacked, Leads;
    TableLeads(1, Setting(1), SettingAccounts(1), Setting(2), CallerRow1(-1, 0), [0, 0]);
  }

  lemma Outset2()
    requires Shape(Setting(2))
    ensures Leads(Outset()[2], Setting(2), SettingAccounts(2), Setting(3), SettingAccounts(3))
  {
    hide Stacked;
    EnterStep(1, Loop, Setting(2));
    SameRow(ZeroedAt(CallerRow1(-1, 0), 1), CallerRow1(-1, 0), [0, 0]);
  }

  lemma Outset4()
    requires Shape(Setting(4))
    ensures Leads(Outset()[4], Setting(4), SettingAccounts(4), Setting(5), SettingAccounts(5))
  {
    hide Stacked, Leads, NoDependences, WithRow;
    assert Extended([Outer(0), Inner(0)], [8, 8]) == [Outer(8), Inner(8)];
    RowPut([], CallerRow1(-1, 0), [0, 0], [8, 8], [8, 8]);
    assert [] + [CallerRow1(-1, 0)] == Setting(4).frames && [] + [CallerRow1(-1, 8)] == Setting(5).frames;
    ZeroStampLeads(Setting(4), SettingAccounts(4), 8, [8, 8], Setting(5).regions, Setting(5).frames);
  }

  lemma Outset3()
    requires Shape(Setting(3))
    ensures Leads(Outset()[3], Setting(3), SettingAccounts(3), Setting(4), SettingAccounts(4))
  {
    hide Stacked, Leads, NoDependences;
    WorkLeads(8, Setting(3), SettingAccounts(3));
  }

  lemma Outset5()
    requires Shape(Setting(5))
    ensures Leads(Outset()[5], Setting(5), SettingAccounts(5), Setting(6), SettingAccounts(6))
  {
    hide Stacked, Leads, NoDependences;
    LinkLeads(PrepCall(0), Setting(5), SettingAccounts(5), Setting(6));
  }

  lemma OutsetLeads(k: nat)
    requires k < 6 && Shape(Setting(k))
    ensures Leads(Outset()[k], Setting(k), SettingAccounts(k), Setting(k + 1), SettingAccounts(k + 1))
  {
    hide Leads, Setting, SettingAccounts, Shape;
    if k == 0 { Outset0(); }
    else if k == 1 { Outset1(); }
    else if k == 2 { Outset2(); }
    else if k == 4 { Outset4(); }
    else if k == 3 { Outset3(); }
    else { Outset5(); }
  }

  lemma Passing0()
    requires Shape(Passing(0))
    ensures Leads(PassedIn()[0], Passing(0), PassingAccounts(0), Passing(1), PassingAccounts(1))
  {
    hide Stacked, Leads, NoDependences;
    LinkLeads(EnqArg(0), Passing(0), PassingAccounts(0), Passing(1));
  }

  lemma Passing1()
    requires Shape(Passing(1))
    ensures Leads(PassedIn()[1], Passing(1), PassingAccounts(1), Passing(2), PassingAccounts(2))
  {
    hide Stacked;
    EnterStep(2, Func, Passing(1));
  }

  lemma Passing2()
    requires Shape(Passing(2))
    ensures Leads(PassedIn()[2], Passing(2), PassingAccounts(2), Passing(3), PassingAccounts(3))
  {
    hide Stacked, Leads, NoDependences;
    TableLeads(0, Passing(2), PassingAccounts(2), Passing(3), Callee([0, 0, 0]), [0, 0, 0]);
  }

  lemma PassingLeads(k: nat)
    requires k < 3 && Shape(Passing(k))
    ensures Leads(PassedIn()[k], Passing(k), PassingAccounts(k), Passing(k + 1), PassingAccounts(k + 1))
  {
    hide Leads, Passing, PassingAccounts, Shape;
    if k == 0 { Passing0(); }
    else if k == 1 { Passing1(); }
    else { Passing2(); }
  }

  lemma Returning0()
    requires Shape(Returning(0))
    ensures Leads(PassedBack()[0], Returning(0), ReturningAccounts(0), Returning(1), ReturningAccounts(1))
  {
    hide Stacked, Leads, NoDependences;
    LinkLeads(LinkReturn(0), Returning(0), ReturningAccounts(0), Returning(1));
  }

  lemma Returning1()
    requires Shape(Returning(1))
    ensures Leads(PassedBack()[1], Returning(1), ReturningAccounts(1), Returning(2), ReturningAccounts(2))
  {
    hide Stacked;
    EnterStep(2, Func, Returning(1));
  }

  lemma Returning2()
    requires Shape(Returning(2))
    ensures Leads(PassedBack()[2], Returning(2), ReturningAccounts(2), Returning(3), ReturningAccounts(3))
  {
    hide Stacked, Leads, NoDependences;
    TableLeads(0, Returning(2), ReturningAccounts(2), Returning(3), Callee([0, 0, 0]), [0, 0, 0]);
  }

  lemma Returning3()
    requires Shape(Returning(3))
    ensures Leads(PassedBack()[3], Returning(3), ReturningAccounts(3), Returning(4), ReturningAccounts(4))
  {
    hide Stacked, Leads, NoDependences;
    WorkLeads(1, Returning(3), ReturningAccounts(3));
  }

  lemma Returning4()
    requires Shape(Returning(4))
    ensures Leads(PassedBack()[4], Returning(4), ReturningAccounts(4), Returning(5), ReturningAccounts(5))
  {
    hide Stacked, Leads, NoDependences, WithRow;
    assert Extended(Within(), [1, 1]) == Within();
    RowPut([CallerRow1(0, 8)], Callee([0, 0, 0]), [0, 0, 0], [1, 1], [1, 1, 0]);
    assert [CallerRow1(0, 8)] + [Callee([0, 0, 0])] == Returning(4).frames;
    assert [CallerRow1(0, 8)] + [Callee([1, 1, 0])] == Returning(5).frames;
    ZeroStampLeads(Returning(4), ReturningAccounts(4), 1, [1, 1], Within(), Returning(5).frames);
  }

  lemma ReturningLeads(k: nat)
    requires k < 5 && Shape(Returning(k))
    ensures Leads(PassedBack()[k], Returning(k), ReturningAccounts(k), Returning(k + 1), ReturningAccounts(k + 1))
  {
    hide Leads, Returning, ReturningAccounts, Shape;
    if k == 0 { Returning0(); }
    else if k == 1 { Returning1(); }
    else if k == 2 { Returning2(); }
    else if k == 3 { Returning3(); }
    else { Returning4(); }
  }

  // --------------------------------------------------------------- the runs

  lemma {:induction false} OutsetShows(k: nat, rest: seq<Call>, t: Stat)
    requires k <= 6 && Inv(Setting(k), SettingAccounts(k))
    requires RunShows(rest, Setting(6), SettingAccounts(6), t)
    ensures RunShows(Outset()[k..] + rest, Setting(k), SettingAccounts(k), t)
    decreases 6 - k
  {
    hide Setting, SettingAccounts, Outset, RunShows, Leads, RegionsOk, VectorsOk, Stacked;
    if k == 6 {
      assert Outset()[6..] + rest == rest;
    } else {
      OutsetLeads(k);
      LeadsKeeps(Outset()[k], Setting(k), SettingAccounts(k), Setting(k + 1), SettingAccounts(k + 1));
      OutsetShows(k + 1, rest, t);
      CallThenShows(Outset()[k], Outset()[k + 1..] + rest, Setting(k), SettingAccounts(k), Setting(k + 1),
        SettingAccounts(k + 1), t);
      assert Outset()[k..] + rest == [Outset()[k]] + (Outset()[k + 1..] + rest);
    }
  }

  /** The level-0 record says the program ran faster than its critical path. */
  ghost predicate NotParallel(t: Stat) {
    t.level == 0 && t.cp == 18 && t.work + t.childrenCP - t.childrenWork == 10
  }

  /** The level-0 record has a child with a longer critical path. */
  ghost predicate NotWithin(t: Stat) {
    t.level == 0 && t.cp == 101 && t.childMaxCP == 108
  }

  lemma {:induction false} PassingShows(k: nat) returns (t: Stat)
    requires k <= 3 && Inv(Passing(k), PassingAccounts(k))
    ensures RunShows(PassedIn()[k..] + AfterArgument(), Passing(k), PassingAccounts(k), t) && NotParallel(t)
    decreases 3 - k
  {
    hide Passing, PassingAccounts, PassedIn, AfterArgument, RunShows, Leads, RegionsOk, VectorsOk, Stacked, NotParallel;
    var rest := AfterArgument();
    if k == 3 {
      t := ArgumentShows();
    } else {
      PassingLeads(k);
      LeadsKeeps(PassedIn()[k], Passing(k), PassingAccounts(k), Passing(k + 1), PassingAccounts(k + 1));
      t := PassingShows(k + 1);
      CallThenShows(PassedIn()[k], PassedIn()[k + 1..] + rest, Passing(k), PassingAccounts(k), Passing(k + 1),
        PassingAccounts(k + 1), t);
      assert PassedIn()[k..] + rest == [PassedIn()[k]] + (PassedIn()[k + 1..] + rest);
    }
  }

  /** The argument, copied without the loop's own time, shows. */
  lemma ArgumentShows() returns (t: Stat)
    requires Inv(Passing(3), PassingAccounts(3))
    ensures RunShows(PassedIn()[3..] + AfterArgument(), Passing(3), PassingAccounts(3), t) && NotParallel(t)
  {
    hide Stacked, RegionsOk, VectorsOk, RunShows;
    var s, g := Passing(3), PassingAccounts(3);
    ArgumentCopy();
    t := CopyExposed(DeqArg(0), s, g, 10);
    ArgumentRest();
    assert PassedIn()[3..] + AfterArgument() == [DeqArg(0)] + Exposure(DeqArg(0), s, 10);
  }

  lemma ArgumentCopy()
    requires Shape(Passing(3))
    ensures var s := Passing(3);
            && Legal(DeqArg(0), s) && Paid(DeqArg(0), s, PassingAccounts(3))
            && DeepCopies(DeqArg(0), s) == DeepCopy([8, 8], [0, 0, 0])
  {
    hide Stacked;
  }

  lemma ArgumentRest()
    requires Shape(Passing(3)) && Legal(DeqArg(0), Passing(3)) && DeepCopies(DeqArg(0), Passing(3)).DeepCopy?
    ensures AfterArgument() == Exposure(DeqArg(0), Passing(3), 10)
  {
    hide Stacked, Legal, DeepCopies;
    LeaveThree(Names(Within()));
  }

  /** The exits of the three regions, or the outer two. */
  lemma LeaveThree(names: seq<Name>)
    requires names == [Name(0, Func), Name(1, Loop), Name(2, Func)]
    ensures Leave(names, 0) == [Exit(2, Func), Exit(1, Loop), Exit(0, Func)]
    ensures Leave(names[..2], 0) == [Exit(1, Loop), Exit(0, Func)]
  {
    assert names[..2] == [Name(0, Func), Name(1, Loop)];
    assert names[..2][..1] == [Name(0, Func)];
    assert names[..2][..1][..0] == [];
    assert Leave(names[..2][..1], 0) == [Exit(0, Func)];
  }

  lemma {:induction false} ReturningShows(k: nat) returns (t: Stat)
    requires k <= 5 && Inv(Returning(k), ReturningAccounts(k))
    ensures RunShows(PassedBack()[k..] + AfterResult(), Returning(k), ReturningAccounts(k), t) && NotWithin(t)
    decreases 5 - k
  {
    hide Returning, ReturningAccounts, PassedBack, AfterResult, RunShows, Leads, RegionsOk, VectorsOk, Stacked,
      NotWithin;
    var rest := AfterResult();
    if k == 5 {
      t := ResultShows();
    } else {
      ReturningLeads(k);
      LeadsKeeps(PassedBack()[k], Returning(k), ReturningAccounts(k), Returning(k + 1), ReturningAccounts(k + 1));
      t := ReturningShows(k + 1);
      CallThenShows(PassedBack()[k], PassedBack()[k + 1..] + rest,
                    Returning(k), ReturningAccounts(k), Returning(k + 1), ReturningAccounts(k + 1), t);
      assert PassedBack()[k..] + rest == [PassedBack()[k]] + (PassedBack()[k + 1..] + rest);
    }
  }

  /** The result, copied over the outer level only, shows. */
  lemma ResultShows() returns (t: Stat)
    requires Inv(Returning(5), ReturningAccounts(5))
    ensures RunShows(PassedBack()[5..] + AfterResult(), Returning(5), ReturningAccounts(5), t) && NotWithin(t)
  {
    hide Stacked, RegionsOk, VectorsOk, RunShows;
    var s, g := Returning(5), ReturningAccounts(5);
    ResultCopy();
    t := CopyExposed(Return(0), s, g, 100);
    ResultRest();
    assert PassedBack()[5..] + AfterResult() == [Return(0)] + Exposure(Return(0), s, 100);
  }

  lemma ResultCopy()
    requires Shape(Returning(5))
    ensures var s := Returning(5);
            && Legal(Return(0), s) && Paid(Return(0), s, ReturningAccounts(5))
            && DeepCopies(Return(0), s) == DeepCopy([1, 1, 0], [8, 8])
  {
    hide Stacked;
  }

  lemma ResultRest()
    requires Shape(Returning(5)) && Legal(Return(0), Returning(5)) && DeepCopies(Return(0), Returning(5)).DeepCopy?
    ensures AfterResult() == Exposure(Return(0), Returning(5), 100)
  {
    hide Stacked, Legal, DeepCopies;
    LeaveThree(Names(Within()));
  }

  lemma Start()
    ensures Setting(0) == Initial(1) && SettingAccounts(0) == Ledger(0, [], true, true)
    ensures Setting(6) == Passing(0) == Returning(0)
    ensures SettingAccounts(6) == PassingAccounts(0) == ReturningAccounts(0)
    ensures Inv(Setting(0), SettingAccounts(0))
  {
    hide NoDependences, Inv;
    InitiallyOk(1);
  }

  /** An argument passed below the instrumented levels: the record of the outer
      function has self-parallelism below one. */
  lemma ArgumentRunFails() returns (t: Stat)
    ensures RunShows(ArgumentRun(), Initial(1), Ledger(0, [], true, true), t)
    ensures t.level < 1 && !Parallel(t)
  {
    hide Setting, Passing, SettingAccounts, PassingAccounts, NoDependences, RunShows, Inv;
    Start();
    SettingKept(6);
    t := PassingShows(0);
    OutsetShows(0, PassedIn()[0..] + AfterArgument(), t);
    assert ArgumentRun() == Outset()[0..] + (PassedIn()[0..] + AfterArgument());
  }

  /** Every state of the outset satisfies the invariant. */
  lemma {:induction false} SettingKept(k: nat)
    requires k <= 6
    ensures Inv(Setting(k), SettingAccounts(k))
  {
    hide Setting, SettingAccounts, Outset, Leads, RegionsOk, VectorsOk, Stacked;
    if k == 0 {
      Start();
    } else {
      SettingKept(k - 1);
      OutsetLeads(k - 1);
      LeadsKeeps(Outset()[k - 1], Setting(k - 1), SettingAccounts(k - 1), Setting(k), SettingAccounts(k));
    }
  }

  /** A result passed back from below the instrumented levels: the record of the
      outer function has a child with a longer critical path, and the difference
      that decides the doall flag wraps around. */
  lemma ResultRunFails() returns (t: Stat)
    ensures RunShows(ResultRun(), Initial(1), Ledger(0, [], true, true), t)
    ensures !ChildrenWithin(t) && Wrapped(t.cp - t.childMaxCP) == WORD - 7
  {
    hide Setting, Returning, SettingAccounts, ReturningAccounts, NoDependences, RunShows, Inv;
    Start();
    SettingKept(6);
    t := ReturningShows(0);
    OutsetShows(0, PassedBack()[0..] + AfterResult(), t);
    assert ResultRun() == Outset()[0..] + (PassedBack()[0..] + AfterResult());
  }
}
