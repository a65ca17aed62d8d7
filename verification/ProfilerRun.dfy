/** Whole runs of the profiler object over versioned shadow memory. */
module ProfilerRun {
  import opened Common
  import opened Delta
  import opened Critical
  import opened Profile
  import opened ProfileBounds
  import opened ProfileRegions
  import opened ProfileRun
  import opened ProfileTree
  import opened Profilers
  import ShadowSpec
  import SkaduRun

  /** A profiler and its shadow memory, which stand at the same depth; memory
      holds what the profiler takes it to hold. */
  ghost predicate Together(p: Profiler, m: SkaduRun.Session)
    reads p, p.argQueue, m, m.shadow.store, m.shadow.store.pages.Values, m.shadow.store.buffer,
          m.shadow.store.buffer.Tables()
  {
    && p.Valid() && m.Valid()
    && m.mem == p.mem && m.depth == p.currLevel + 1 && m.levels == p.max + 1
  }

  method Stamps(p: Profiler, us: seq<Update>)
    requires p.Valid() && forall i: nat | i < |us| :: CanUpdate(us[i], p.View()) && us[i].addr.None?
    modifies p, p.argQueue, p.levelTimes
    ensures p.Valid() && p.View() == Stamped(us, old(p.View())) && p.currLevel == old(p.currLevel)
    decreases |us|
  {
    hide Stacked, Applied, Sources;
    if us != [] {
      assert CanUpdate(us[0], p.View());
      AllUpdate(us, p.View(), Applied(us[0], p.View()));
      p.TimestampUpdater(us[0], []);
      Stamps(p, us[1..]);
    }
  }

  method Link(p: Profiler, c: Call)
    requires p.Valid() && Legal(c, p.View()) && Links(c)
    modifies p, p.argQueue, p.levelTimes
    ensures p.Valid() && p.View() == AfterLink(c, old(p.View()))
  {
    hide Stacked;
    match c
    case PushCDep(cond) => p.HandlePushCDep(cond);
    case PopCDep => p.HandlePopCDep();
    case PrepCall(site) => p.HandlePrepCall(site);
    case EnqArg(reg) => p.HandleEnqueueArgument(reg);
    case EnqArgConst => p.HandleEnqueueArgument(DUMMY_ARG);
    case DeqArg(dest) => p.HandleDequeueArgument(dest);
    case PrepRTable(regs, nested) => p.HandlePrepRTable(regs, nested);
    case LinkReturn(dest) => p.HandleLinkReturn(dest);
    case Return(src) => p.HandleReturn(src);
    case ReturnConst => p.HandleReturnConst();
  }

  /** Shadow memory's answer to a load, as the profiler expects it. */
  method Answer(p: Profiler, m: SkaduRun.Session, addr: nat) returns (times: seq<Time>)
    requires Together(p, m)
    modifies m, m.shadow.store, m.shadow.store.pages.Values, m.shadow.store.buffer
    ensures forall q | q in m.shadow.store.pages ::
              fresh(m.shadow.store.pages[q])
              || (q in old(m.shadow.store.pages) && m.shadow.store.pages[q] == old(m.shadow.store.pages)[q])
    ensures Together(p, m) && p.View() == old(p.View())
    ensures p.levels < MAX_LEVEL && times == ShadowSpec.Read(p.mem, ShadowSpec.Cell(addr), p.levels)
  {
    hide Shape;
    times := m.Load(addr);
  }

  /** The updater, which takes no notice of shadow memory. */
  method Take(p: Profiler, m: SkaduRun.Session, u: Update, times: seq<Time>)
    requires Together(p, m) && CanUpdate(u, p.View())
    requires times == if u.addr.Some? then ShadowSpec.Read(p.mem, ShadowSpec.Cell(u.addr.value), p.levels) else []
    modifies p, p.argQueue, p.levelTimes
    ensures Together(p, m) && p.View() == Applied(u, old(p.View()))
  {
    hide Stacked, Applied;
    p.TimestampUpdater(u, times);
  }

  /** A load: shadow memory answers, the updater takes the answer in. */
  method LoadCall(p: Profiler, m: SkaduRun.Session, c: Call)
    requires Together(p, m) && Legal(c, p.View()) && c.Load?
    modifies p, p.argQueue, p.levelTimes, m, m.shadow.store, m.shadow.store.pages.Values, m.shadow.store.buffer
    ensures forall q | q in m.shadow.store.pages ::
              fresh(m.shadow.store.pages[q])
              || (q in old(m.shadow.store.pages) && m.shadow.store.pages[q] == old(m.shadow.store.pages)[q])
    ensures Together(p, m) && p.View() == After(c, old(p.View()))
  {
    hide Stacked, Applied, Sources;
    ghost var s := p.View();
    LoadIs(c, s);
    var times := Answer(p, m, c.addr);
    Take(p, m, Updates(c)[0], times);
  }

  lemma LoadIs(c: Call, s: State)
    requires Shape(s) && Legal(c, s) && c.Load?
    ensures CanUpdate(Updates(c)[0], s) && Updates(c)[0].addr == Some(c.addr)
    ensures After(c, s) == Applied(Updates(c)[0], s)
  {
    hide Stacked, Applied;
    UpdatesLegal(c, s);
    var u := Updates(c)[0];
    assert CanUpdate(Updates(c)[0], s);
    assert Stamped([u], s) == Stamped([u][1..], Applied(u, s)) == Applied(u, s);
  }

  /** A store: the updater says what to write, shadow memory writes it. */
  method StoreCall(p: Profiler, m: SkaduRun.Session, src: Option<nat>, addr: nat, collect: bool)
    requires Together(p, m) && Running(p.View()) && (src.Some? ==> Register(p.View(), src.value))
    modifies p, p.argQueue, p.levelTimes, m, m.shadow.store, m.shadow.store.pages.Values, m.shadow.store.buffer
    ensures forall q | q in m.shadow.store.pages ::
              fresh(m.shadow.store.pages[q])
              || (q in old(m.shadow.store.pages) && m.shadow.store.pages[q] == old(m.shadow.store.pages)[q])
    ensures Together(p, m) && p.View() == StoredTo(src, addr, old(p.View()))
  {
    hide Stacked, StoredTo;
    var times := Bring(p, m, src, addr);
    Put(p, m, addr, times, collect);
  }

  method Bring(p: Profiler, m: SkaduRun.Session, src: Option<nat>, addr: nat) returns (times: seq<Time>)
    requires Together(p, m) && Running(p.View()) && (src.Some? ==> Register(p.View(), src.value))
    modifies p, p.argQueue, p.levelTimes
    ensures p.Valid() && p.View() == StoredTo(src, addr, old(p.View())) && p.currLevel == old(p.currLevel)
    ensures |times| == p.levels < MAX_LEVEL && p.mem == ShadowSpec.Written(old(p.mem), ShadowSpec.Cell(addr), times)
  {
    hide Stacked, StoredTo;
    times := p.TimestampUpdaterStore(src, addr);
    assert |p.View().regions| == |old(p.View()).regions| by {
      SameDepth(src, addr, old(p.View()));
    }
  }

  lemma SameDepth(src: Option<nat>, addr: nat, s: State)
    requires Shape(s) && Running(s) && (src.Some? ==> Register(s, src.value))
    ensures |StoredTo(src, addr, s).regions| == |s.regions|
  {
  }

  method Put(p: Profiler, m: SkaduRun.Session, addr: nat, times: seq<Time>, collect: bool)
    requires p.Valid() && m.Valid() && m.depth == p.currLevel + 1 && m.levels == p.max + 1
    requires |times| == p.levels < MAX_LEVEL && p.mem == ShadowSpec.Written(m.mem, ShadowSpec.Cell(addr), times)
    modifies m, m.shadow.store, m.shadow.store.pages.Values, m.shadow.store.buffer
    ensures forall q | q in m.shadow.store.pages ::
              fresh(m.shadow.store.pages[q])
              || (q in old(m.shadow.store.pages) && m.shadow.store.pages[q] == old(m.shadow.store.pages)[q])
    ensures Together(p, m) && p.View() == old(p.View())
  {
    hide Shape;
    m.Store(addr, times, collect);
  }

  /** Calls that leave regions; shadow memory takes no notice of an exit. */
  method LeaveCall(p: Profiler, m: SkaduRun.Session, c: Call) returns (stats: seq<Stat>)
    requires Together(p, m) && Legal(c, p.View()) && (c.Exit? || c.LandingPad?)
    modifies p, p.argQueue, p.levelTimes, m
    ensures Together(p, m) && p.View() == After(c, old(p.View())) && stats == Emitted(c, old(p.View()))
  {
    hide Shape, After, Emitted, Legal, Closed, Exited, Deepest;
    Leaves(c, p.View());
    if c.Exit? {
      var stat := p.HandleRegionExit();
      stats := [stat];
    } else {
      stats := p.HandleLandingPad(c.id);
    }
    Left(c, old(p.View()));
    Follow(p, m);
  }

  lemma Leaves(c: Call, s: State)
    requires Shape(s) && Legal(c, s) && (c.Exit? || c.LandingPad?)
    ensures Running(s)
    ensures if c.Exit? then After(c, s) == Closed(s) && Emitted(c, s) == [Exited(s)]
            else c == LandingPad(c.id) && Deepest(s.regions, c.id) >= 0
  {
    hide Shape;
  }

  lemma Left(c: Call, s: State)
    requires Shape(s) && Legal(c, s) && (c.Exit? || c.LandingPad?)
    ensures |After(c, s).regions| <= |s.regions| && After(c, s).mem == s.mem
  {
    hide Stacked;
    if c.LandingPad? {
      UnwoundMemory(s, Deepest(s.regions, c.id));
    }
  }

  lemma {:induction false} UnwoundMemory(s: State, target: nat)
    requires Shape(s) && Running(s) && target < |s.regions|
    ensures Unwound(s, target).mem == s.mem
    decreases |s.regions|
  {
    hide Stacked;
    if |s.regions| > target + 1 {
      UnwoundMemory(Closed(s), target);
    }
  }

  method Follow(p: Profiler, m: SkaduRun.Session)
    requires p.Valid() && m.Valid() && m.mem == p.mem && m.levels == p.max + 1 && p.currLevel + 1 <= m.depth
    modifies m
    ensures Together(p, m) && p.View() == old(p.View())
  {
    hide Shape;
    while m.depth > p.currLevel + 1
      invariant m.Valid() && m.mem == p.mem && p.currLevel + 1 <= m.depth
      decreases m.depth
    {
      m.Exit();
    }
  }

  method EnterCall(p: Profiler, m: SkaduRun.Session, id: nat, kind: Kind)
    requires Together(p, m) && CanEnter(kind, p.View())
    modifies p, p.argQueue, p.levelTimes, m
    ensures Together(p, m) && p.View() == Entered(id, kind, old(p.View()))
  {
    hide Stacked, Entered;
    ghost var s := p.View();
    EnteredParts(id, kind, s);
    p.HandleRegionEntry(id, kind);
    m.Enter();
  }

  method RegionCall(p: Profiler, m: SkaduRun.Session, c: Call, collect: bool) returns (stats: seq<Stat>)
    requires Together(p, m) && Legal(c, p.View()) && !Links(c) && Updates(c) == []
    modifies p, p.argQueue, p.levelTimes, m, m.shadow.store, m.shadow.store.pages.Values, m.shadow.store.buffer
    ensures forall q | q in m.shadow.store.pages ::
              fresh(m.shadow.store.pages[q])
              || (q in old(m.shadow.store.pages) && m.shadow.store.pages[q] == old(m.shadow.store.pages)[q])
    ensures Together(p, m) && p.View() == After(c, old(p.View())) && stats == Emitted(c, old(p.View()))
  {
    hide Stacked, Entered, StoredTo;
    stats := [];
    match c
    case Work(amount) => p.IncreaseTime(amount);
    case Enter(id, kind) => EnterCall(p, m, id, kind);
    case Exit(_, _) => stats := LeaveCall(p, m, c);
    case LandingPad(_) => stats := LeaveCall(p, m, c);
    case Store(src, addr) => StoreCall(p, m, Some(src), addr, collect);
    case StoreConst(addr) => StoreCall(p, m, None, addr, collect);
  }

  /** Calls that shadow memory has no part in. */
  method OwnCall(p: Profiler, m: SkaduRun.Session, c: Call)
    requires Together(p, m) && Legal(c, p.View()) && (Links(c) || (Updates(c) != [] && !c.Load?))
    modifies p, p.argQueue, p.levelTimes
    ensures Together(p, m) && p.View() == After(c, old(p.View()))
  {
    hide Shape, Legal, After, AfterLink, Stamped, CanUpdate, Updates, Links;
    OwnKeeps(c, p.View());
    OwnIs(c, p.View());
    if Links(c) {
      Link(p, c);
    } else {
      Stamps(p, Updates(c));
    }
  }

  lemma OwnIs(c: Call, s: State)
    requires Shape(s) && Legal(c, s)
    ensures Links(c) ==> After(c, s) == AfterLink(c, s)
    ensures forall i: nat | i < |Updates(c)| :: CanUpdate(Updates(c)[i], s)
    ensures !Links(c) && Updates(c) != [] ==> After(c, s) == Stamped(Updates(c), s)
  {
    hide Legal, Stacked, AfterLink, CanUpdate;
    UpdatesLegal(c, s);
  }

  lemma OwnKeeps(c: Call, s: State)
    requires Shape(s) && Legal(c, s) && (Links(c) || (Updates(c) != [] && !c.Load?))
    ensures After(c, s).mem == s.mem && |After(c, s).regions| == |s.regions|
    ensures forall i: nat | i < |Updates(c)| :: Updates(c)[i].addr.None?
  {
    hide Stacked, Legal, AfterLink;
    if Links(c) {
      AfterLinks(c, s);
      LinkKeeps(c, s);
    } else {
      UpdatesLegal(c, s);
      StampedKeeps(Updates(c), s);
    }
  }

  lemma LinkKeeps(c: Call, s: State)
    requires Shape(s) && Legal(c, s) && Links(c)
    ensures AfterLink(c, s).mem == s.mem && AfterLink(c, s).regions == s.regions
  {
    hide Stacked;
  }

  lemma {:induction false} StampedKeeps(us: seq<Update>, s: State)
    requires Shape(s) && forall i: nat | i < |us| :: CanUpdate(us[i], s)
    ensures Stamped(us, s).mem == s.mem && |Stamped(us, s).regions| == |s.regions|
    decreases |us|
  {
    hide Stacked, Stamp, Sources;
    if us != [] {
      assert CanUpdate(us[0], s);
      AllUpdate(us, s, Applied(us[0], s));
      StampedKeeps(us[1..], Applied(us[0], s));
    }
  }

  /** Calls that update or link leave no region. */
  lemma Kindless(c: Call, s: State)
    requires Shape(s) && Legal(c, s)
    ensures Links(c) || Updates(c) != [] ==> Emitted(c, s) == []
    ensures c.Load? ==> !Links(c) && Updates(c) != []
  {
    hide Shape, Legal;
  }

  /** One call of the instrumented program. */
  method Dispatch(p: Profiler, m: SkaduRun.Session, c: Call, collect: bool) returns (stats: seq<Stat>)
    requires Together(p, m) && Legal(c, p.View())
    modifies p, p.argQueue, p.levelTimes, m, m.shadow.store, m.shadow.store.pages.Values, m.shadow.store.buffer
    ensures forall q | q in m.shadow.store.pages ::
              fresh(m.shadow.store.pages[q])
              || (q in old(m.shadow.store.pages) && m.shadow.store.pages[q] == old(m.shadow.store.pages)[q])
    ensures Together(p, m) && p.View() == After(c, old(p.View())) && stats == Emitted(c, old(p.View()))
  {
    hide Shape, After, Legal, Updates, Links, Emitted;
    Kindless(c, p.View());
    if c.Load? {
      LoadCall(p, m, c);
      stats := [];
    } else if Links(c) || Updates(c) != [] {
      OwnCall(p, m, c);
      stats := [];
    } else {
      stats := RegionCall(p, m, c, collect);
    }
  }

  ghost function Start(max: nat): (State, Ledger)
    requires max < MAX_LEVEL
    ensures Inv(Start(max).0, Start(max).1)
  {
    InitiallyOk(max);
    (Initial(max), Ledger(0, [], true, true))
  }

  ghost predicate CanReplay(calls: seq<Call>, max: nat) {
    max < MAX_LEVEL && CanRun(calls, Start(max).0, Start(max).1)
  }

  lemma NextCall(calls: seq<Call>, k: nat, s: State, g: Ledger)
    requires k < |calls| && Inv(s, g) && CanRun(calls[k..], s, g)
    ensures Shape(s) && Legal(calls[k], s) && Paid(calls[k], s, g)
    ensures Inv(After(calls[k], s), Charged(calls[k], s, g))
    ensures CanRun(calls[k + 1..], After(calls[k], s), Charged(calls[k], s, g))
    ensures RunStats(calls[k..], s, g)
            == Emitted(calls[k], s) + RunStats(calls[k + 1..], After(calls[k], s), Charged(calls[k], s, g))
  {
    hide Stacked, RegionsOk, VectorsOk, After, Charged, Emitted, Legal, Paid;
    assert calls[k..][1..] == calls[k + 1..];
    CallKeeps(calls[k], s, g);
  }

  /** One call of a run: its records, and the run that is left. */
  method Next(p: Profiler, m: SkaduRun.Session, calls: seq<Call>, k: nat, collect: bool, ghost s: State,
              ghost g: Ledger)
    returns (more: seq<Stat>, ghost s': State, ghost g': Ledger)
    requires k < |calls| && Together(p, m) && p.View() == s && Inv(s, g) && CanRun(calls[k..], s, g)
    modifies p, p.argQueue, p.levelTimes, m, m.shadow.store, m.shadow.store.pages.Values, m.shadow.store.buffer
    ensures forall q | q in m.shadow.store.pages ::
              fresh(m.shadow.store.pages[q])
              || (q in old(m.shadow.store.pages) && m.shadow.store.pages[q] == old(m.shadow.store.pages)[q])
    ensures Together(p, m) && p.View() == s' && Inv(s', g') && CanRun(calls[k + 1..], s', g')
    ensures RunStats(calls[k..], s, g) == more + RunStats(calls[k + 1..], s', g')
  {
    hide RunStats, CanRun, After, Emitted, Legal, RegionsOk, VectorsOk, Stacked;
    NextCall(calls, k, s, g);
    s', g' := After(calls[k], s), Charged(calls[k], s, g);
    more := Dispatch(p, m, calls[k], collect);
  }

  lemma LastCall(s: State, g: Ledger)
    requires Inv(s, g) && CanRun([], s, g)
    ensures RunStats([], s, g) == []
  {
  }

  /** A run from any point on. */
  method Run(p: Profiler, m: SkaduRun.Session, calls: seq<Call>, collects: seq<bool>, ghost s0: State, ghost g0: Ledger)
    returns (stats: seq<Stat>)
    requires Together(p, m) && p.View() == s0 && Inv(s0, g0) && CanRun(calls, s0, g0)
    modifies p, p.argQueue, p.levelTimes, m, m.shadow.store, m.shadow.store.pages.Values, m.shadow.store.buffer
    ensures stats == RunStats(calls, s0, g0)
  {
    hide Inv, Shape, RunStats, CanRun;
    ghost var s, g := s0, g0;
    stats := [];
    assert calls[0..] == calls;
    for k := 0 to |calls|
      invariant forall q | q in m.shadow.store.pages ::
                  fresh(m.shadow.store.pages[q])
                  || (q in old(m.shadow.store.pages) && m.shadow.store.pages[q] == old(m.shadow.store.pages)[q])
      invariant Together(p, m) && p.View() == s && Inv(s, g) && CanRun(calls[k..], s, g)
      invariant stats + RunStats(calls[k..], s, g) == RunStats(calls, s0, g0)
    {
      var more;
      more, s, g := Next(p, m, calls, k, k < |collects| && collects[k], s, g);
      stats := stats + more;
    }
    assert calls[|calls|..] == [];
    LastCall(s, g);
  }

  /** A run of the profiler over versioned shadow memory yields the records of
      the state machine over eager memory, whatever the compression setting, the
      buffer's size, the first version and the moments of garbage collection;
      and they meet the bounds: those between levels as long as every value
      passed below the instrumented levels was in pace, or in order.  What they
      say of children is what the children's records say. */
  method Replay(calls: seq<Call>, max: nat, compressing: bool, numEntries: nat, start: nat, collects: seq<bool>)
    returns (stats: seq<Stat>)
    requires CanReplay(calls, max) && max + 1 < MAX_LEVEL && numEntries > 0
    ensures stats == RunStats(calls, Start(max).0, Start(max).1)
    ensures var e := RunLedger(calls, Start(max).0, Start(max).1);
            forall t | t in stats :: StatOk(t, max, e.paced, e.sorted)
    ensures AllTallied(stats)
  {
    hide Inv, Shape, StatOk, RunStats, RunLedger, CanRun, AllTallied;
    var p := new Profiler(max);
    var m := new SkaduRun.Session(max + 1, compressing, numEntries, start);
    stats := Run(p, m, calls, collects, Start(max).0, Start(max).1);
    RunBounds(calls, Start(max).0, Start(max).1);
    RecordsTally(calls, max);
  }
}
