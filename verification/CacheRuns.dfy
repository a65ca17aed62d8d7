/** Whole runs of the write-back cache as a value: what it answers on every
    run, and on which runs that is what an eager memory answers
    (runtime/src/MShadowCache.cpp:68-226). */
module CacheRuns {
  import opened Delta
  import opened ShadowSpec
  import opened CacheLines

  /** What the profiler stores: times of at least one, at addresses that are not
      null. */
  predicate Storable(e: Event) {
    && (e.Load? || e.Store? ==> Cell(e.addr) > 0)
    && (e.Store? ==> forall i: nat | i < |e.times| :: e.times[i] > 0)
  }

  /** Rows are, or can be made, long enough for all levels. */
  predicate Roomy(q: Cache, levels: nat) {
    Sized(q) && levels <= q.cols + 10
  }

  // ----------------------------------------------------------- every run

  function StepAfter(e: Event, q: Cache, v: Versions, depth: nat, levels: nat): (r: Cache)
    requires Roomy(q, levels) && levels < MAX_LEVEL && Allowed(e, depth, levels)
    ensures Roomy(r, levels) && |r.lines| == |q.lines| && r.cols >= q.cols
  {
    var n := Size(depth, levels);
    match e
    case Enter => AfterEnter(q, depth)
    case Exit => q
    case Load(addr) => if n > 0 then AfterGet(q, Cell(addr), v, n) else q
    case Store(addr, times, _) => if n > 0 then AfterSet(q, Cell(addr), v, times) else q
  }

  function StepOutput(e: Event, q: Cache, v: Versions, depth: nat, levels: nat): seq<seq<Time>>
    requires Roomy(q, levels) && levels < MAX_LEVEL
  {
    if e.Load? then [Fetched(q, Cell(e.addr), v, Size(depth, levels))] else []
  }

  function VersionsAfter(e: Event, v: Versions, depth: nat, next: nat): Versions {
    if e.Enter? then Issue(v, depth, next) else v
  }

  function NextAfter(e: Event, next: nat): nat {
    if e.Enter? then next + 1 else next
  }

  /** What the loads of a run return from the cache. */
  function CacheLoads(events: seq<Event>, q: Cache, v: Versions, depth: nat, next: nat, levels: nat): seq<seq<Time>>
    requires Roomy(q, levels) && levels < MAX_LEVEL && Legal(events, depth, levels)
  {
    if events == [] then []
    else
      var e := events[0];
      StepOutput(e, q, v, depth, levels)
      + CacheLoads(events[1..], StepAfter(e, q, v, depth, levels), VersionsAfter(e, v, depth, next),
                   DepthAfter(e, depth), NextAfter(e, next), levels)
  }

  lemma CacheStep(events: seq<Event>, k: nat, q: Cache, v: Versions, depth: nat, next: nat, levels: nat)
    requires k < |events| && Roomy(q, levels) && levels < MAX_LEVEL && Legal(events[k..], depth, levels)
    ensures var e := events[k];
            && Allowed(e, depth, levels) && Legal(events[k + 1..], DepthAfter(e, depth), levels)
            && CacheLoads(events[k..], q, v, depth, next, levels)
               == StepOutput(e, q, v, depth, levels)
                  + CacheLoads(events[k + 1..], StepAfter(e, q, v, depth, levels), VersionsAfter(e, v, depth, next),
                               DepthAfter(e, depth), NextAfter(e, next), levels)
  {
    assert events[k..][1..] == events[k + 1..];
  }

  // ---------------------------------------------------- evictions of a step

  /** The lines an access evicts: all of them when rows are too short, else the
      line in its way. */
  predicate Evicts(c: nat, q: Cache, n: nat, k: nat)
    requires Sized(q) && k < |q.lines|
  {
    q.lines[k].tag != 0 && (q.cols < n || (k == LineOf(c, q.lines) && q.lines[k].tag != 8 * c))
  }

  /** An eviction that writes stale times of a cell, not overwritten at once. */
  predicate Spoils(e: Event, q: Cache, v: Versions, n: nat, k: nat)
    requires Sized(q) && k < |q.lines| && (e.Load? || e.Store?)
  {
    && Evicts(Cell(e.addr), q, n, k) && !Clean(q.lines[k], v, n)
    && !(e.Store? && q.lines[k].tag == 8 * Cell(e.addr))
  }

  predicate StepSound(e: Event, q: Cache, v: Versions, n: nat)
    requires Sized(q)
  {
    (e.Load? || e.Store?) && n > 0 ==> forall k: nat | k < |q.lines| :: !Spoils(e, q, v, n, k)
  }

  /** The memory held agrees with an eager one on the active levels. */
  ghost predicate Agree(held: map<nat, Vector>, mem: map<nat, Vector>, n: nat)
    requires n <= MAX_LEVEL
  {
    forall c: nat, i: nat | c > 0 && i < n :: At(held, c, i) == At(mem, c, i)
  }

  /** What a cell holds after evictions: its own line's row if that was written
      back, else what it held. */
  lemma {:induction false} FlushedAt(q: Cache, k: nat, v: Versions, n: nat, next: nat, c: nat)
    requires n <= MAX_LEVEL && HeldOk(q, v, n, next) && k <= |q.lines| && c > 0
    ensures var j := LineOf(c, q.lines);
            forall i: nat | i < n ::
              At(Flushed(q, k, v, n).held, c, i)
              == if Cached(q.lines, c) && j < k then EvictRow(q.lines[j], v, n)[i] else At(q.held, c, i)
  {
    hide HeldOk, EvictRow, Vacated, At;
    HeldSized(q, v, n, next);
    if k > 0 {
      var f := Flushed(q, k - 1, v, n);
      FlushedAt(q, k - 1, v, n, next, c);
      FlushKeeps(q, k - 1, v, n, next);
      VacatedAt(f, v, n, next, k - 1, c);
    }
  }

  lemma HeldSized(q: Cache, v: Versions, n: nat, next: nat)
    requires n <= MAX_LEVEL && HeldOk(q, v, n, next)
    ensures Sized(q)
  {
  }

  /** What a cell holds after one line is evicted. */
  lemma VacatedAt(q: Cache, v: Versions, n: nat, next: nat, k: nat, c: nat)
    requires n <= MAX_LEVEL && HeldOk(q, v, n, next) && k < |q.lines| && c > 0
    ensures q.lines[k].tag == 8 * c ==> LineOf(c, q.lines) == k
    ensures forall i: nat | i < n ::
              At(Vacated(q, k, v, n).held, c, i)
              == if q.lines[k].tag == 8 * c then EvictRow(q.lines[k], v, n)[i] else At(q.held, c, i)
  {
    hide Vacated, EvictRow, CellHeld, LineOk;
    if q.lines[k].tag == 8 * c {
      DropOwn(q, v, n, next, k);
      LineHeld(q, v, n, next, k);
    } else {
      DropOthers(q, v, n, next, k, c);
    }
  }

  lemma AdmittedAt(q: Cache, c0: nat, v: Versions, n: nat, next: nat, c: nat)
    requires n <= MAX_LEVEL && HeldOk(q, v, n, next) && c > 0
    ensures var j := LineOf(c, q.lines);
            forall i: nat | i < n ::
              At(Admitted(q, c0, v, n).held, c, i)
              == if Cached(q.lines, c) && Evicts(c0, q, n, j) then EvictRow(q.lines[j], v, n)[i] else At(q.held, c, i)
  {
    var j, w := LineOf(c, q.lines), Widened(q, v, n);
    if q.cols < n {
      FlushedAt(q, |q.lines|, v, n, next, c);
      assert w.lines[LineOf(c0, w.lines)].tag == 0;
    } else if !Cached(q.lines, c0) {
      var k := LineOf(c0, q.lines);
      if q.lines[k].tag == 8 * c {
        DropOwn(q, v, n, next, k);
        LineHeld(q, v, n, next, k);
      } else {
        DropOthers(q, v, n, next, k, c);
      }
    }
  }

  /** An evicted line that is clean leaves its cell as it was, and only then. */
  lemma EvictedAt(q: Cache, v: Versions, depth: nat, n: nat, next: nat, c: nat)
    requires Ticking(v, depth, next) && n <= depth && n <= MAX_LEVEL && HeldOk(q, v, n, next) && c > 0
             && Cached(q.lines, c)
    ensures var l := q.lines[LineOf(c, q.lines)];
            Clean(l, v, n) <==> forall i: nat | i < n :: EvictRow(l, v, n)[i] == At(q.held, c, i)
  {
    var k := LineOf(c, q.lines);
    LineHeld(q, v, n, next, k);
    assert LineOk(q.lines[k], v, n, next);
    EvictExact(q.lines[k], v, depth, next, n);
  }

  // ----------------------------------------------------------- one access

  /** A cell after an access: as it was unless its line was written back, or the
      access wrote it. */
  lemma AccessAt(e: Event, q: Cache, v: Versions, depth: nat, next: nat, levels: nat, c: nat)
    requires levels < MAX_LEVEL && Roomy(q, levels) && Allowed(e, depth, levels) && (e.Load? || e.Store?)
    requires HeldOk(q, v, Size(depth, levels), next) && Size(depth, levels) > 0 && c > 0
    ensures var n := Size(depth, levels);
            var j := LineOf(c, q.lines);
            forall i: nat | i < n ::
              At(StepAfter(e, q, v, depth, levels).held, c, i)
              == if e.Store? && Cell(e.addr) == c then e.times[i]
                 else if Cached(q.lines, c) && Evicts(Cell(e.addr), q, n, j) then EvictRow(q.lines[j], v, n)[i]
                 else At(q.held, c, i)
  {
    AdmittedAt(q, Cell(e.addr), v, Size(depth, levels), next, c);
  }

  /** After an access the cache still agrees with the eager memory if and only
      if the access spoils no cell. */
  lemma StepExact(e: Event, q: Cache, mem: map<nat, Vector>, v: Versions, depth: nat, next: nat, levels: nat)
    requires levels < MAX_LEVEL && Roomy(q, levels) && Allowed(e, depth, levels) && (e.Load? || e.Store?)
    requires Ticking(v, depth, next) && HeldOk(q, v, Size(depth, levels), next) && Size(depth, levels) > 0
    requires Agree(q.held, mem, Size(depth, levels))
    ensures StepSound(e, q, v, Size(depth, levels))
            <==> Agree(StepAfter(e, q, v, depth, levels).held, MemAfter(e, mem, depth, levels), Size(depth, levels))
  {
    var n := Size(depth, levels);
    var held, mem' := StepAfter(e, q, v, depth, levels).held, MemAfter(e, mem, depth, levels);
    if StepSound(e, q, v, n) {
      forall c: nat, i: nat | c > 0 && i < n ensures At(held, c, i) == At(mem', c, i) {
        SoundAt(e, q, mem, v, depth, next, levels, c, i);
      }
    } else {
      var k: nat :| k < |q.lines| && Spoils(e, q, v, n, k);
      var i := SpoiltAt(e, q, mem, v, depth, next, levels, k);
      LineHeld(q, v, n, next, k);
    }
  }

  lemma SoundAt(e: Event, q: Cache, mem: map<nat, Vector>, v: Versions, depth: nat, next: nat, levels: nat, c: nat,
                i: nat)
    requires levels < MAX_LEVEL && Roomy(q, levels) && Allowed(e, depth, levels) && (e.Load? || e.Store?)
    requires Ticking(v, depth, next) && HeldOk(q, v, Size(depth, levels), next)
    requires Agree(q.held, mem, Size(depth, levels)) && StepSound(e, q, v, Size(depth, levels))
    requires c > 0 && i < Size(depth, levels)
    ensures At(StepAfter(e, q, v, depth, levels).held, c, i) == At(MemAfter(e, mem, depth, levels), c, i)
  {
    hide HeldOk, Ticking, StepAfter, Clean;
    var n := Size(depth, levels);
    AccessAt(e, q, v, depth, next, levels, c);
    if Cached(q.lines, c) {
      EvictedAt(q, v, depth, n, next, c);
      assert !Spoils(e, q, v, n, LineOf(c, q.lines));
    }
  }

  /** A level at which a spoilt cell is wrong. */
  lemma SpoiltAt(e: Event, q: Cache, mem: map<nat, Vector>, v: Versions, depth: nat, next: nat, levels: nat, k: nat)
    returns (i: nat)
    requires levels < MAX_LEVEL && Roomy(q, levels) && Allowed(e, depth, levels) && (e.Load? || e.Store?)
    requires Ticking(v, depth, next) && HeldOk(q, v, Size(depth, levels), next) && Size(depth, levels) > 0
    requires Agree(q.held, mem, Size(depth, levels))
    requires k < |q.lines| && Spoils(e, q, v, Size(depth, levels), k)
    ensures i < Size(depth, levels) && Cell(q.lines[k].tag) > 0
    ensures At(StepAfter(e, q, v, depth, levels).held, Cell(q.lines[k].tag), i)
            != At(MemAfter(e, mem, depth, levels), Cell(q.lines[k].tag), i)
  {
    hide StepAfter, Clean;
    var n, c := Size(depth, levels), Cell(q.lines[k].tag);
    LineHeld(q, v, n, next, k);
    EvictedAt(q, v, depth, n, next, c);
    i :| i < n && EvictRow(q.lines[k], v, n)[i] != At(q.held, c, i);
    AccessAt(e, q, v, depth, next, levels, c);
  }

  /** A load of a cell that is wrong is answered wrongly, once rows are long
      enough for the current depth. */
  lemma WrongFetch(q: Cache, mem: map<nat, Vector>, v: Versions, n: nat, next: nat, c: nat, i: nat)
    requires n <= MAX_LEVEL && HeldOk(q, v, n, next) && n <= q.cols && c > 0 && i < n
    requires At(q.held, c, i) != At(mem, c, i)
    ensures Fetched(q, c, v, n) != Read(mem, c, n)
  {
    AdmittedAt(q, c, v, n, next, c);
    assert Fetched(q, c, v, n)[i] != Read(mem, c, n)[i];
  }

  /** The invariant of a run. */
  lemma StepHeld(e: Event, q: Cache, v: Versions, depth: nat, next: nat, levels: nat)
    requires levels < MAX_LEVEL && Roomy(q, levels) && Allowed(e, depth, levels) && Storable(e)
    requires Ticking(v, depth, next) && HeldOk(q, v, Size(depth, levels), next)
    ensures HeldOk(StepAfter(e, q, v, depth, levels), VersionsAfter(e, v, depth, next),
                   Size(DepthAfter(e, depth), levels), NextAfter(e, next))
    ensures Ticking(VersionsAfter(e, v, depth, next), DepthAfter(e, depth), NextAfter(e, next))
  {
    hide CellHeld, LineOk;
    var n := Size(depth, levels);
    match e
    case Enter =>
      EnterHeld(q, v, depth, next, levels);
      Entered(v, depth, next);
    case Exit => FewerHeld(q, v, n, next, Size(depth - 1, levels));
    case Load(addr) =>
      if n > 0 {
        GetHeld(q, Cell(addr), v, depth, n, next);
      }
    case Store(addr, times, _) =>
      if n > 0 {
        SetHeld(q, Cell(addr), v, depth, next, times);
      }
  }

  lemma GetHeld(q: Cache, c: nat, v: Versions, depth: nat, n: nat, next: nat)
    requires Ticking(v, depth, next) && 0 < n <= depth && n <= MAX_LEVEL && n <= q.cols + 10 && c > 0
    requires HeldOk(q, v, n, next)
    ensures HeldOk(AfterGet(q, c, v, n), v, n, next)
  {
    var a := Admitted(q, c, v, n);
    AdmitKeeps(q, c, v, n, next);
    AdmitFree(q, c, v, n);
    assert CellHeld(a, v, n, c);
    FillKeeps(a, c, v, depth, n, next, a.held, Read(a.held, c, n));
  }

  lemma SetHeld(q: Cache, c: nat, v: Versions, depth: nat, next: nat, times: seq<Time>)
    requires Ticking(v, depth, next) && 0 < |times| <= depth && |times| <= MAX_LEVEL && |times| <= q.cols + 10 && c > 0
    requires HeldOk(q, v, |times|, next) && forall i: nat | i < |times| :: times[i] > 0
    ensures HeldOk(AfterSet(q, c, v, times), v, |times|, next)
  {
    var a := Admitted(q, c, v, |times|);
    AdmitKeeps(q, c, v, |times|, next);
    AdmitFree(q, c, v, |times|);
    FillKeeps(a, c, v, depth, |times|, next, Written(a.held, c, times), times);
  }

  // ----------------------------------------------------------- sound runs

  /** No access of the run spoils a cell. */
  predicate RunSound(events: seq<Event>, q: Cache, v: Versions, depth: nat, next: nat, levels: nat)
    requires Roomy(q, levels) && levels < MAX_LEVEL && Legal(events, depth, levels)
  {
    events == [] ||
    var e := events[0];
    && StepSound(e, q, v, Size(depth, levels))
    && RunSound(events[1..], StepAfter(e, q, v, depth, levels), VersionsAfter(e, v, depth, next),
                DepthAfter(e, depth), NextAfter(e, next), levels)
  }

  /** What is needed of the beginning of a run. */
  ghost predicate Begun(q: Cache, mem: map<nat, Vector>, v: Versions, depth: nat, next: nat, levels: nat) {
    && levels < MAX_LEVEL && Roomy(q, levels) && Ticking(v, depth, next)
    && HeldOk(q, v, Size(depth, levels), next) && Agree(q.held, mem, Size(depth, levels))
  }

  /** A sound step answers as the eager memory does, and goes on agreeing. */
  lemma SoundStep(e: Event, q: Cache, mem: map<nat, Vector>, v: Versions, depth: nat, next: nat, levels: nat)
    requires Begun(q, mem, v, depth, next, levels) && Allowed(e, depth, levels) && Storable(e)
    requires StepSound(e, q, v, Size(depth, levels))
    ensures StepOutput(e, q, v, depth, levels) == Output(e, mem, depth, levels)
    ensures Begun(StepAfter(e, q, v, depth, levels), MemAfter(e, mem, depth, levels), VersionsAfter(e, v, depth, next),
                  DepthAfter(e, depth), NextAfter(e, next), levels)
  {
    hide HeldOk, Ticking, StepSound;
    StepHeld(e, q, v, depth, next, levels);
    var n := Size(depth, levels);
    if (e.Load? || e.Store?) && n > 0 {
      StepExact(e, q, mem, v, depth, next, levels);
      if e.Load? {
        assert StepAfter(e, q, v, depth, levels).held == Admitted(q, Cell(e.addr), v, n).held;
        SameFetch(q, mem, Cell(e.addr), v, n);
      }
    } else if e.Load? {
      SameFetch(q, mem, Cell(e.addr), v, n);
    }
  }

  lemma SameFetch(q: Cache, mem: map<nat, Vector>, c: nat, v: Versions, n: nat)
    requires Sized(q) && n <= MAX_LEVEL && c > 0 && Agree(Admitted(q, c, v, n).held, mem, n)
    ensures Fetched(q, c, v, n) == Read(mem, c, n)
  {
    forall i: nat | i < n ensures Fetched(q, c, v, n)[i] == Read(mem, c, n)[i] {
    }
  }

  /** On a sound run the cache answers as the eager memory does. */
  lemma {:induction false} SoundLoads(events: seq<Event>, q: Cache, mem: map<nat, Vector>,
                                      v: Versions, depth: nat, next: nat, levels: nat)
    requires Begun(q, mem, v, depth, next, levels) && Legal(events, depth, levels)
    requires (forall e | e in events :: Storable(e)) && RunSound(events, q, v, depth, next, levels)
    ensures CacheLoads(events, q, v, depth, next, levels) == Loads(events, mem, depth, levels)
    decreases |events|
  {
    hide Begun, StepSound, StepAfter, StepOutput, Storable, VersionsAfter;
    if events != [] {
      var e := events[0];
      assert e in events && forall x | x in events[1..] :: x in events;
      BegunRoomy(q, mem, v, depth, next, levels);
      SoundStep(e, q, mem, v, depth, next, levels);
      SoundLoads(events[1..], StepAfter(e, q, v, depth, levels), MemAfter(e, mem, depth, levels),
                 VersionsAfter(e, v, depth, next), DepthAfter(e, depth), NextAfter(e, next), levels);
    }
  }

  lemma BegunRoomy(q: Cache, mem: map<nat, Vector>, v: Versions, depth: nat, next: nat, levels: nat)
    requires Begun(q, mem, v, depth, next, levels)
    ensures levels < MAX_LEVEL && Roomy(q, levels)
  {
  }

  // --------------------------------------------------------- unsound runs

  /** The events up to and including number `k`, and then a load of a cell. */
  function Trial(events: seq<Event>, k: nat, c: nat): seq<Event>
    requires k < |events|
  {
    events[..k + 1] + [Event.Load(8 * c)]
  }

  /** On a run that is not sound, a load of the first spoilt cell right after it
      was spoilt is answered wrongly. */
  lemma {:induction false} UnsoundLoads(events: seq<Event>, q: Cache, mem: map<nat, Vector>,
                                        v: Versions, depth: nat, next: nat, levels: nat)
    returns (k: nat, c: nat)
    requires Begun(q, mem, v, depth, next, levels) && Legal(events, depth, levels)
    requires (forall e | e in events :: Storable(e)) && !RunSound(events, q, v, depth, next, levels)
    ensures k < |events| && c > 0 && Legal(Trial(events, k, c), depth, levels)
    ensures CacheLoads(Trial(events, k, c), q, v, depth, next, levels) != Loads(Trial(events, k, c), mem, depth, levels)
    decreases |events|
  {
    hide Begun, StepSound, StepAfter, StepOutput, Storable, VersionsAfter, Output;
    var e, rest := events[0], events[1..];
    assert e in events && forall x | x in rest :: x in events;
    BegunRoomy(q, mem, v, depth, next, levels);
    if StepSound(e, q, v, Size(depth, levels)) {
      SoundStep(e, q, mem, v, depth, next, levels);
      var q', mem' := StepAfter(e, q, v, depth, levels), MemAfter(e, mem, depth, levels);
      k, c := UnsoundLoads(rest, q', mem', VersionsAfter(e, v, depth, next), DepthAfter(e, depth), NextAfter(e, next),
        levels);
      var trial := Trial(rest, k, c);
      k := k + 1;
      assert Trial(events, k, c)[1..] == trial;
      SameFront(StepOutput(e, q, v, depth, levels),
                CacheLoads(trial, q', VersionsAfter(e, v, depth, next), DepthAfter(e, depth), NextAfter(e, next),
                  levels),
                Loads(trial, mem', DepthAfter(e, depth), levels));
    } else {
      k := 0;
      c := SpoiltShows(e, q, mem, v, depth, next, levels);
      assert Trial(events, 0, c) == [e, Event.Load(8 * c)];
    }
  }

  lemma SameFront(a: seq<seq<Time>>, x: seq<seq<Time>>, y: seq<seq<Time>>)
    requires x != y
    ensures a + x != a + y
  {
    assert (a + x)[|a|..] == x && (a + y)[|a|..] == y;
  }

  /** An access that spoils a cell, and a load that shows it. */
  lemma SpoiltShows(e: Event, q: Cache, mem: map<nat, Vector>, v: Versions, depth: nat, next: nat, levels: nat)
    returns (c: nat)
    requires Begun(q, mem, v, depth, next, levels) && Allowed(e, depth, levels) && Storable(e)
    requires !StepSound(e, q, v, Size(depth, levels))
    ensures c > 0 && Legal([e, Event.Load(8 * c)], depth, levels)
    ensures CacheLoads([e, Event.Load(8 * c)], q, v, depth, next, levels)
            != Loads([e, Event.Load(8 * c)], mem, depth, levels)
  {
    hide HeldOk, Ticking, Clean;
    var n := Size(depth, levels);
    var k: nat :| k < |q.lines| && Spoils(e, q, v, n, k);
    var i := SpoiltAt(e, q, mem, v, depth, next, levels, k);
    c := Cell(q.lines[k].tag);
    StepHeld(e, q, v, depth, next, levels);
    var q', mem' := StepAfter(e, q, v, depth, levels), MemAfter(e, mem, depth, levels);
    AccessRoom(e, q, v, depth, levels);
    WrongFetch(q', mem', v, n, next, c, i);
    assert Cell(8 * c) == c;
    TwoEvents(e, Event.Load(8 * c), q, mem, v, depth, next, levels);
    SameEnd(StepOutput(e, q, v, depth, levels), Output(e, mem, depth, levels), Fetched(q', c, v, n), Read(mem', c, n));
  }

  lemma AccessRoom(e: Event, q: Cache, v: Versions, depth: nat, levels: nat)
    requires levels < MAX_LEVEL && Roomy(q, levels) && Allowed(e, depth, levels) && (e.Load? || e.Store?)
    requires Size(depth, levels) > 0
    ensures Size(depth, levels) <= StepAfter(e, q, v, depth, levels).cols
  {
  }

  lemma TwoEvents(e: Event, f: Event, q: Cache, mem: map<nat, Vector>, v: Versions, depth: nat, next: nat, levels: nat)
    requires levels < MAX_LEVEL && Roomy(q, levels) && Allowed(e, depth, levels) && !e.Enter? && !e.Exit?
    requires Allowed(f, depth, levels)
    ensures Legal([e, f], depth, levels)
    ensures CacheLoads([e, f], q, v, depth, next, levels)
            == StepOutput(e, q, v, depth, levels) + StepOutput(f, StepAfter(e, q, v, depth, levels), v, depth, levels)
    ensures Loads([e, f], mem, depth, levels)
            == Output(e, mem, depth, levels) + Output(f, MemAfter(e, mem, depth, levels), depth, levels)
  {
    hide StepAfter, StepOutput, Output, MemAfter;
    assert [e, f][1..] == [f] && [f][1..] == [];
    assert Legal([f], depth, levels);
    var q', mem' := StepAfter(e, q, v, depth, levels), MemAfter(e, mem, depth, levels);
    assert CacheLoads([f], q', v, depth, next, levels) == StepOutput(f, q', v, depth, levels);
    assert Loads([f], mem', depth, levels) == Output(f, mem', depth, levels);
  }

  lemma SameEnd(a: seq<seq<Time>>, b: seq<seq<Time>>, x: seq<Time>, y: seq<Time>)
    requires |a| == |b| && x != y
    ensures a + [x] != b + [y]
  {
    assert (a + [x])[|a|] == x && (b + [y])[|b|] == y;
  }

  // ------------------------------------------------------- ascending runs

  /** The version array ascends over the depth a line has recorded. */
  predicate Ascends(l: Line, v: Versions)
    requires l.lastSize <= MAX_LEVEL
  {
    forall i: nat, j: nat | i < j < l.lastSize :: v[i] < v[j]
  }

  /** Every line that an access evicts sees an ascending version array. */
  predicate StepAscends(e: Event, q: Cache, v: Versions, n: nat)
    requires Sized(q)
  {
    (e.Load? || e.Store?) && n > 0 ==>
      forall k: nat | k < |q.lines| && Evicts(Cell(e.addr), q, n, k) :: Ascends(q.lines[k], v)
  }

  predicate AscendingRun(events: seq<Event>, q: Cache, v: Versions, depth: nat, next: nat, levels: nat)
    requires Roomy(q, levels) && levels < MAX_LEVEL && Legal(events, depth, levels)
  {
    events == [] ||
    var e := events[0];
    && StepAscends(e, q, v, Size(depth, levels))
    && AscendingRun(events[1..], StepAfter(e, q, v, depth, levels), VersionsAfter(e, v, depth, next),
                    DepthAfter(e, depth), NextAfter(e, next), levels)
  }

  /** Such runs are sound. */
  lemma {:induction false} AscendingSound(events: seq<Event>, q: Cache, v: Versions, depth: nat, next: nat, levels: nat)
    requires Roomy(q, levels) && levels < MAX_LEVEL && Legal(events, depth, levels)
    requires AscendingRun(events, q, v, depth, next, levels)
    ensures RunSound(events, q, v, depth, next, levels)
    decreases |events|
  {
    hide StepAfter, Clean, Ascends;
    if events != [] {
      var e, n := events[0], Size(depth, levels);
      if (e.Load? || e.Store?) && n > 0 {
        forall k: nat | k < |q.lines| ensures !Spoils(e, q, v, n, k) {
          if Evicts(Cell(e.addr), q, n, k) {
            AscendsClean(q.lines[k], v, n);
          }
        }
      }
      AscendingSound(events[1..], StepAfter(e, q, v, depth, levels), VersionsAfter(e, v, depth, next),
                     DepthAfter(e, depth), NextAfter(e, next), levels);
    }
  }

  lemma AscendsClean(l: Line, v: Versions, n: nat)
    requires l.lastSize <= |l.times| && l.lastSize <= MAX_LEVEL && Ascends(l, v)
    ensures Clean(l, v, n)
  {
    AscendingClean(l, v, n);
  }
}
