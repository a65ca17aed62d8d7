/** Whole runs against the cached shadow memory. */
module SkaduCacheRun {
  import opened Delta
  import opened ShadowSpec
  import opened CacheLines
  import opened CacheRuns
  import opened Skadu
  import opened SkaduCaches

  lemma StillRoomy(q: Cache, depth: nat, levels: nat)
    requires Roomy(q, levels)
    ensures Roomy(AfterEnter(q, depth), levels)
  {
  }

  class Session {
    const levels: nat
    const cache: SkaduCache
    var v: Versions
    var depth: nat
    var next: nat

    ghost predicate Valid()
      reads this, cache, cache.shadow.store, cache.shadow.store.pages.Values, cache.shadow.store.buffer,
            cache.shadow.store.buffer.Tables()
    {
      cache.InStep(v, depth, next, levels) && Roomy(cache.View(), levels) && levels < MAX_LEVEL
    }

    constructor (levels: nat, megabytes: nat, cols: nat, compressing: bool, numEntries: nat, start: nat)
      requires levels < MAX_LEVEL && levels <= cols + 10 && megabytes > 0 && numEntries > 0
      ensures Valid() && fresh(cache) && fresh(cache.shadow.store) && fresh(cache.shadow.store.buffer)
      ensures cache.shadow.store.pages == map[] && depth == 0 && this.levels == levels
      ensures cache.View() == EmptyCache(megabytes * 1024 * 1024 / 8, cols)
      ensures v == Unissued() && next == start
    {
      this.levels := levels;
      var shadow := new MShadowSkadu(compressing, numEntries);
      cache := new SkaduCache(shadow, megabytes, cols);
      v, depth, next := Unissued(), 0, start;
      new;
      StartCacheInStep(cache.View(), levels, start);
    }

    method Enter()
      requires Valid()
      modifies this, cache`held
      ensures Valid() && depth == old(depth) + 1 && cache.View() == AfterEnter(old(cache.View()), old(depth))
      ensures v == Issue(old(v), old(depth), old(next)) && next == old(next) + 1
    {
      hide CacheInStep, Sized, Issue;
      StillRoomy(cache.View(), depth, levels);
      EnterCacheInStep(cache.View(), cache.shadow.store.view, v, depth, next, levels);
      ghost var q := AfterEnter(cache.View(), depth);
      cache.held := q.held;
      assert cache.View() == q;
      v, depth, next := Issue(v, depth, next), depth + 1, next + 1;
      assert cache.Standing(q, v, depth, next, levels);
    }

    method Exit()
      requires Valid() && depth > 0
      modifies this
      ensures Valid() && depth == old(depth) - 1 && cache.View() == old(cache.View())
      ensures v == old(v) && next == old(next)
    {
      hide CacheInStep;
      ExitCacheInStep(cache.View(), cache.shadow.store.view, v, depth, next, levels);
      depth := depth - 1;
    }

    method Load(addr: nat) returns (times: seq<Time>)
      requires Valid() && Cell(addr) > 0
      modifies this, cache, cache.shadow.store, cache.shadow.store.pages.Values, cache.shadow.store.buffer
      ensures forall q | q in cache.shadow.store.pages ::
                fresh(cache.shadow.store.pages[q])
                || (q in old(cache.shadow.store.pages)
                    && cache.shadow.store.pages[q] == old(cache.shadow.store.pages)[q])
      ensures Valid() && depth == old(depth) && v == old(v) && next == old(next)
      ensures cache.View() == StepAfter(Event.Load(addr), old(cache.View()), v, depth, levels)
      ensures [times] == StepOutput(Event.Load(addr), old(cache.View()), v, depth, levels)
    {
      hide CacheInStep;
      times := [];
      if Size(depth, levels) > 0 {
        times := cache.Get(addr, v, Size(depth, levels), depth, next, levels);
      }
    }

    method Collect(n: nat)
      requires Valid() && n == Size(depth, levels)
      modifies cache.shadow.store`view, cache.shadow.store.pages.Values
      ensures Valid()
    {
      hide HeldOk;
      ghost var was := cache.shadow.store.view;
      cache.shadow.RunGarbageCollector(v, n, depth, next);
      SameReads(cache.View(), was, cache.shadow.store.view, v, n, next);
    }

    method Store(addr: nat, times: seq<Time>, collect: bool)
      requires Valid() && |times| == Size(depth, levels) && Storable(Event.Store(addr, times, collect))
      modifies this, cache, cache.shadow.store, cache.shadow.store.pages.Values, cache.shadow.store.buffer
      ensures forall q | q in cache.shadow.store.pages ::
                fresh(cache.shadow.store.pages[q])
                || (q in old(cache.shadow.store.pages)
                    && cache.shadow.store.pages[q] == old(cache.shadow.store.pages)[q])
      ensures Valid() && depth == old(depth) && v == old(v) && next == old(next)
      ensures cache.View() == StepAfter(Event.Store(addr, times, collect), old(cache.View()), v, depth, levels)
    {
      hide CacheInStep, AfterSet, Sized;
      if |times| > 0 {
        if collect {
          Collect(|times|);
        }
        assert cache.shadow.store.pages == old(cache.shadow.store.pages);
        cache.Set(addr, times, v, depth, next, levels);
      }
    }

    method Handle(e: Event) returns (out: seq<seq<Time>>)
      requires Valid() && Allowed(e, depth, levels) && Storable(e)
      modifies this, cache, cache.shadow.store, cache.shadow.store.pages.Values, cache.shadow.store.buffer
      ensures forall q | q in cache.shadow.store.pages ::
                fresh(cache.shadow.store.pages[q])
                || (q in old(cache.shadow.store.pages)
                    && cache.shadow.store.pages[q] == old(cache.shadow.store.pages)[q])
      ensures Valid() && depth == DepthAfter(e, old(depth))
      ensures cache.View() == StepAfter(e, old(cache.View()), old(v), old(depth), levels)
      ensures out == StepOutput(e, old(cache.View()), old(v), old(depth), levels)
      ensures v == VersionsAfter(e, old(v), old(depth), old(next)) && next == NextAfter(e, old(next))
    {
      hide CacheInStep, AfterGet, AfterSet, AfterEnter, Fetched;
      out := [];
      match e {
        case Enter => Enter();
        case Exit => Exit();
        case Load(addr) =>
          var times := Load(addr);
          out := [times];
        case Store(addr, times, collect) => Store(addr, times, collect);
      }
    }
  }

  /** Versions before anything has been issued. */
  function Unissued(): Versions {
    seq(MAX_LEVEL, _ => 0)
  }

  /** The cache before a run. */
  function Fresh(megabytes: nat, cols: nat): (q: Cache)
    requires megabytes > 0
    ensures Sized(q) && q.cols == cols
  {
    EmptyCache(megabytes * 1024 * 1024 / 8, cols)
  }

  /** On every run the cached memory answers as the specification says, stale
      write-backs included: across hits, misses, conflict evictions, resizes,
      garbage collections and compression.  On a sound run those are the eager
      memory's answers; a run that is not sound has a beginning after which one
      more load is answered wrongly (`UnsoundFromFresh`). */
  method Replay(events: seq<Event>, levels: nat, megabytes: nat, cols: nat, compressing: bool, numEntries: nat,
                start: nat)
    returns (loads: seq<seq<Time>>)
    requires levels < MAX_LEVEL && levels <= cols + 10 && megabytes > 0 && numEntries > 0
    requires Legal(events, 0, levels) && forall e | e in events :: Storable(e)
    ensures loads == CacheLoads(events, Fresh(megabytes, cols), Unissued(), 0, start, levels)
    ensures RunSound(events, Fresh(megabytes, cols), Unissued(), 0, start, levels) ==>
            loads == Loads(events, map[], 0, levels)
  {
    hide CacheLoads, RunSound, StepAfter, StepOutput, VersionsAfter, CacheInStep;
    var session := new Session(levels, megabytes, cols, compressing, numEntries, start);
    ghost var all := CacheLoads(events, Fresh(megabytes, cols), Unissued(), 0, start, levels);
    loads := [];
    var k := 0;
    assert events[0..] == events;
    while k < |events|
      invariant 0 <= k <= |events| && session.levels == levels && Legal(events[k..], session.depth, levels)
      invariant session.Valid() && fresh(session) && fresh(session.cache)
      invariant fresh(session.cache.shadow.store) && fresh(session.cache.shadow.store.buffer)
      invariant forall q | q in session.cache.shadow.store.pages :: fresh(session.cache.shadow.store.pages[q])
      invariant loads + CacheLoads(events[k..], session.cache.View(), session.v, session.depth, session.next, levels)
                == all
    {
      CacheStep(events, k, session.cache.View(), session.v, session.depth, session.next, levels);
      var out := session.Handle(events[k]);
      Joined(loads, out,
        CacheLoads(events[k + 1..], session.cache.View(), session.v, session.depth, session.next, levels));
      loads := loads + out;
      k := k + 1;
    }
    NoLoads(events[k..], session.cache.View(), session.v, session.depth, session.next, levels);
    if RunSound(events, Fresh(megabytes, cols), Unissued(), 0, start, levels) {
      SoundFromFresh(events, megabytes, cols, start, levels);
    }
  }

  lemma NoLoads(events: seq<Event>, q: Cache, v: Versions, depth: nat, next: nat, levels: nat)
    requires events == [] && Roomy(q, levels) && levels < MAX_LEVEL
    ensures CacheLoads(events, q, v, depth, next, levels) == []
  {
  }

  /** A fresh cache agrees with a fresh eager memory. */
  lemma FreshBegun(megabytes: nat, cols: nat, start: nat, levels: nat)
    requires levels < MAX_LEVEL && levels <= cols + 10 && megabytes > 0
    ensures Begun(Fresh(megabytes, cols), map[], Unissued(), 0, start, levels)
  {
    EmptyHeld(Fresh(megabytes, cols), Unissued(), 0, start);
  }

  lemma SoundFromFresh(events: seq<Event>, megabytes: nat, cols: nat, start: nat, levels: nat)
    requires levels < MAX_LEVEL && levels <= cols + 10 && megabytes > 0
    requires Legal(events, 0, levels) && forall e | e in events :: Storable(e)
    requires RunSound(events, Fresh(megabytes, cols), Unissued(), 0, start, levels)
    ensures CacheLoads(events, Fresh(megabytes, cols), Unissued(), 0, start, levels) == Loads(events, map[], 0, levels)
  {
    hide CacheLoads, Loads, RunSound, Begun;
    FreshBegun(megabytes, cols, start, levels);
    SoundLoads(events, Fresh(megabytes, cols), map[], Unissued(), 0, start, levels);
  }

  /** And a run that is not sound has a beginning after which one more load is
      answered wrongly. */
  lemma UnsoundFromFresh(events: seq<Event>, megabytes: nat, cols: nat, start: nat, levels: nat)
    returns (k: nat, c: nat)
    requires levels < MAX_LEVEL && levels <= cols + 10 && megabytes > 0
    requires Legal(events, 0, levels) && forall e | e in events :: Storable(e)
    requires !RunSound(events, Fresh(megabytes, cols), Unissued(), 0, start, levels)
    ensures k < |events| && c > 0 && Legal(Trial(events, k, c), 0, levels)
    ensures CacheLoads(Trial(events, k, c), Fresh(megabytes, cols), Unissued(), 0, start, levels)
            != Loads(Trial(events, k, c), map[], 0, levels)
  {
    hide CacheLoads, Loads, RunSound, Begun;
    FreshBegun(megabytes, cols, start, levels);
    k, c := UnsoundLoads(events, Fresh(megabytes, cols), map[], Unissued(), 0, start, levels);
  }
}
