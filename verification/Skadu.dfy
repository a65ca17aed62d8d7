/** Versioned shadow memory without a cache: reads and writes of cells over
    page-granular level tables, with a garbage collector
    (runtime/src/MShadowSkadu.cpp, runtime/src/MShadowNullCache.cpp). */
module Skadu {
  import opened Delta
  import opened LevelTables
  import opened ShadowSpec
  import opened Pages
  import opened PageStore

  class MShadowSkadu {
    const store: Store

    ghost predicate Valid()
      reads store, store.pages.Values, store.buffer, store.buffer.Tables()
    {
      store.Valid()
    }

    ghost predicate Follows(v: Versions, depth: nat, next: nat)
      reads store
    {
      Pages.Follows(store.view, v, depth, next)
    }

    constructor (compressing: bool, numEntries: nat)
      requires numEntries > 0
      ensures Valid() && store.view == map[] && store.pages == map[] && fresh(store) && fresh(store.buffer)
    {
      store := new Store(compressing, numEntries);
    }

    /** The table of an address, created or decompressed on demand. */
    method GetLevelTable(addr: nat, v: Versions, ghost depth: nat, ghost next: nat)
      requires Valid() && Follows(v, depth, next)
      modifies store, store.pages.Values, store.buffer
      ensures Valid() && Follows(v, depth, next)
      ensures forall q | q in store.pages ::
              fresh(store.pages[q]) || (q in old(store.pages) && store.pages[q] == old(store.pages)[q])
      ensures PageOf(addr) in store.pages && !store.pages[PageOf(addr)].compressed
      ensures forall a: nat, i: nat | i < depth && i < MAX_LEVEL ::
              Lookup(store.view, a, v, i) == Lookup(old(store.view), a, v, i)
    {
      store.GetTable(PageOf(addr), v);
      CollectedReads(old(store.view), store.view, v, depth, next, MAX_LEVEL);
    }

    /** Visits every page; the outdated tables of the first `n` levels go, and
        everything below. */
    method CollectAll(v: Versions, n: nat)
      requires Valid() && n < MAX_LEVEL
      requires forall p | p in store.view :: OutdatedBelow(store.view[p].versions, |store.view[p].tables|, v, n)
      modifies store`view, store.pages.Values
      ensures Valid() && OnlyCollected(old(store.view), store.view, v, n)
    {
      ghost var was := store.view;
      var left := store.pages.Keys;
      SweptAll(was, v, n);
      while left != {}
        invariant left <= was.Keys && Valid() && store.view == Swept(was, left, v, n)
        decreases left
      {
        var p :| p in left;
        SweptStep(was, left, v, n, p);
        store.CollectPage(p, v, n);
        left := left - {p};
      }
    }

    method RunGarbageCollector(v: Versions, n: nat, ghost depth: nat, ghost next: nat)
      requires Valid() && Follows(v, depth, next) && n <= depth && n < MAX_LEVEL
      modifies store`view, store.pages.Values
      ensures Valid() && Follows(v, depth, next)
      ensures forall a: nat, i: nat | i < n :: Lookup(store.view, a, v, i) == Lookup(old(store.view), a, v, i)
    {
      forall p | p in store.view ensures OutdatedBelow(store.view[p].versions, |store.view[p].tables|, v, n) {
        OutdatedSuffix(store.view[p], v, depth, next, n);
      }
      CollectAll(v, n);
      CollectedReads(old(store.view), store.view, v, depth, next, n);
    }

    /** Reads a cell's times, shallowest level first. */
    method Get(addr: nat, n: nat, v: Versions, ghost depth: nat, ghost next: nat) returns (times: seq<Time>)
      requires Valid() && Follows(v, depth, next) && n <= depth && n < MAX_LEVEL
      modifies store, store.pages.Values, store.buffer
      ensures Valid() && Follows(v, depth, next)
      ensures forall q | q in store.pages ::
              fresh(store.pages[q]) || (q in old(store.pages) && store.pages[q] == old(store.pages)[q])
      ensures |times| == n && forall i: nat | i < n :: times[i] == Lookup(old(store.view), addr, v, i)
      ensures forall a: nat, i: nat | i < n :: Lookup(store.view, a, v, i) == Lookup(old(store.view), a, v, i)
    {
      var tAddr := Aligned(addr);
      SameEntry(addr, tAddr);
      GetLevelTable(tAddr, v, depth, next);
      times := store.GetEntry(PageOf(tAddr), EntryOf(tAddr), n, v);
      assert forall i: nat | i < n :: times[i] == Lookup(store.view, addr, v, i);
      Touch(tAddr);
    }

    method Touch(addr: nat)
      requires Valid() && PageOf(addr) in store.pages && !store.pages[PageOf(addr)].compressed
      modifies store.buffer
      ensures Valid()
    {
      if store.compressing {
        assert store.Good(PageOf(addr), store.buffer.Tables());
        store.buffer.Touch(store.pages[PageOf(addr)]);
      }
    }

    /** Stores times in an uncompressed page. */
    method SetTimes(addr: nat, v: Versions, times: seq<Time>, ghost depth: nat, ghost next: nat)
      requires Valid() && Follows(v, depth, next) && Ticking(v, depth, next)
      requires next > 0 && |times| <= MAX_LEVEL
      requires PageOf(addr) in store.pages && !store.pages[PageOf(addr)].compressed
      modifies store`view, store.pages[PageOf(addr)], store.buffer
      ensures Valid() && Follows(v, depth, next)
      ensures forall a: nat, i: nat | i < MAX_LEVEL ::
                Lookup(store.view, a, v, i) ==
                if Cell(a) == Cell(addr) && i < |times| then times[i] else Lookup(old(store.view), a, v, i)
    {
      store.SetEntry(PageOf(addr), EntryOf(addr), v, times);
      StoredReads(old(store.view), store.view, addr, v, times, depth, next);
      Touch(addr);
    }

    /** Before a write: a garbage collection if one is due, then the table. */
    method Prepare(addr: nat, n: nat, v: Versions, collect: bool, ghost depth: nat, ghost next: nat)
      requires Valid() && Follows(v, depth, next) && n <= depth && n < MAX_LEVEL
      modifies store, store.pages.Values, store.buffer
      ensures Valid() && Follows(v, depth, next)
      ensures forall q | q in store.pages ::
              fresh(store.pages[q]) || (q in old(store.pages) && store.pages[q] == old(store.pages)[q])
      ensures PageOf(addr) in store.pages && !store.pages[PageOf(addr)].compressed
      ensures forall a: nat, i: nat | i < n :: Lookup(store.view, a, v, i) == Lookup(old(store.view), a, v, i)
    {
      if collect {
        RunGarbageCollector(v, n, depth, next);
      }
      GetLevelTable(addr, v, depth, next);
    }

    method Set(addr: nat, n: nat, v: Versions, times: seq<Time>, collect: bool, ghost depth: nat, ghost next: nat)
      requires Valid() && Follows(v, depth, next) && Ticking(v, depth, next)
      requires |times| == n <= depth && n < MAX_LEVEL
      modifies store, store.pages.Values, store.buffer
      ensures Valid() && Follows(v, depth, next)
      ensures forall q | q in store.pages ::
              fresh(store.pages[q]) || (q in old(store.pages) && store.pages[q] == old(store.pages)[q])
      ensures forall a: nat, i: nat | i < n ::
                Lookup(store.view, a, v, i) == if Cell(a) == Cell(addr) then times[i]
                  else Lookup(old(store.view), a, v, i)
    {
      if n > 0 {
        var tAddr := Aligned(addr);
        Prepare(tAddr, n, v, collect, depth, next);
        SetTimes(tAddr, v, times, depth, next);
      }
    }
  }
}
