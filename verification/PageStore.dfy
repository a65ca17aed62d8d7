/** The level tables of all pages and the buffer of uncompressed ones
    (runtime/src/MShadowSkadu.cpp). */
module PageStore {
  import opened Delta
  import opened LevelTables
  import opened ClockBuffer
  import opened ShadowSpec
  import opened Pages

  class Store {
    const compressing: bool
    const buffer: CBuffer
    var pages: map<Page, LevelTable>
    /** The plain content of every page, and the page at every table address. */
    ghost var view: View
    ghost var home: map<nat, Page>

    /** A page's table is valid, and it is active exactly when uncompressed. */
    ghost predicate Good(p: Page, active: set<LevelTable>)
      requires p in pages
      reads this, pages[p]
    {
      && pages[p].Valid() && p in view && view[p] == Content(pages[p].versions, pages[p].contents)
      && pages[p].addr in home && home[pages[p].addr] == p
      && (pages[p].compressed <==> compressing && pages[p] !in active)
    }

    ghost predicate Valid()
      reads this, pages.Values, buffer, buffer.Tables()
    {
      && buffer.Valid() && view.Keys == pages.Keys
      && (forall p | p in pages :: Good(p, buffer.Tables()))
      && (forall t | t in buffer.Tables() :: t in pages.Values && AtHome(t))
    }

    /** The table of some page. */
    ghost predicate AtHome(t: LevelTable)
      reads this
    {
      t.addr in home && home[t.addr] in pages && pages[home[t.addr]] == t
    }

    constructor (compressing: bool, numEntries: nat)
      requires numEntries > 0
      ensures Valid() && view == map[] && pages == map[] && fresh(buffer)
    {
      view, home := map[], map[];
      this.compressing := compressing;
      buffer := new CBuffer(numEntries);
      pages := map[];
    }

    predicate Unused(place: nat)
      reads this
    {
      forall q | q in pages :: pages[q].addr != place
    }

    lemma SomePlace() returns (place: nat)
      ensures Unused(place)
    {
      place := 0;
      var left := pages.Keys;
      while left != {}
        invariant left <= pages.Keys
        invariant forall q | q in pages && q !in left :: pages[q].addr < place
        decreases |left|
      {
        var q :| q in left;
        if pages[q].addr >= place {
          place := pages[q].addr + 1;
        }
        left := left - {q};
      }
    }

    /** The allocator may choose any address no live table has. */
    method Allocate() returns (t: LevelTable)
      ensures fresh(t) && t.Valid() && !t.compressed && t.contents == [] && t.versions == seq(MAX_LEVEL, _ => 0)
      ensures Unused(t.addr)
    {
      ghost var some := SomePlace();
      assert Unused(some);
      var chosen: nat :| Unused(chosen);
      t := new LevelTable(chosen);
    }

    /** A fresh page, entered in the buffer when compressing; another table may
        be compressed to make room. */
    method Create(p: Page)
      requires Valid() && p !in pages
      modifies this, pages.Values, buffer
      ensures Valid() && p in pages && fresh(pages[p]) && !pages[p].compressed
      ensures pages == old(pages)[p := pages[p]]
      ensures view == old(view)[p := Content(seq(MAX_LEVEL, _ => 0), [])]
    {
      var t := Allocate();
      if compressing {
        assert forall s | s in buffer.Tables() :: AtHome(s) && s in pages.Values;
        buffer.AddTable(t);
      }
      ghost var active := buffer.Tables();
      assert forall q | q in pages :: Good(q, active) && pages[q] != t && pages[q].addr != t.addr by {
        assert forall q | q in pages :: old(Good(q, buffer.Tables()));
      }
      EnterPage(p, t);
    }

    method EnterPage(p: Page, t: LevelTable)
      requires buffer.Valid() && view.Keys == pages.Keys
      requires forall q | q in pages :: Good(q, buffer.Tables()) && pages[q].addr != t.addr
      requires forall s | s in buffer.Tables() && s != t :: AtHome(s)
      requires p !in pages && t.Valid() && !t.compressed && (compressing ==> t in buffer.Tables())
      modifies `pages, `view, `home
      ensures Valid() && pages == old(pages)[p := t] && view == old(view)[p := Content(t.versions, t.contents)]
    {
      pages := pages[p := t];
      view := view[p := Content(t.versions, t.contents)];
      home := home[t.addr := p];
      forall s | s in buffer.Tables() ensures AtHome(s) {
        assert s != t ==> old(AtHome(s));
      }
      forall q | q in pages ensures Good(q, buffer.Tables()) {
        assert q != p ==> old(Good(q, buffer.Tables()));
      }
    }

    /** Drops every table of a page from its first missing or outdated level. */
    method DropDead(p: Page, v: Versions)
      requires Valid() && p in pages
      modifies `view, pages[p]
      ensures Valid() && view == old(view)[p := Dropped(old(view)[p], v, MAX_LEVEL)]
      ensures pages[p].compressed == old(pages[p].compressed)
    {
      assert Good(p, buffer.Tables());
      pages[p].CollectGarbageUnbounded(v);
      view := view[p := Dropped(view[p], v, MAX_LEVEL)];
      forall q | q in pages ensures Good(q, buffer.Tables()) {
        assert old(Good(q, buffer.Tables()));
      }
    }

    /** Decompresses a page; another table may be compressed to make room. */
    method Activate(p: Page)
      requires Valid() && p in pages && pages[p].compressed
      modifies pages.Values, buffer
      ensures Valid() && !pages[p].compressed
    {
      assert Good(p, buffer.Tables());
      forall s | s in buffer.Tables() ensures s in pages.Values && s != pages[p] && s.addr != pages[p].addr {
        assert AtHome(s) && Good(home[s.addr], buffer.Tables());
      }
      buffer.Decompress(pages[p]);
      forall q | q in pages ensures Good(q, buffer.Tables()) {
        assert old(Good(q, buffer.Tables()));
      }
    }

    /** Collects the garbage of one page. */
    method CollectPage(p: Page, v: Versions, n: nat)
      requires Valid() && p in pages && n < MAX_LEVEL
      requires OutdatedBelow(view[p].versions, |view[p].tables|, v, n)
      modifies `view, pages[p]
      ensures Valid() && view == old(view)[p := Dropped(old(view)[p], v, n)]
    {
      assert Good(p, buffer.Tables());
      pages[p].CollectGarbageWithinBounds(v, n);
      view := view[p := Dropped(view[p], v, n)];
      forall q | q in pages ensures Good(q, buffer.Tables()) {
        assert old(Good(q, buffer.Tables()));
      }
    }

    /** The table of a page, created or decompressed on demand. */
    method GetTable(p: Page, v: Versions)
      requires Valid()
      modifies this, pages.Values, buffer
      ensures Valid() && p in pages && !pages[p].compressed
      ensures OnlyCollected(old(view), view, v, MAX_LEVEL)
      ensures forall q | q in pages :: fresh(pages[q]) || (q in old(pages) && pages[q] == old(pages)[q])
    {
      hide Good, OnlyCollected;
      OneCollected(view, p, v, MAX_LEVEL);
      if p !in pages {
        Create(p);
      } else if pages[p].compressed {
        DropDead(p, v);
        Activate(p);
      }
    }

    /** Reads the first `n` levels of one entry of an uncompressed page. */
    method GetEntry(p: Page, idx: nat, n: nat, v: Versions) returns (times: seq<Time>)
      requires Valid() && p in pages && !pages[p].compressed && idx < ENTRIES && n <= MAX_LEVEL
      ensures |times| == n && forall i: nat | i < n :: times[i] == Held(view[p].versions, view[p].tables, v, idx, i)
    {
      var t := pages[p];
      assert Good(p, buffer.Tables());
      times := [];
      while |times| < n
        invariant |times| <= n
        invariant forall i: nat | i < |times| :: times[i] == Held(t.versions, t.contents, v, idx, i)
      {
        var time := t.GetTime(|times|, idx, v);
        times := times + [time];
      }
    }

    /** Writes the first levels of one entry of an uncompressed page. */
    method SetEntry(p: Page, idx: nat, v: Versions, times: seq<Time>)
      requires Valid() && p in pages && !pages[p].compressed && idx < ENTRIES && |times| <= MAX_LEVEL
      modifies `view, pages[p]
      ensures Valid() && view == old(view)[p := view[p]]
      ensures Stored(old(view)[p], view[p], v, idx, times)
    {
      assert Good(p, buffer.Tables());
      SetLevels(pages[p], idx, v, times);
      view := view[p := Content(pages[p].versions, pages[p].contents)];
      forall q | q in pages ensures Good(q, buffer.Tables()) {
        assert old(Good(q, buffer.Tables()));
      }
    }
  }

  method SetLevels(t: LevelTable, idx: nat, v: Versions, times: seq<Time>)
    requires t.Valid() && !t.compressed && idx < ENTRIES && |times| <= MAX_LEVEL
    modifies t
    ensures t.Valid() && !t.compressed
    ensures Stored(old(Content(t.versions, t.contents)), Content(t.versions, t.contents), v, idx, times)
  {
    ghost var was := Content(t.versions, t.contents);
    var k := 0;
    while k < |times|
      invariant 0 <= k <= |times| && t.Valid() && !t.compressed && k <= |t.contents|
      invariant Stored(was, Content(t.versions, t.contents), v, idx, times[..k])
    {
      t.SetTime(k, idx, v[k], times[k]);
      k := k + 1;
    }
    assert times[..k] == times;
  }
}
