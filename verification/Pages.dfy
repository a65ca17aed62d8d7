/** The pages of shadow memory as values: what they hold under a version clock
    and which changes no read can see. */
module Pages {
  import opened Delta
  import opened LevelTables
  import opened ShadowSpec

  /** The versions and plain tables of a page. */
  datatype Content = Content(versions: Versions, tables: seq<Row>)

  type View = map<Page, Content>

  /** A page against the version clock: its versions are ones the clock issued,
      and an active level is current only if every level above it is. */
  ghost predicate PageFollows(c: Content, v: Versions, depth: nat, next: nat) {
    && |c.tables| <= MAX_LEVEL
    && (forall i: nat | i < MAX_LEVEL :: c.versions[i] <= v[i])
    && (forall i: nat | i < |c.tables| :: c.versions[i] < next)
    && (forall i: nat, j: nat | i < j < depth && j < |c.tables| && c.versions[j] == v[j] :: c.versions[i] == v[i])
  }

  ghost predicate Follows(view: View, v: Versions, depth: nat, next: nat) {
    forall p | p in view :: PageFollows(view[p], v, depth, next)
  }

  /** The time that shadow memory holds for an address at a level. */
  ghost function Lookup(view: View, addr: nat, v: Versions, i: nat): Time
    requires i < MAX_LEVEL
  {
    var p := PageOf(addr);
    if p in view then Held(view[p].versions, view[p].tables, v, EntryOf(addr), i) else 0
  }

  /** Shadow memory holds the times of the eager memory at the first `n` levels. */
  ghost predicate Agrees(view: View, mem: map<nat, Vector>, v: Versions, n: nat)
    requires n <= MAX_LEVEL
  {
    forall a: nat, i: nat | i < n :: Lookup(view, a, v, i) == At(mem, Cell(a), i)
  }

  function Dropped(c: Content, v: Versions, n: nat): Content
    requires n <= MAX_LEVEL
  {
    c.(tables := c.tables[..Live(c.versions, |c.tables|, v, n)])
  }

  /** All that happened is that empty pages may have appeared and that the
      tables below the first outdated one of the first `n` levels were dropped. */
  ghost predicate OnlyCollected(was: View, now: View, v: Versions, n: nat)
    requires n <= MAX_LEVEL
  {
    && was.Keys <= now.Keys
    && (forall p | p in was :: now[p] == was[p] || now[p] == Dropped(was[p], v, n))
    && (forall p | p in now && p !in was :: now[p] == Content(seq(MAX_LEVEL, _ => 0), []))
  }

  lemma OneCollected(view: View, p: Page, v: Versions, n: nat)
    requires n <= MAX_LEVEL
    ensures OnlyCollected(view, view, v, n)
    ensures p !in view ==> OnlyCollected(view, view[p := Content(seq(MAX_LEVEL, _ => 0), [])], v, n)
    ensures p in view ==> OnlyCollected(view, view[p := Dropped(view[p], v, n)], v, n)
  {
  }

  /** Collecting garbage never removes a table that a read could still use. */
  lemma DroppedPage(c: Content, v: Versions, depth: nat, next: nat, n: nat)
    requires PageFollows(c, v, depth, next) && n <= MAX_LEVEL
    ensures var d := Dropped(c, v, n);
            PageFollows(d, v, depth, next)
            && forall x: nat, i: nat | i < n && i < depth && x < ENTRIES ::
                 Held(d.versions, d.tables, v, x, i) == Held(c.versions, c.tables, v, x, i)
  {
  }

  lemma CollectedReads(was: View, now: View, v: Versions, depth: nat, next: nat, n: nat)
    requires Follows(was, v, depth, next) && n <= MAX_LEVEL && OnlyCollected(was, now, v, n)
    ensures Follows(now, v, depth, next)
    ensures forall a: nat, i: nat | i < n && i < depth :: Lookup(now, a, v, i) == Lookup(was, a, v, i)
  {
    hide EntryOf, PageOf, Live;
    forall p | p in was
      ensures PageFollows(now[p], v, depth, next)
      ensures forall x: nat, i: nat | i < n && i < depth && x < ENTRIES ::
                 Held(now[p].versions, now[p].tables, v, x, i) == Held(was[p].versions, was[p].tables, v, x, i)
    {
      DroppedPage(was[p], v, depth, next, n);
    }
    forall a: nat, i: nat | i < n && i < depth ensures Lookup(now, a, v, i) == Lookup(was, a, v, i) {
      EntryBound(a);
    }
  }

  lemma EntryBound(a: nat)
    ensures EntryOf(a) < ENTRIES
  {
  }

  /** A sweep of the pages, those in `left` still to come. */
  ghost function Swept(was: View, left: set<Page>, v: Versions, n: nat): View
    requires n <= MAX_LEVEL
  {
    map p | p in was :: if p in left then was[p] else Dropped(was[p], v, n)
  }

  lemma SweptStep(was: View, left: set<Page>, v: Versions, n: nat, p: Page)
    requires n <= MAX_LEVEL && p in left && p in was
    ensures Swept(was, left, v, n)[p := Dropped(was[p], v, n)] == Swept(was, left - {p}, v, n)
  {
  }

  lemma SweptAll(was: View, v: Versions, n: nat)
    requires n <= MAX_LEVEL
    ensures Swept(was, was.Keys, v, n) == was && OnlyCollected(was, Swept(was, {}, v, n), v, n)
  {
  }

  lemma OutdatedSuffix(c: Content, v: Versions, depth: nat, next: nat, n: nat)
    requires PageFollows(c, v, depth, next) && n <= depth && n <= MAX_LEVEL
    ensures OutdatedBelow(c.versions, |c.tables|, v, n)
  {
  }

  /** The pages, the version clock and the eager memory are in step. */
  ghost predicate InStep(view: View, mem: map<nat, Vector>, v: Versions, depth: nat, next: nat, levels: nat) {
    && levels < MAX_LEVEL && Ticking(v, depth, next)
    && Follows(view, v, depth, next) && Agrees(view, mem, v, Size(depth, levels))
  }

  lemma StartInStep(levels: nat, start: nat)
    requires levels < MAX_LEVEL
    ensures InStep(map[], map[], seq(MAX_LEVEL, _ => 0), 0, start, levels)
  {
  }

  /** Issuing one version zeroes the whole of a level. */
  lemma EnterInStep(view: View, mem: map<nat, Vector>, v: Versions, depth: nat, next: nat, levels: nat)
    requires InStep(view, mem, v, depth, next, levels)
    ensures InStep(view, Zeroed(mem, depth), Issue(v, depth, next), depth + 1, next + 1, levels)
  {
    var v' := Issue(v, depth, next);
    Entered(v, depth, next);
    forall p | p in view ensures PageFollows(view[p], v', depth + 1, next + 1) {
      assert PageFollows(view[p], v, depth, next);
    }
    forall a: nat, i: nat | i < Size(depth + 1, levels)
      ensures Lookup(view, a, v', i) == At(Zeroed(mem, depth), Cell(a), i)
    {
      if i < depth {
        assert Lookup(view, a, v, i) == At(mem, Cell(a), i);
      } else if PageOf(a) in view {
        assert PageFollows(view[PageOf(a)], v, depth, next);
      }
    }
  }

  lemma ExitInStep(view: View, mem: map<nat, Vector>, v: Versions, depth: nat, next: nat, levels: nat)
    requires InStep(view, mem, v, depth, next, levels) && depth > 0
    ensures InStep(view, mem, v, depth - 1, next, levels)
  {
    forall p | p in view ensures PageFollows(view[p], v, depth - 1, next) {
      assert PageFollows(view[p], v, depth, next);
    }
  }

  /** A page whose first `n` levels were written at one entry, under the
      current versions. */
  ghost predicate Stored(was: Content, now: Content, v: Versions, idx: nat, times: seq<Time>)
    requires |times| <= MAX_LEVEL && idx < ENTRIES
  {
    && (forall i: nat | i < MAX_LEVEL :: now.versions[i] == if i < |times| then v[i] else was.versions[i])
    && |now.tables| == (if |times| <= |was.tables| then |was.tables| else |times|)
    && (forall i: nat, x: nat | i < |times| && x < ENTRIES ::
          now.tables[i][x] == if x == idx then times[i] else Held(was.versions, was.tables, v, x, i))
    && (forall i: nat | |times| <= i < |was.tables| :: now.tables[i] == was.tables[i])
  }

  lemma StoredPage(was: Content, now: Content, v: Versions, idx: nat, times: seq<Time>, depth: nat, next: nat)
    requires PageFollows(was, v, depth, next) && Ticking(v, depth, next)
    requires next > 0 && |times| <= MAX_LEVEL && idx < ENTRIES && Stored(was, now, v, idx, times)
    ensures PageFollows(now, v, depth, next)
    ensures forall x: nat, i: nat | |times| <= i < MAX_LEVEL && x < ENTRIES ::
              Held(now.versions, now.tables, v, x, i) == Held(was.versions, was.tables, v, x, i)
    ensures forall x: nat, i: nat | i < |times| && x < ENTRIES ::
              Held(now.versions, now.tables, v, x, i) == if x == idx then times[i]
                else Held(was.versions, was.tables, v, x, i)
  {
  }

  /** Such a write stores the times in one cell and in no other. */
  lemma StoredReads(was: View, now: View, addr: nat, v: Versions, times: seq<Time>, depth: nat, next: nat)
    requires Follows(was, v, depth, next) && Ticking(v, depth, next) && next > 0 && |times| <= MAX_LEVEL
    requires PageOf(addr) in was && now.Keys == was.Keys
    requires Stored(was[PageOf(addr)], now[PageOf(addr)], v, EntryOf(addr), times)
    requires forall p | p in was && p != PageOf(addr) :: now[p] == was[p]
    ensures Follows(now, v, depth, next)
    ensures forall a: nat, i: nat | i < MAX_LEVEL ::
              Lookup(now, a, v, i) == if Cell(a) == Cell(addr) && i < |times| then times[i] else Lookup(was, a, v, i)
  {
    hide PageFollows, Ticking, EntryOf, PageOf;
    StoredPage(was[PageOf(addr)], now[PageOf(addr)], v, EntryOf(addr), times, depth, next);
    forall a: nat, i: nat | i < MAX_LEVEL
      ensures Lookup(now, a, v, i) == if Cell(a) == Cell(addr) && i < |times| then times[i] else Lookup(was, a, v, i)
    {
      SameEntry(a, addr);
    }
  }
}
