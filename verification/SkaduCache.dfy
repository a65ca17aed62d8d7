/** The write-back cache in front of the level tables
    (runtime/src/MShadowCache.cpp). */
module SkaduCaches {
  import opened Delta
  import opened ShadowSpec
  import opened Pages
  import opened CacheLines
  import opened Skadu

  /** getStartInvalidLevel: scans from the deepest level up. */
  method GetStartInvalidLevel(lastVer: nat, v: Versions, size: nat) returns (firstInvalid: nat)
    requires size <= MAX_LEVEL
    ensures firstInvalid == StartInvalid(lastVer, v, size)
  {
    if size == 0 {
      return 0;
    }
    if lastVer == v[size - 1] {
      return size;
    }
    firstInvalid := size;
    while firstInvalid > 0
      invariant firstInvalid <= size && StartInvalid(lastVer, v, firstInvalid) == StartInvalid(lastVer, v, size)
    {
      if lastVer >= v[firstInvalid - 1] {
        break;
      }
      firstInvalid := firstInvalid - 1;
    }
  }

  method CountNonZero(times: seq<Time>, size: nat) returns (w: nat)
    requires size <= |times|
    ensures w == NonZero(times, size)
  {
    w := 0;
    while w < size && times[w] != 0
      invariant w <= size && forall i | 0 <= i < w :: times[i] != 0
      invariant NonZeroFrom(times, size, 0) == NonZeroFrom(times, size, w)
    {
      w := w + 1;
    }
  }

  /** MShadowSkadu::evict: the leading non-zero times go to the level tables. */
  method WriteLevels(shadow: MShadowSkadu, l: Line, size: nat, v: Versions,
                     ghost n: nat, ghost depth: nat, ghost next: nat)
    requires shadow.Valid() && shadow.Follows(v, depth, next) && Ticking(v, depth, next) && next > 0
    requires l.lastSize <= |l.times| && l.lastSize <= MAX_LEVEL && size == StartInvalid(l.version, v, l.lastSize)
    requires n <= depth && n <= MAX_LEVEL && l.tag % 8 == 0
    modifies shadow.store, shadow.store.pages.Values, shadow.store.buffer
    ensures shadow.Valid() && shadow.Follows(v, depth, next)
    ensures forall q | q in shadow.store.pages ::
              fresh(shadow.store.pages[q])
              || (q in old(shadow.store.pages) && shadow.store.pages[q] == old(shadow.store.pages)[q])
    ensures WrittenBack(l, old(shadow.store.view), shadow.store.view, v, n)
  {
    ghost var was := shadow.store.view;
    shadow.GetLevelTable(l.tag, v, depth, next);
    ghost var found := shadow.store.view;
    var w := CountNonZero(l.times, size);
    var times := l.times[..w];
    shadow.SetTimes(l.tag, v, times, depth, next);
    WriteBackReads(l, times, was, found, shadow.store.view, v, n, depth);
  }

  /** What a standing cache gives: sizes and sound lines. */
  lemma HeldTapers(q: Cache, v: Versions, n: nat, next: nat, c: nat)
    requires n <= MAX_LEVEL && HeldOk(q, v, n, next) && c > 0
    ensures Tapers(q.held, c, n)
  {
    assert CellHeld(q, v, n, c);
  }

  lemma CacheShape(q: Cache, view: View, v: Versions, depth: nat, next: nat, levels: nat)
    requires CacheInStep(q, view, v, depth, next, levels)
    ensures Sized(q) && levels < MAX_LEVEL && Ticking(v, depth, next) && Follows(view, v, depth, next)
    ensures HeldOk(q, v, Size(depth, levels), next) && CacheOk(q, view, v, Size(depth, levels), next)
    ensures forall k: nat | k < |q.lines| ::
              q.lines[k].tag % 8 == 0 && (q.lines[k].tag != 0 ==> q.lines[k].version < next)
  {
    assert forall k: nat | k < |q.lines| :: LineOk(q.lines[k], v, Size(depth, levels), next);
  }

  lemma FlushedStart(q: Cache, v: Versions, n: nat)
    requires Sized(q) && n <= MAX_LEVEL
    ensures Flushed(q, 0, v, n) == q
  {
  }

  lemma FlushedNext(q: Cache, k: nat, v: Versions, n: nat)
    requires Sized(q) && n <= MAX_LEVEL && k < |q.lines|
    ensures Vacated(Flushed(q, k, v, n), k, v, n) == Flushed(q, k + 1, v, n)
  {
  }

  /** Once all lines are written back the cache can be replaced. */
  lemma ResizeInStep(q: Cache, was: View, now: View, v: Versions, depth: nat, next: nat, levels: nat)
    requires CacheInStep(q, was, v, depth, next, levels)
    requires Sized(q) && Size(depth, levels) <= MAX_LEVEL
    requires CacheInStep(Flushed(q, |q.lines|, v, Size(depth, levels)), now, v, depth, next, levels)
    ensures CacheInStep(Resized(q, v, Size(depth, levels)), now, v, depth, next, levels)
  {
    hide HeldOk, Backed;
    ResizeBacked(q, now, v, Size(depth, levels), next);
  }

  class SkaduCache {
    const shadow: MShadowSkadu
    var lines: seq<Line>
    var cols: nat
    /** The memory that the lines and the level tables stand for. */
    ghost var held: map<nat, Vector>

    constructor (shadow: MShadowSkadu, megabytes: nat, cols: nat)
      requires megabytes > 0
      ensures this.shadow == shadow && View() == EmptyCache(megabytes * 1024 * 1024 / 8, cols)
    {
      this.shadow := shadow;
      this.cols := cols;
      lines := EmptyLines(megabytes * 1024 * 1024 / 8, cols);
      held := map[];
    }

    ghost function View(): Cache
      reads this
    {
      Cache(lines, cols, held)
    }

    /** Some lines may have been evicted already: `q` has those dropped. */
    ghost predicate Standing(q: Cache, v: Versions, depth: nat, next: nat, levels: nat)
      reads shadow.store, shadow.store.pages.Values, shadow.store.buffer, shadow.store.buffer.Tables()
    {
      shadow.Valid() && CacheInStep(q, shadow.store.view, v, depth, next, levels)
    }

    ghost predicate InStep(v: Versions, depth: nat, next: nat, levels: nat)
      reads this, shadow.store, shadow.store.pages.Values, shadow.store.buffer, shadow.store.buffer.Tables()
    {
      Standing(View(), v, depth, next, levels)
    }

    /** Writes line `k` back. */
    method Evict(k: nat, ghost q: Cache, v: Versions, ghost depth: nat, ghost next: nat, ghost levels: nat)
      requires Standing(q, v, depth, next, levels)
      requires k < |lines| && |q.lines| == |lines| && q.lines[k] == lines[k]
      modifies shadow.store, shadow.store.pages.Values, shadow.store.buffer
      ensures forall q | q in shadow.store.pages ::
                fresh(shadow.store.pages[q])
                || (q in old(shadow.store.pages) && shadow.store.pages[q] == old(shadow.store.pages)[q])
      ensures Sized(q) && Size(depth, levels) <= MAX_LEVEL
      ensures Standing(Vacated(q, k, v, Size(depth, levels)), v, depth, next, levels)
    {
      hide CacheOk, HeldOk, WrittenBack;
      CacheShape(q, shadow.store.view, v, depth, next, levels);
      ghost var n := Size(depth, levels);
      ghost var was := shadow.store.view;
      var l := lines[k];
      if l.tag != 0 {
        var evictSize := GetStartInvalidLevel(l.version, v, l.lastSize);
        WriteLevels(shadow, l, evictSize, v, n, depth, next);
      }
      DropBacked(q, was, shadow.store.view, v, n, next, k);
    }

    method Flush(v: Versions, ghost depth: nat, ghost next: nat, ghost levels: nat)
      requires InStep(v, depth, next, levels)
      modifies shadow.store, shadow.store.pages.Values, shadow.store.buffer
      ensures forall q | q in shadow.store.pages ::
                fresh(shadow.store.pages[q])
                || (q in old(shadow.store.pages) && shadow.store.pages[q] == old(shadow.store.pages)[q])
      ensures Sized(View()) && Size(depth, levels) <= MAX_LEVEL
      ensures Standing(Flushed(View(), |lines|, v, Size(depth, levels)), v, depth, next, levels)
    {
      hide CacheInStep, Flushed;
      CacheShape(View(), shadow.store.view, v, depth, next, levels);
      ghost var n := Size(depth, levels);
      var k := 0;
      FlushedStart(View(), v, n);
      while k < |lines|
        invariant 0 <= k <= |lines| && Standing(Flushed(View(), k, v, n), v, depth, next, levels)
        invariant forall q | q in shadow.store.pages ::
                fresh(shadow.store.pages[q])
                || (q in old(shadow.store.pages) && shadow.store.pages[q] == old(shadow.store.pages)[q])
      {
        FlushedNext(View(), k, v, n);
        Evict(k, Flushed(View(), k, v, n), v, depth, next, levels);
        k := k + 1;
      }
    }

    /** Everything is written back, for a cache that is to be replaced. */
    method WriteAllBack(ghost q: Cache, v: Versions, ghost depth: nat, ghost next: nat, ghost levels: nat)
      requires InStep(v, depth, next, levels) && q == View()
      modifies shadow.store, shadow.store.pages.Values, shadow.store.buffer
      ensures forall p | p in shadow.store.pages ::
                fresh(shadow.store.pages[p])
                || (p in old(shadow.store.pages) && shadow.store.pages[p] == old(shadow.store.pages)[p])
      ensures Sized(q) && Size(depth, levels) <= MAX_LEVEL
      ensures Standing(Resized(q, v, Size(depth, levels)), v, depth, next, levels)
    {
      hide CacheInStep, Flushed;
      ghost var was := shadow.store.view;
      Flush(v, depth, next, levels);
      ResizeInStep(q, was, shadow.store.view, v, depth, next, levels);
    }

    /** A row too short for the current depth: everything is written back and
        the cache starts again with ten more columns. */
    method CheckResize(size: nat, v: Versions, ghost depth: nat, ghost next: nat, ghost levels: nat)
      requires InStep(v, depth, next, levels) && size == Size(depth, levels)
      modifies this, shadow.store, shadow.store.pages.Values, shadow.store.buffer
      ensures forall q | q in shadow.store.pages ::
                fresh(shadow.store.pages[q])
                || (q in old(shadow.store.pages) && shadow.store.pages[q] == old(shadow.store.pages)[q])
      ensures InStep(v, depth, next, levels) && Sized(old(View())) && size <= MAX_LEVEL
      ensures View() == Widened(old(View()), v, size)
    {
      hide CacheInStep, Flushed, HeldOk, CacheOk;
      ghost var q := View();
      CacheShape(q, shadow.store.view, v, depth, next, levels);
      if cols < size {
        WriteAllBack(q, v, depth, next, levels);
        lines, cols := EmptyLines(|lines|, cols + 10), cols + 10;
        held := Resized(q, v, size).held;
        assert View() == Resized(q, v, size);
      }
    }

    /** Makes the line of a cell free to be overwritten. */
    method Admit(c: nat, size: nat, v: Versions, ghost depth: nat, ghost next: nat, ghost levels: nat)
      returns (hit: bool, ghost a: Cache)
      requires InStep(v, depth, next, levels) && size == Size(depth, levels)
      modifies this, shadow.store, shadow.store.pages.Values, shadow.store.buffer
      ensures forall q | q in shadow.store.pages ::
                fresh(shadow.store.pages[q])
                || (q in old(shadow.store.pages) && shadow.store.pages[q] == old(shadow.store.pages)[q])
      ensures Sized(old(View())) && size <= MAX_LEVEL
      ensures a == Admitted(old(View()), c, v, size) && Standing(a, v, depth, next, levels)
      ensures cols == a.cols && |lines| == |a.lines| && hit == Cached(a.lines, c)
      ensures var k := LineOf(c, lines); a.lines == lines[k := a.lines[k]] && a.lines[k].times == lines[k].times
      ensures hit ==> a.lines == lines
    {
      hide CacheInStep;
      CheckResize(size, v, depth, next, levels);
      CacheShape(View(), shadow.store.view, v, depth, next, levels);
      hit := Cached(lines, c);
      a := View();
      if !hit {
        var k := LineOf(c, lines);
        Evict(k, View(), v, depth, next, levels);
        a := Vacated(View(), k, v, size);
      }
    }

    /** The times of a cell: from its line, where the levels entered since the
        last access read as zero, or else from the level tables. */
    method ReadRow(c: nat, size: nat, hit: bool, ghost a: Cache, v: Versions, ghost depth: nat, ghost next: nat,
                   ghost levels: nat)
      returns (row: seq<Time>)
      requires Standing(a, v, depth, next, levels) && c > 0 && size == Size(depth, levels)
      requires |lines| == |a.lines| && size <= a.cols && hit == Cached(a.lines, c) && (hit ==> a.lines == lines)
      modifies shadow.store, shadow.store.pages.Values, shadow.store.buffer
      ensures forall q | q in shadow.store.pages ::
                fresh(shadow.store.pages[q])
                || (q in old(shadow.store.pages) && shadow.store.pages[q] == old(shadow.store.pages)[q])
      ensures Standing(a, v, depth, next, levels) && size <= MAX_LEVEL && row == Read(a.held, c, size)
    {
      CacheShape(a, shadow.store.view, v, depth, next, levels);
      if hit {
        var l := lines[LineOf(c, lines)];
        HitRow(a, v, depth, size, next, c);
        var firstInvalid := GetStartInvalidLevel(l.version, v, size);
        row := l.times[..firstInvalid] + seq(size - firstInvalid, _ => 0);
      } else {
        row := FetchRow(c, size, a, v, depth, next, levels);
      }
    }

    method FetchRow(c: nat, size: nat, ghost a: Cache, v: Versions, ghost depth: nat, ghost next: nat,
                    ghost levels: nat)
      returns (row: seq<Time>)
      requires Standing(a, v, depth, next, levels) && c > 0 && size == Size(depth, levels)
      requires a.lines != [] && !Cached(a.lines, c)
      modifies shadow.store, shadow.store.pages.Values, shadow.store.buffer
      ensures forall q | q in shadow.store.pages ::
                fresh(shadow.store.pages[q])
                || (q in old(shadow.store.pages) && shadow.store.pages[q] == old(shadow.store.pages)[q])
      ensures Standing(a, v, depth, next, levels) && size <= MAX_LEVEL && row == Read(a.held, c, size)
    {
      hide HeldOk;
      CacheShape(a, shadow.store.view, v, depth, next, levels);
      ghost var was := shadow.store.view;
      row := shadow.Get(8 * c, size, v, depth, next);
      assert CellBacked(a, was, v, size, c);
      SameReads(a, was, shadow.store.view, v, size, next);
    }

    /** Leaves the line with a cell's new row and the current version. */
    method Fill(c: nat, row: seq<Time>, ghost a: Cache, ghost now: map<nat, Vector>, v: Versions,
                ghost depth: nat, ghost next: nat, ghost levels: nat)
      requires Standing(a, v, depth, next, levels) && c > 0 && 0 < |row| == Size(depth, levels) <= a.cols
      requires Sized(a) && Free(a, c) && Size(depth, levels) <= MAX_LEVEL
      requires cols == a.cols && |lines| == |a.lines|
      requires var k := LineOf(c, lines); a.lines == lines[k := a.lines[k]] && a.lines[k].times == lines[k].times
      requires forall d: nat, i: nat | d != c && i < |row| :: At(now, d, i) == At(a.held, d, i)
      requires (forall i: nat | i < |row| :: At(now, c, i) == row[i]) && Tapers(now, c, |row|)
      requires forall i: nat | i < |row| && row[i] == 0 :: At(a.held, c, i) == 0
      modifies this
      ensures InStep(v, depth, next, levels) && View() == Filled(a.(held := now), c, v, |row|, row)
    {
      CacheShape(a, shadow.store.view, v, depth, next, levels);
      FillBacked(a, shadow.store.view, c, v, depth, |row|, next, now, row);
      var k := LineOf(c, lines);
      lines := lines[k := Line(8 * c, v[|row| - 1], |row|, row + lines[k].times[|row|..])];
      held := now;
      assert View() == Filled(a.(held := now), c, v, |row|, row);
    }

    /** Reads a cell through its line. */
    method Get(addr: nat, v: Versions, size: nat, ghost depth: nat, ghost next: nat, ghost levels: nat)
      returns (times: seq<Time>)
      requires InStep(v, depth, next, levels) && Cell(addr) > 0
      requires 0 < size == Size(depth, levels) <= cols + 10
      modifies this, shadow.store, shadow.store.pages.Values, shadow.store.buffer
      ensures forall q | q in shadow.store.pages ::
                fresh(shadow.store.pages[q])
                || (q in old(shadow.store.pages) && shadow.store.pages[q] == old(shadow.store.pages)[q])
      ensures InStep(v, depth, next, levels) && Sized(old(View())) && size <= MAX_LEVEL
      ensures View() == AfterGet(old(View()), Cell(addr), v, size)
      ensures times == Fetched(old(View()), Cell(addr), v, size)
    {
      hide CacheInStep, Admitted, HeldOk, Filled, Tapers, Follows, PageFollows;
      ghost var q := View();
      CacheShape(q, shadow.store.view, v, depth, next, levels);
      var c := Cell(addr);
      ghost var a;
      var hit;
      hit, a := Admit(c, size, v, depth, next, levels);
      AdmitFree(q, c, v, size);
      times := ReadRow(c, size, hit, a, v, depth, next, levels);
      CacheShape(a, shadow.store.view, v, depth, next, levels);
      HeldTapers(a, v, size, next, c);
      Fill(c, times, a, a.held, v, depth, next, levels);
    }

    /** Writes a cell's times into its line only. */
    method Set(addr: nat, times: seq<Time>, v: Versions, ghost depth: nat, ghost next: nat, ghost levels: nat)
      requires InStep(v, depth, next, levels) && Cell(addr) > 0
      requires 0 < |times| == Size(depth, levels) <= cols + 10
      requires forall i: nat | i < |times| :: times[i] > 0
      modifies this, shadow.store, shadow.store.pages.Values, shadow.store.buffer
      ensures forall q | q in shadow.store.pages ::
                fresh(shadow.store.pages[q])
                || (q in old(shadow.store.pages) && shadow.store.pages[q] == old(shadow.store.pages)[q])
      ensures InStep(v, depth, next, levels) && Sized(old(View())) && |times| <= MAX_LEVEL
      ensures View() == AfterSet(old(View()), Cell(addr), v, times)
    {
      hide CacheInStep, Admitted, HeldOk, Filled, Follows, PageFollows;
      ghost var q := View();
      CacheShape(q, shadow.store.view, v, depth, next, levels);
      var c := Cell(addr);
      ghost var a;
      var hit;
      hit, a := Admit(c, |times|, v, depth, next, levels);
      AdmitFree(q, c, v, |times|);
      Fill(c, times, a, Written(a.held, c, times), v, depth, next, levels);
    }
  }
}
