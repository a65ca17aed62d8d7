/** The write-back cache of shadow memory as values: a line keeps a whole
    vector of times under one version (runtime/src/MShadowCache.cpp,
    runtime/src/TagVectorCache.cpp, runtime/src/TagVectorCacheLine.cpp). */
module CacheLines {
  import opened Common
  import opened Delta
  import opened ShadowSpec
  import opened Pages

  /** A line: an empty one has a null tag.  `version` and `lastSize` are the
      deepest version and the number of levels at the last access. */
  datatype Line = Line(tag: nat, version: nat, lastSize: nat, times: seq<Time>)

  function EmptyLine(cols: nat): Line {
    Line(0, 0, 0, seq(cols, _ => 0))
  }

  // ------------------------------------------------------------ line index

  function And(a: nat, m: nat): (r: nat)
    ensures r <= m
  {
    if m == 0 then 0 else (if a % 2 == 1 && m % 2 == 1 then 1 else 0) + 2 * And(a / 2, m / 2)
  }

  function Xor(a: nat, b: nat): nat {
    if a == 0 && b == 0 then 0 else (if a % 2 != b % 2 then 1 else 0) + 2 * Xor(a / 2, b / 2)
  }

  lemma {:induction false} XorMasked(a: nat, b: nat, m: nat)
    ensures Xor(And(a, m), And(b, m)) <= m
    decreases m
  {
    if m > 0 {
      XorMasked(a / 2, b / 2, m / 2);
      var x, y := And(a, m), And(b, m);
      assert x / 2 == And(a / 2, m / 2) && y / 2 == And(b / 2, m / 2);
      assert m % 2 == 0 ==> x % 2 == 0 && y % 2 == 0;
    }
  }

  function FirstOnePosition(n: nat): nat
    requires n > 0
  {
    if n % 2 == 1 then 0 else 1 + FirstOnePosition(n / 2)
  }

  /** Two slices of the cell number folded together; for any line count the
      index is in range. */
  function LineIndex(addr: nat, count: nat): (k: nat)
    requires count > 0
    ensures k < count
  {
    var mask := count - 1;
    var upper := addr / 8 / Pow2(FirstOnePosition(count));
    XorMasked(addr / 8, upper, mask);
    Xor(And(addr / 8, mask), And(upper, mask))
  }

  // ------------------------------------------------------------- validity

  /** Levels from the top that a version last seen as `lastVer` is valid for. */
  function StartInvalid(lastVer: nat, v: Versions, size: nat): (r: nat)
    requires size <= MAX_LEVEL
    ensures r <= size
    ensures forall i | r <= i < size :: v[i] > lastVer
    ensures r > 0 ==> v[r - 1] <= lastVer
  {
    if size == 0 then 0 else if v[size - 1] <= lastVer then size else StartInvalid(lastVer, v, size - 1)
  }

  /** The time a line stands for at level `i`. */
  function LineTime(l: Line, v: Versions, i: nat): Time
    requires i < MAX_LEVEL && l.lastSize <= |l.times|
  {
    if i < l.lastSize && v[i] <= l.version then l.times[i] else 0
  }

  /** Levels entered after the last access have later versions. */
  ghost predicate LineOk(l: Line, v: Versions, n: nat, next: nat)
    requires n <= MAX_LEVEL
  {
    && l.lastSize <= |l.times| && l.lastSize <= MAX_LEVEL
    && (l.tag != 0 ==> l.version < next && forall i | l.lastSize <= i < n :: v[i] > l.version)
  }

  /** Leading non-zero times among the first `e`. */
  function NonZero(times: seq<Time>, e: nat): (w: nat)
    requires e <= |times|
    ensures w <= e
    ensures forall i | 0 <= i < w :: times[i] != 0
    ensures w < e ==> times[w] == 0
  {
    NonZeroFrom(times, e, 0)
  }

  function NonZeroFrom(times: seq<Time>, e: nat, k: nat): (w: nat)
    requires k <= e <= |times| && forall i | 0 <= i < k :: times[i] != 0
    ensures k <= w <= e
    ensures forall i | 0 <= i < w :: times[i] != 0
    ensures w < e ==> times[w] == 0
    decreases e - k
  {
    if k < e && times[k] != 0 then NonZeroFrom(times, e, k + 1) else k
  }

  /** How many levels an eviction writes back. */
  function WriteBack(l: Line, v: Versions): (w: nat)
    requires l.lastSize <= |l.times| && l.lastSize <= MAX_LEVEL
  {
    NonZero(l.times, StartInvalid(l.version, v, l.lastSize))
  }

  /** An eviction at a depth with `n` active levels writes no active level past
      the valid ones. */
  predicate Clean(l: Line, v: Versions, n: nat)
    requires l.lastSize <= |l.times| && l.lastSize <= MAX_LEVEL
  {
    var active := if n < l.lastSize then n else l.lastSize;
    (if WriteBack(l, v) < n then WriteBack(l, v) else n) <= StartInvalid(l.version, v, active)
  }

  /** The time of a cell in the level tables. */
  ghost function CellTime(view: View, c: nat, v: Versions, i: nat): Time
    requires i < MAX_LEVEL
  {
    Lookup(view, 8 * c, v, i)
  }

  /** The tables after the write-back of a line. */
  ghost predicate WrittenBack(l: Line, was: View, now: View, v: Versions, n: nat)
    requires n <= MAX_LEVEL && l.lastSize <= |l.times| && l.lastSize <= MAX_LEVEL
  {
    forall c: nat, i: nat | i < n ::
      CellTime(now, c, v, i) == if c == Cell(l.tag) && i < WriteBack(l, v) then l.times[i] else CellTime(was, c, v, i)
  }

  lemma WriteBackReads(l: Line, times: seq<Time>, was: View, found: View, now: View, v: Versions, n: nat, depth: nat)
    requires n <= MAX_LEVEL && n <= depth && l.lastSize <= |l.times| && l.lastSize <= MAX_LEVEL
    requires times == l.times[..WriteBack(l, v)]
    requires forall a: nat, i: nat | i < depth && i < MAX_LEVEL :: Lookup(found, a, v, i) == Lookup(was, a, v, i)
    requires forall a: nat, i: nat | i < MAX_LEVEL ::
               Lookup(now, a, v, i) == if Cell(a) == Cell(l.tag) && i < |times| then times[i]
                 else Lookup(found, a, v, i)
    ensures WrittenBack(l, was, now, v, n)
  {
    assert forall c: nat :: Cell(8 * c) == c;
  }

  // -------------------------------------------------------------- eviction

  /** What a line stands for is zero from some level on. */
  ghost predicate LineTapers(l: Line, v: Versions, n: nat)
    requires n <= MAX_LEVEL && l.lastSize <= |l.times|
  {
    forall i: nat, j: nat | i < j < n && LineTime(l, v, i) == 0 :: LineTime(l, v, j) == 0
  }

  /** What the tables stand for once a line has been written back. */
  function EvictRow(l: Line, v: Versions, n: nat): (r: seq<Time>)
    requires l.lastSize <= |l.times| && l.lastSize <= MAX_LEVEL
    ensures |r| == n
  {
    seq(n, i requires 0 <= i < n => if i < WriteBack(l, v) then l.times[i] else 0)
  }

  lemma EvictRowTapers(l: Line, v: Versions, n: nat)
    requires l.lastSize <= |l.times| && l.lastSize <= MAX_LEVEL
    ensures forall i: nat, j: nat | i < j < n && EvictRow(l, v, n)[i] == 0 :: EvictRow(l, v, n)[j] == 0
  {
    assert forall i: nat | i < WriteBack(l, v) :: l.times[i] != 0;
  }

  /** Behind what is written back a line stands for nothing. */
  lemma BehindWriteBack(l: Line, v: Versions, n: nat, next: nat, i: nat)
    requires n <= MAX_LEVEL && l.tag != 0 && LineOk(l, v, n, next) && LineTapers(l, v, n)
    requires WriteBack(l, v) <= i < n
    ensures LineTime(l, v, i) == 0
  {
    var w, e := WriteBack(l, v), StartInvalid(l.version, v, l.lastSize);
    if w < e && w < i {
      assert LineTime(l, v, w) == 0;
    }
  }

  /** A write-back leaves what the line stood for exactly when it is clean. */
  lemma EvictExact(l: Line, v: Versions, depth: nat, next: nat, n: nat)
    requires Ticking(v, depth, next) && n <= depth && n <= MAX_LEVEL
    requires l.tag != 0 && LineOk(l, v, n, next) && LineTapers(l, v, n)
    ensures Clean(l, v, n) <==> forall i: nat | i < n :: EvictRow(l, v, n)[i] == LineTime(l, v, i)
  {
    var active := if n < l.lastSize then n else l.lastSize;
    var p, w := StartInvalid(l.version, v, active), WriteBack(l, v);
    assert forall i: nat | i < p :: v[i] <= v[p - 1];
    if Clean(l, v, n) {
      forall i: nat | i < n ensures EvictRow(l, v, n)[i] == LineTime(l, v, i) {
        if w <= i {
          BehindWriteBack(l, v, n, next, i);
        }
      }
    } else {
      assert EvictRow(l, v, n)[p] == l.times[p] && LineTime(l, v, p) == 0;
    }
  }

  /** A version array that ascends over the line's recorded depth makes the
      write-back clean. */
  lemma AscendingClean(l: Line, v: Versions, n: nat)
    requires l.lastSize <= |l.times| && l.lastSize <= MAX_LEVEL
    requires forall i: nat, j: nat | i < j < l.lastSize :: v[i] < v[j]
    ensures Clean(l, v, n)
  {
  }

  // ------------------------------------------------------- the whole cache

  /** The cache with the memory that it and the level tables stand for. */
  datatype Cache = Cache(lines: seq<Line>, cols: nat, held: map<nat, Vector>)

  /** Every line has a row of `cols` times. */
  predicate Sized(q: Cache) {
    && q.lines != []
    && forall k: nat | k < |q.lines| ::
         |q.lines[k].times| == q.cols && q.lines[k].lastSize <= q.cols && q.lines[k].lastSize <= MAX_LEVEL
  }

  function EmptyLines(count: nat, cols: nat): (r: seq<Line>)
    ensures |r| == count
  {
    seq(count, _ => EmptyLine(cols))
  }

  function EmptyCache(count: nat, cols: nat): (q: Cache)
    requires count > 0
    ensures Sized(q)
  {
    Cache(EmptyLines(count, cols), cols, map[])
  }

  /** The line a cell would be in. */
  function LineOf(c: nat, lines: seq<Line>): (k: nat)
    requires lines != []
    ensures k < |lines|
  {
    LineIndex(8 * c, |lines|)
  }

  predicate Cached(lines: seq<Line>, c: nat)
    requires lines != []
  {
    c > 0 && lines[LineOf(c, lines)].tag == 8 * c
  }

  /** An eviction writes the line's cell, stale times included. */
  function Evicted(l: Line, v: Versions, n: nat, held: map<nat, Vector>): map<nat, Vector>
    requires l.lastSize <= |l.times| && l.lastSize <= MAX_LEVEL && n <= MAX_LEVEL
  {
    if l.tag == 0 then held else Written(held, Cell(l.tag), EvictRow(l, v, n))
  }

  /** A line that has been evicted no longer stands for anything. */
  function Vacated(q: Cache, k: nat, v: Versions, n: nat): (r: Cache)
    requires Sized(q) && k < |q.lines| && n <= MAX_LEVEL
    ensures Sized(r) && r.cols == q.cols && |r.lines| == |q.lines|
  {
    Cache(q.lines[k := q.lines[k].(tag := 0)], q.cols, Evicted(q.lines[k], v, n, q.held))
  }

  /** The first `k` lines evicted in turn. */
  function Flushed(q: Cache, k: nat, v: Versions, n: nat): (r: Cache)
    requires Sized(q) && k <= |q.lines| && n <= MAX_LEVEL
    ensures Sized(r) && r.cols == q.cols && |r.lines| == |q.lines|
    ensures forall j: nat | j < |r.lines| :: r.lines[j] == if j < k then q.lines[j].(tag := 0) else q.lines[j]
  {
    if k == 0 then q else Vacated(Flushed(q, k - 1, v, n), k - 1, v, n)
  }

  /** Rows too short for the current depth: everything is written back, and the
      cache starts again with ten more columns. */
  function Resized(q: Cache, v: Versions, n: nat): (r: Cache)
    requires Sized(q) && n <= MAX_LEVEL
    ensures Sized(r) && |r.lines| == |q.lines| && r.cols >= q.cols
  {
    Cache(EmptyLines(|q.lines|, q.cols + 10), q.cols + 10, Flushed(q, |q.lines|, v, n).held)
  }

  function Widened(q: Cache, v: Versions, n: nat): (r: Cache)
    requires Sized(q) && n <= MAX_LEVEL
    ensures Sized(r) && |r.lines| == |q.lines| && r.cols >= q.cols
  {
    if q.cols < n then Resized(q, v, n) else q
  }

  /** The cache once a cell's line is free for it. */
  function Admitted(q: Cache, c: nat, v: Versions, n: nat): (r: Cache)
    requires Sized(q) && n <= MAX_LEVEL
    ensures Sized(r) && |r.lines| == |q.lines| && r.cols >= q.cols && (n <= q.cols + 10 ==> n <= r.cols)
  {
    var w := Widened(q, v, n);
    if Cached(w.lines, c) then w else Vacated(w, LineOf(c, w.lines), v, n)
  }

  /** A cell's line filled with its times under the current version. */
  function Filled(q: Cache, c: nat, v: Versions, n: nat, row: seq<Time>): (r: Cache)
    requires Sized(q) && |row| == n && 0 < n <= q.cols && n <= MAX_LEVEL
    ensures Sized(r) && r.cols == q.cols && |r.lines| == |q.lines| && r.held == q.held
  {
    var k := LineOf(c, q.lines);
    q.(lines := q.lines[k := Line(8 * c, v[n - 1], n, row + q.lines[k].times[n..])])
  }

  /** What an access to a cell leaves, and a read returns. */
  function Fetched(q: Cache, c: nat, v: Versions, n: nat): seq<Time>
    requires Sized(q) && n <= MAX_LEVEL
  {
    Read(Admitted(q, c, v, n).held, c, n)
  }

  function AfterGet(q: Cache, c: nat, v: Versions, n: nat): (r: Cache)
    requires Sized(q) && 0 < n <= q.cols + 10 && n <= MAX_LEVEL
    ensures Sized(r) && |r.lines| == |q.lines| && r.cols >= q.cols
  {
    Filled(Admitted(q, c, v, n), c, v, n, Fetched(q, c, v, n))
  }

  function AfterSet(q: Cache, c: nat, v: Versions, times: seq<Time>): (r: Cache)
    requires Sized(q) && 0 < |times| <= q.cols + 10 && |times| <= MAX_LEVEL
    ensures Sized(r) && |r.lines| == |q.lines| && r.cols >= q.cols
  {
    var a := Admitted(q, c, v, |times|);
    Filled(a.(held := Written(a.held, c, times)), c, v, |times|, times)
  }

  // --------------------------------------------- what the cache stands for

  /** Lines are sound and sit where their tags belong. */
  ghost predicate Shelved(q: Cache, v: Versions, n: nat, next: nat)
    requires n <= MAX_LEVEL
  {
    && Sized(q)
    && forall k: nat | k < |q.lines| ::
         && LineOk(q.lines[k], v, n, next) && q.lines[k].tag % 8 == 0
         && (q.lines[k].tag != 0 ==> LineIndex(q.lines[k].tag, |q.lines|) == k)
  }

  /** A cell's times are zero from some level on. */
  ghost predicate Tapers(mem: map<nat, Vector>, c: nat, n: nat)
    requires n <= MAX_LEVEL
  {
    forall i: nat, j: nat | i < j < n && At(mem, c, i) == 0 :: At(mem, c, j) == 0
  }

  /** A cached cell's times are its line's. */
  ghost predicate CellHeld(q: Cache, v: Versions, n: nat, c: nat)
    requires n <= MAX_LEVEL && Sized(q)
  {
    && Tapers(q.held, c, n)
    && (Cached(q.lines, c) ==>
          forall i: nat | i < n :: At(q.held, c, i) == LineTime(q.lines[LineOf(c, q.lines)], v, i))
  }

  ghost predicate HeldOk(q: Cache, v: Versions, n: nat, next: nat)
    requires n <= MAX_LEVEL
  {
    Shelved(q, v, n, next) && forall c: nat | c > 0 :: CellHeld(q, v, n, c)
  }

  lemma EmptyHeld(q: Cache, v: Versions, n: nat, next: nat)
    requires n <= MAX_LEVEL && q.lines != [] && q.lines == EmptyLines(|q.lines|, q.cols)
    requires forall c: nat | c > 0 :: Tapers(q.held, c, n)
    ensures HeldOk(q, v, n, next)
  {
  }

  /** What is held for the cell of a line. */
  lemma LineHeld(q: Cache, v: Versions, n: nat, next: nat, k: nat)
    requires n <= MAX_LEVEL && HeldOk(q, v, n, next) && k < |q.lines| && q.lines[k].tag != 0
    ensures Cell(q.lines[k].tag) > 0 && q.lines[k].tag == 8 * Cell(q.lines[k].tag)
    ensures LineOf(Cell(q.lines[k].tag), q.lines) == k && Cached(q.lines, Cell(q.lines[k].tag))
    ensures forall i: nat | i < n :: LineTime(q.lines[k], v, i) == At(q.held, Cell(q.lines[k].tag), i)
    ensures LineTapers(q.lines[k], v, n)
  {
    var c := Cell(q.lines[k].tag);
    assert q.lines[k].tag == 8 * c;
    assert CellHeld(q, v, n, c);
    forall i: nat, j: nat | i < j < n && LineTime(q.lines[k], v, i) == 0 ensures LineTime(q.lines[k], v, j) == 0 {
      assert At(q.held, c, i) == 0;
    }
  }

  /** Another cell does not notice that a line is dropped. */
  lemma DropOthers(q: Cache, v: Versions, n: nat, next: nat, k: nat, c: nat)
    requires n <= MAX_LEVEL && HeldOk(q, v, n, next) && k < |q.lines| && c > 0 && q.lines[k].tag != 8 * c
    ensures forall i: nat | i < MAX_LEVEL :: At(Vacated(q, k, v, n).held, c, i) == At(q.held, c, i)
    ensures Cached(Vacated(q, k, v, n).lines, c) <==> Cached(q.lines, c)
    ensures Cached(q.lines, c) ==> LineOf(c, q.lines) != k
  {
    if q.lines[k].tag != 0 {
      LineHeld(q, v, n, next, k);
    }
  }

  /** The cell of a dropped line has what was written back. */
  lemma DropOwn(q: Cache, v: Versions, n: nat, next: nat, k: nat)
    requires n <= MAX_LEVEL && HeldOk(q, v, n, next) && k < |q.lines| && q.lines[k].tag != 0
    ensures var c := Cell(q.lines[k].tag);
            && (forall i: nat | i < n :: At(Vacated(q, k, v, n).held, c, i) == EvictRow(q.lines[k], v, n)[i])
            && !Cached(Vacated(q, k, v, n).lines, c) && c > 0
  {
    LineHeld(q, v, n, next, k);
  }

  lemma DropShelved(q: Cache, v: Versions, n: nat, next: nat, k: nat)
    requires n <= MAX_LEVEL && Shelved(q, v, n, next) && k < |q.lines|
    ensures Shelved(Vacated(q, k, v, n), v, n, next)
  {
  }

  lemma DropOwnCell(q: Cache, v: Versions, n: nat, next: nat, k: nat)
    requires n <= MAX_LEVEL && HeldOk(q, v, n, next) && k < |q.lines| && q.lines[k].tag != 0
    ensures CellHeld(Vacated(q, k, v, n), v, n, Cell(q.lines[k].tag))
  {
    hide Vacated, LineTime, EvictRow;
    DropOwn(q, v, n, next, k);
    EvictRowTapers(q.lines[k], v, n);
  }

  lemma DropOtherCell(q: Cache, v: Versions, n: nat, next: nat, k: nat, c: nat)
    requires n <= MAX_LEVEL && HeldOk(q, v, n, next) && k < |q.lines| && c > 0 && q.lines[k].tag != 8 * c
    ensures CellHeld(Vacated(q, k, v, n), v, n, c)
  {
    hide Vacated, LineTime, EvictRow, LineOk;
    DropOthers(q, v, n, next, k, c);
    assert CellHeld(q, v, n, c);
    if Cached(q.lines, c) {
      DropLine(q, v, n, k, c);
    }
  }

  lemma DropLine(q: Cache, v: Versions, n: nat, k: nat, c: nat)
    requires n <= MAX_LEVEL && Sized(q) && k < |q.lines| && LineOf(c, q.lines) != k
    ensures Vacated(q, k, v, n).lines[LineOf(c, q.lines)] == q.lines[LineOf(c, q.lines)]
  {
  }

  lemma DropKeeps(q: Cache, v: Versions, n: nat, next: nat, k: nat)
    requires n <= MAX_LEVEL && HeldOk(q, v, n, next) && k < |q.lines|
    ensures HeldOk(Vacated(q, k, v, n), v, n, next)
  {
    hide Vacated, CellHeld;
    DropShelved(q, v, n, next, k);
    forall c: nat | c > 0 ensures CellHeld(Vacated(q, k, v, n), v, n, c) {
      if q.lines[k].tag == 8 * c {
        DropOwnCell(q, v, n, next, k);
      } else {
        DropOtherCell(q, v, n, next, k, c);
      }
    }
  }

  lemma {:induction false} FlushKeeps(q: Cache, k: nat, v: Versions, n: nat, next: nat)
    requires n <= MAX_LEVEL && HeldOk(q, v, n, next) && k <= |q.lines|
    ensures HeldOk(Flushed(q, k, v, n), v, n, next)
  {
    if k > 0 {
      FlushKeeps(q, k - 1, v, n, next);
      DropKeeps(Flushed(q, k - 1, v, n), v, n, next, k - 1);
    }
  }

  lemma WidenKeeps(q: Cache, v: Versions, n: nat, next: nat)
    requires n <= MAX_LEVEL && HeldOk(q, v, n, next)
    ensures HeldOk(Widened(q, v, n), v, n, next)
  {
    if q.cols < n {
      FlushKeeps(q, |q.lines|, v, n, next);
      var f := Flushed(q, |q.lines|, v, n);
      forall c: nat | c > 0 ensures Tapers(Widened(q, v, n).held, c, n) {
        assert CellHeld(f, v, n, c);
      }
      EmptyHeld(Widened(q, v, n), v, n, next);
    }
  }

  lemma AdmitKeeps(q: Cache, c: nat, v: Versions, n: nat, next: nat)
    requires n <= MAX_LEVEL && HeldOk(q, v, n, next)
    ensures HeldOk(Admitted(q, c, v, n), v, n, next)
  {
    hide CellHeld, LineOk;
    WidenKeeps(q, v, n, next);
    var w := Widened(q, v, n);
    if !Cached(w.lines, c) {
      DropKeeps(w, v, n, next, LineOf(c, w.lines));
    }
  }

  /** A line that is free, or the cell's own. */
  predicate Free(q: Cache, c: nat)
    requires q.lines != []
  {
    Cached(q.lines, c) || q.lines[LineOf(c, q.lines)].tag == 0
  }

  lemma AdmitFree(q: Cache, c: nat, v: Versions, n: nat)
    requires Sized(q) && n <= MAX_LEVEL
    ensures Free(Admitted(q, c, v, n), c)
  {
  }

  /** A free line filled for a cell. */
  lemma FillKeeps(q: Cache, c: nat, v: Versions, depth: nat, n: nat, next: nat, held: map<nat, Vector>, row: seq<Time>)
    requires Ticking(v, depth, next) && 0 < n <= depth && n <= MAX_LEVEL && n <= q.cols && c > 0
    requires HeldOk(q, v, n, next) && Free(q, c)
    requires forall d: nat, i: nat | d != c && i < n :: At(held, d, i) == At(q.held, d, i)
    requires |row| == n && (forall i: nat | i < n :: At(held, c, i) == row[i]) && Tapers(held, c, n)
    ensures HeldOk(Filled(q.(held := held), c, v, n, row), v, n, next)
  {
    var k := LineOf(c, q.lines);
    var r := Filled(q.(held := held), c, v, n, row);
    assert forall i: nat | i < n :: v[i] <= v[n - 1];
    assert LineOk(r.lines[k], v, n, next);
    forall d: nat | d > 0 ensures CellHeld(r, v, n, d) {
      assert CellHeld(q, v, n, d);
      if d != c {
        assert Tapers(held, d, n);
      }
    }
  }

  /** The row of a cell that is in the cache, with the levels zeroed that the
      line no longer stands for. */
  lemma HitRow(q: Cache, v: Versions, depth: nat, n: nat, next: nat, c: nat)
    requires Ticking(v, depth, next) && n <= depth && n <= MAX_LEVEL && n <= q.cols && c > 0
    requires HeldOk(q, v, n, next) && Cached(q.lines, c)
    ensures var l := q.lines[LineOf(c, q.lines)];
            var r := StartInvalid(l.version, v, n);
            r <= n && l.times[..r] + seq(n - r, _ => 0) == Read(q.held, c, n)
  {
    var l := q.lines[LineOf(c, q.lines)];
    var r := StartInvalid(l.version, v, n);
    assert CellHeld(q, v, n, c) && LineOk(l, v, n, next);
    assert forall i: nat | i < r :: v[i] <= v[r - 1];
    var row := l.times[..r] + seq(n - r, _ => 0);
    forall i: nat | i < n ensures row[i] == Read(q.held, c, n)[i] {
      assert LineTime(l, v, i) == row[i];
    }
  }

  // -------------------------------------------------- the tables behind it

  /** A cell that is not cached is in the tables; one that is has zero there
      wherever it is zero. */
  ghost predicate CellBacked(q: Cache, view: View, v: Versions, n: nat, c: nat)
    requires n <= MAX_LEVEL && q.lines != []
  {
    forall i: nat | i < n ::
      if Cached(q.lines, c) then At(q.held, c, i) == 0 ==> CellTime(view, c, v, i) == 0
      else At(q.held, c, i) == CellTime(view, c, v, i)
  }

  ghost predicate Backed(q: Cache, view: View, v: Versions, n: nat)
    requires n <= MAX_LEVEL && q.lines != []
  {
    forall c: nat | c > 0 :: CellBacked(q, view, v, n, c)
  }

  ghost predicate CacheOk(q: Cache, view: View, v: Versions, n: nat, next: nat)
    requires n <= MAX_LEVEL
  {
    HeldOk(q, v, n, next) && Backed(q, view, v, n)
  }

  /** The tables after a line has been written back. */
  lemma DropBacked(q: Cache, was: View, now: View, v: Versions, n: nat, next: nat, k: nat)
    requires n <= MAX_LEVEL && CacheOk(q, was, v, n, next) && k < |q.lines|
    requires if q.lines[k].tag == 0 then now == was else WrittenBack(q.lines[k], was, now, v, n)
    ensures CacheOk(Vacated(q, k, v, n), now, v, n, next)
  {
    hide CellHeld, LineOk;
    DropKeeps(q, v, n, next, k);
    var r := Vacated(q, k, v, n);
    if q.lines[k].tag == 0 {
      assert r == q;
    } else {
      forall c: nat | c > 0 ensures CellBacked(r, now, v, n, c) {
        assert CellBacked(q, was, v, n, c);
        if q.lines[k].tag == 8 * c {
          OwnBacked(q, was, now, v, n, next, k);
        } else {
          DropOthers(q, v, n, next, k, c);
          OtherCell(q, v, n, next, k, c);
        }
      }
    }
  }

  lemma OtherCell(q: Cache, v: Versions, n: nat, next: nat, k: nat, c: nat)
    requires n <= MAX_LEVEL && HeldOk(q, v, n, next) && k < |q.lines| && q.lines[k].tag != 8 * c && q.lines[k].tag != 0
    ensures c != Cell(q.lines[k].tag)
  {
    LineHeld(q, v, n, next, k);
  }

  lemma OwnBacked(q: Cache, was: View, now: View, v: Versions, n: nat, next: nat, k: nat)
    requires n <= MAX_LEVEL && CacheOk(q, was, v, n, next) && k < |q.lines| && q.lines[k].tag != 0
    requires WrittenBack(q.lines[k], was, now, v, n)
    ensures CellBacked(Vacated(q, k, v, n), now, v, n, Cell(q.lines[k].tag))
  {
    var l := q.lines[k];
    var c := Cell(l.tag);
    LineHeld(q, v, n, next, k);
    DropOwn(q, v, n, next, k);
    assert CellBacked(q, was, v, n, c) && LineOk(l, v, n, next);
    forall i: nat | i < n ensures At(Vacated(q, k, v, n).held, c, i) == CellTime(now, c, v, i) {
      if i >= WriteBack(l, v) {
        BehindWriteBack(l, v, n, next, i);
      }
    }
  }

  lemma EmptyBacked(q: Cache, view: View, v: Versions, n: nat, next: nat)
    requires n <= MAX_LEVEL && q.lines != [] && q.lines == EmptyLines(|q.lines|, q.cols)
    requires forall c: nat | c > 0 :: Tapers(q.held, c, n)
    requires forall c: nat, i: nat | c > 0 && i < n :: At(q.held, c, i) == CellTime(view, c, v, i)
    ensures CacheOk(q, view, v, n, next)
  {
    EmptyHeld(q, v, n, next);
  }

  /** Once every line is written back the cache can be replaced by an empty one. */
  lemma ResizeBacked(q: Cache, view: View, v: Versions, n: nat, next: nat)
    requires n <= MAX_LEVEL && HeldOk(q, v, n, next)
    requires CacheOk(Flushed(q, |q.lines|, v, n), view, v, n, next)
    ensures CacheOk(Resized(q, v, n), view, v, n, next)
  {
    var f, r := Flushed(q, |q.lines|, v, n), Resized(q, v, n);
    forall c: nat | c > 0 ensures Tapers(r.held, c, n) {
      assert CellHeld(f, v, n, c);
    }
    forall c: nat, i: nat | c > 0 && i < n ensures At(r.held, c, i) == CellTime(view, c, v, i) {
      assert CellBacked(f, view, v, n, c) && !Cached(f.lines, c);
    }
    EmptyBacked(r, view, v, n, next);
  }

  lemma FillBacked(q: Cache, view: View, c: nat, v: Versions, depth: nat, n: nat, next: nat, held: map<nat, Vector>,
                   row: seq<Time>)
    requires Ticking(v, depth, next) && 0 < n <= depth && n <= MAX_LEVEL && n <= q.cols && c > 0
    requires CacheOk(q, view, v, n, next) && Free(q, c)
    requires forall d: nat, i: nat | d != c && i < n :: At(held, d, i) == At(q.held, d, i)
    requires |row| == n && (forall i: nat | i < n :: At(held, c, i) == row[i]) && Tapers(held, c, n)
    requires forall i: nat | i < n && row[i] == 0 :: At(q.held, c, i) == 0
    ensures CacheOk(Filled(q.(held := held), c, v, n, row), view, v, n, next)
  {
    hide CellHeld, LineOk;
    FillKeeps(q, c, v, depth, n, next, held, row);
    var r := Filled(q.(held := held), c, v, n, row);
    var k := LineOf(c, q.lines);
    forall d: nat | d > 0 ensures CellBacked(r, view, v, n, d) {
      assert CellBacked(q, view, v, n, d);
      assert d != c ==> (Cached(r.lines, d) <==> Cached(q.lines, d));
    }
  }

  /** The cache does not notice changes that no read can see. */
  lemma SameReads(q: Cache, was: View, now: View, v: Versions, n: nat, next: nat)
    requires n <= MAX_LEVEL && CacheOk(q, was, v, n, next)
    requires forall a: nat, i: nat | i < n :: Lookup(now, a, v, i) == Lookup(was, a, v, i)
    ensures CacheOk(q, now, v, n, next)
  {
    hide CellHeld, LineOk;
    forall c: nat | c > 0 ensures CellBacked(q, now, v, n, c) {
      assert CellBacked(q, was, v, n, c);
    }
  }

  // ------------------------------------------------- entries and exits

  ghost predicate CacheInStep(q: Cache, view: View, v: Versions, depth: nat, next: nat, levels: nat) {
    && levels < MAX_LEVEL && Ticking(v, depth, next) && Follows(view, v, depth, next)
    && CacheOk(q, view, v, Size(depth, levels), next)
  }

  function AfterEnter(q: Cache, depth: nat): Cache {
    q.(held := Zeroed(q.held, depth))
  }

  lemma EnterHeld(q: Cache, v: Versions, depth: nat, next: nat, levels: nat)
    requires levels < MAX_LEVEL && Ticking(v, depth, next) && HeldOk(q, v, Size(depth, levels), next)
    ensures HeldOk(AfterEnter(q, depth), Issue(v, depth, next), Size(depth + 1, levels), next + 1)
  {
    var v' := Issue(v, depth, next);
    var r := AfterEnter(q, depth);
    var n, n' := Size(depth, levels), Size(depth + 1, levels);
    forall k: nat | k < |q.lines| ensures LineOk(q.lines[k], v', n', next + 1) {
      assert LineOk(q.lines[k], v, n, next);
    }
    forall c: nat | c > 0 ensures CellHeld(r, v', n', c) {
      assert CellHeld(q, v, n, c);
      assert LineOk(q.lines[LineOf(c, q.lines)], v, n, next);
      assert Tapers(r.held, c, n');
    }
  }

  lemma EnterCacheInStep(q: Cache, view: View, v: Versions, depth: nat, next: nat, levels: nat)
    requires CacheInStep(q, view, v, depth, next, levels)
    ensures CacheInStep(AfterEnter(q, depth), view, Issue(v, depth, next), depth + 1, next + 1, levels)
  {
    hide CellHeld, LineOk;
    var v' := Issue(v, depth, next);
    var n' := Size(depth + 1, levels);
    Entered(v, depth, next);
    EnterHeld(q, v, depth, next, levels);
    forall p | p in view ensures PageFollows(view[p], v', depth + 1, next + 1) {
      assert PageFollows(view[p], v, depth, next);
    }
    forall c: nat | c > 0 ensures CellBacked(AfterEnter(q, depth), view, v', n', c) {
      assert CellBacked(q, view, v, Size(depth, levels), c);
      EnterCell(view, v, depth, next, n', c);
    }
  }

  lemma EnterCell(view: View, v: Versions, depth: nat, next: nat, n: nat, c: nat)
    requires Follows(view, v, depth, next) && n <= depth + 1 && n < MAX_LEVEL
    ensures forall i: nat | i < n ::
              CellTime(view, c, Issue(v, depth, next), i) == if i == depth then 0 else CellTime(view, c, v, i)
  {
    if PageOf(8 * c) in view {
      assert PageFollows(view[PageOf(8 * c)], v, depth, next);
    }
  }

  /** Fewer levels are easier to keep. */
  lemma FewerHeld(q: Cache, v: Versions, n: nat, next: nat, n': nat)
    requires n' <= n <= MAX_LEVEL && HeldOk(q, v, n, next)
    ensures HeldOk(q, v, n', next)
  {
    forall c: nat | c > 0 ensures CellHeld(q, v, n', c) {
      assert CellHeld(q, v, n, c);
    }
  }

  lemma ExitCacheInStep(q: Cache, view: View, v: Versions, depth: nat, next: nat, levels: nat)
    requires CacheInStep(q, view, v, depth, next, levels) && depth > 0
    ensures CacheInStep(q, view, v, depth - 1, next, levels)
  {
    hide CellHeld, LineOk;
    forall p | p in view ensures PageFollows(view[p], v, depth - 1, next) {
      assert PageFollows(view[p], v, depth, next);
    }
    var n := Size(depth - 1, levels);
    FewerHeld(q, v, Size(depth, levels), next, n);
    forall c: nat | c > 0 ensures CellBacked(q, view, v, n, c) {
      assert CellBacked(q, view, v, Size(depth, levels), c);
    }
  }

  lemma StartCacheInStep(q: Cache, levels: nat, start: nat)
    requires levels < MAX_LEVEL && q.lines != [] && q == Cache(EmptyLines(|q.lines|, q.cols), q.cols, map[])
    ensures CacheInStep(q, map[], seq(MAX_LEVEL, _ => 0), 0, start, levels)
  {
    EmptyBacked(q, map[], seq(MAX_LEVEL, _ => 0), 0, start);
  }
}
