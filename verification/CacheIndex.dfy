/** Which line of the write-back cache a cell is in, bit by bit
    (runtime/src/TagVectorCache.cpp:48-60). */
module CacheIndex {
  import opened Common
  import opened Delta
  import opened ShadowSpec
  import opened CacheLines
  import opened CacheRuns

  /** Bit `i` of a number, counted from the lowest. */
  predicate Bit(n: nat, i: nat)
    decreases i
  {
    if i == 0 then n % 2 == 1 else Bit(n / 2, i - 1)
  }

  lemma {:induction false} NoBits(i: nat)
    ensures !Bit(0, i)
  {
    if i > 0 {
      NoBits(i - 1);
    }
  }

  lemma {:induction false} AndBits(a: nat, m: nat, i: nat)
    ensures Bit(And(a, m), i) <==> Bit(a, i) && Bit(m, i)
    decreases i
  {
    if m == 0 {
      NoBits(i);
    } else {
      var r := And(a, m);
      assert r / 2 == And(a / 2, m / 2) && r % 2 == (if a % 2 == 1 && m % 2 == 1 then 1 else 0);
      if i > 0 {
        AndBits(a / 2, m / 2, i - 1);
      }
    }
  }

  lemma {:induction false} XorBits(a: nat, b: nat, i: nat)
    ensures Bit(Xor(a, b), i) <==> Bit(a, i) != Bit(b, i)
    decreases i
  {
    if a == 0 && b == 0 {
      NoBits(i);
    } else {
      var r := Xor(a, b);
      assert r / 2 == Xor(a / 2, b / 2) && r % 2 == (if a % 2 != b % 2 then 1 else 0);
      if i > 0 {
        XorBits(a / 2, b / 2, i - 1);
      }
    }
  }

  lemma HalfFirst(a: nat, p: nat)
    requires p > 0
    ensures a / (2 * p) == a / 2 / p
  {
    var h, q, r := a / 2, a / 2 / p, a / 2 % p;
    assert h == q * p + r && a == 2 * h + a % 2;
    var rest := 2 * r + a % 2;
    assert a == q * (2 * p) + rest && rest < 2 * p;
    QuotientIs(a, 2 * p, q, rest);
  }

  lemma QuotientIs(a: nat, b: nat, q: nat, r: nat)
    requires b > 0 && a == q * b + r && r < b
    ensures a / b == q
  {
    var d := a / b - q;
    assert a == a / b * b + a % b;
    assert d * b == a / b * b - q * b;
    NotBetween(d, b);
  }

  lemma {:induction false} NotBetween(d: int, b: int)
    requires b > 0 && -b < d * b < b
    ensures d == 0
  {
    if d > 0 {
      AtLeast(d, b);
    } else if d < 0 {
      assert -d * b == -(d * b);
      AtLeast(-d, b);
    }
  }

  lemma {:induction false} AtLeast(d: nat, b: int)
    requires d > 0 && b > 0
    ensures d * b >= b
  {
    if d > 1 {
      AtLeast(d - 1, b);
      assert d * b == (d - 1) * b + b;
    }
  }

  /** What is left of a number without its lowest `k` bits. */
  function Upper(a: nat, k: nat): nat
    decreases k
  {
    if k == 0 then a else Upper(a / 2, k - 1)
  }

  lemma {:induction false} UpperIs(a: nat, k: nat)
    ensures Upper(a, k) == a / Pow2(k)
    decreases k
  {
    if k > 0 {
      HalfFirst(a, Pow2(k - 1));
      UpperIs(a / 2, k - 1);
    }
  }

  lemma {:induction false} ShiftBits(a: nat, k: nat, i: nat)
    ensures Bit(Upper(a, k), i) <==> Bit(a, i + k)
    decreases k
  {
    if k > 0 {
      ShiftBits(a / 2, k - 1, i);
    }
  }

  /** Numbers with the same bits are the same. */
  lemma {:induction false} SameBits(a: nat, b: nat)
    requires forall i: nat :: Bit(a, i) == Bit(b, i)
    ensures a == b
    decreases a + b
  {
    assert Bit(a, 0) == Bit(b, 0);
    if a + b > 0 {
      forall i: nat ensures Bit(a / 2, i) == Bit(b / 2, i) {
        assert Bit(a, i + 1) == Bit(b, i + 1);
      }
      SameBits(a / 2, b / 2);
    }
  }

  // ---------------------------------------------------------- the index

  lemma IndexIs(cell: nat, count: nat)
    requires count > 0
    ensures LineIndex(8 * cell, count)
            == Xor(And(cell, count - 1), And(Upper(cell, FirstOnePosition(count)), count - 1))
  {
    hide And, Xor, FirstOnePosition, Upper;
    UpperIs(cell, FirstOnePosition(count));
    assert 8 * cell / 8 == cell;
  }

  /** For any number of lines: a bit of the index is a bit of the mask, and of
      exactly one of the two slices of the cell number. */
  lemma IndexBits(cell: nat, count: nat, i: nat)
    requires count > 0
    ensures Bit(LineIndex(8 * cell, count), i)
            <==> Bit(count - 1, i) && Bit(cell, i) != Bit(cell, i + FirstOnePosition(count))
  {
    hide And, Xor, FirstOnePosition, LineIndex, Bit, Upper;
    var mask, upper := count - 1, Upper(cell, FirstOnePosition(count));
    IndexIs(cell, count);
    XorBits(And(cell, mask), And(upper, mask), i);
    AndBits(cell, mask, i);
    AndBits(upper, mask, i);
    ShiftBits(cell, FirstOnePosition(count), i);
  }

  lemma {:induction false} FirstOne(k: nat)
    ensures FirstOnePosition(Pow2(k)) == k
  {
    if k > 0 {
      FirstOne(k - 1);
    }
  }

  lemma {:induction false} MaskBits(k: nat, i: nat)
    ensures Bit(Pow2(k) - 1, i) <==> i < k
    decreases k
  {
    if k > 0 {
      assert (Pow2(k) - 1) / 2 == Pow2(k - 1) - 1;
      if i > 0 {
        MaskBits(k - 1, i - 1);
      }
    } else {
      NoBits(i);
    }
  }

  /** A power of two of lines: bit `i` of the index, out of `k`, is set exactly
      when bits `i` and `i + k` of the cell number differ. */
  lemma PowerBits(cell: nat, k: nat, i: nat)
    ensures Bit(LineIndex(8 * cell, Pow2(k)), i) <==> i < k && Bit(cell, i) != Bit(cell, i + k)
  {
    hide LineIndex, Bit;
    IndexBits(cell, Pow2(k), i);
    FirstOne(k);
    MaskBits(k, i);
  }

  /** Of as many consecutive cells as there are lines, aligned, no two share a
      line. */
  lemma NeverShared(a: nat, b: nat, k: nat)
    requires a / Pow2(k) == b / Pow2(k) && a != b
    ensures LineIndex(8 * a, Pow2(k)) != LineIndex(8 * b, Pow2(k))
  {
    hide LineIndex, Bit, Upper;
    UpperIs(a, k);
    UpperIs(b, k);
    if LineIndex(8 * a, Pow2(k)) == LineIndex(8 * b, Pow2(k)) {
      forall i: nat ensures Bit(a, i) == Bit(b, i) {
        if i < k {
          PowerBits(a, k, i);
          PowerBits(b, k, i);
          ShiftBits(a, k, i);
          ShiftBits(b, k, i);
        } else {
          ShiftBits(a, k, i - k);
          ShiftBits(b, k, i - k);
        }
      }
      SameBits(a, b);
    }
  }

  lemma {:induction false} PowerBit(k: nat, i: nat)
    ensures Bit(Pow2(k), i) <==> i == k
    decreases k
  {
    if k > 0 {
      if i > 0 {
        PowerBit(k - 1, i - 1);
      }
    } else if i > 0 {
      NoBits(i - 1);
    }
  }

  /** Cells further apart can share one. */
  lemma TwoCells(k: nat)
    requires k > 0
    ensures LineIndex(8 * 1, Pow2(k)) == LineIndex(8 * Pow2(k), Pow2(k))
  {
    hide LineIndex, Bit;
    forall i: nat
      ensures Bit(LineIndex(8 * 1, Pow2(k)), i) == Bit(LineIndex(8 * Pow2(k), Pow2(k)), i)
    {
      PowerBits(1, k, i);
      PowerBits(Pow2(k), k, i);
      PowerBit(0, i);
      PowerBit(0, i + k);
      PowerBit(k, i);
      PowerBit(k, i + k);
    }
    SameBits(LineIndex(8 * 1, Pow2(k)), LineIndex(8 * Pow2(k), Pow2(k)));
  }

  // ------------------------------------------------------- cells that stay

  /** With a power of two of lines and rows long enough, an access puts its own
      cell into the cache and leaves in it every neighbour that is there. */
  lemma NeighbourStays(e: Event, q: Cache, v: Versions, depth: nat, levels: nat, b: nat, k: nat)
    requires levels < MAX_LEVEL && Roomy(q, levels) && Allowed(e, depth, levels) && (e.Load? || e.Store?)
    requires 0 < Size(depth, levels) <= q.cols && |q.lines| == Pow2(k) && Cell(e.addr) > 0
    requires Cached(q.lines, b) && Cell(e.addr) / Pow2(k) == b / Pow2(k)
    ensures var r := StepAfter(e, q, v, depth, levels);
            && Cached(r.lines, Cell(e.addr)) && Cached(r.lines, b)
            && (b != Cell(e.addr) ==> r.lines[LineIndex(8 * b, Pow2(k))] == q.lines[LineIndex(8 * b, Pow2(k))])
  {
    hide LineIndex;
    if b != Cell(e.addr) {
      NeverShared(Cell(e.addr), b, k);
    }
  }

  /** A fresh cache of a power of two of megabytes has a power of two of lines. */
  lemma FreshLines(j: nat)
    ensures Pow2(j) * 1024 * 1024 / 8 == Pow2(j + 17)
  {
    Scaled(j);
  }

  lemma {:induction false} Scaled(j: nat)
    ensures 131072 * Pow2(j) == Pow2(j + 17)
    decreases j
  {
    if j > 0 {
      Scaled(j - 1);
    } else {
      assert Pow2(6) == 64;
      assert Pow2(12) == 4096;
      assert Pow2(17) == 131072;
    }
  }

  // ------------------------------------------------- runs within one block

  /** Accesses to aligned consecutive cells, as many as there are lines. */
  predicate InBlock(events: seq<Event>, k: nat, block: nat) {
    forall e | e in events && (e.Load? || e.Store?) :: Cell(e.addr) / Pow2(k) == block
  }

  /** Lines that are empty or hold such a cell. */
  ghost predicate LinesIn(lines: seq<Line>, k: nat, block: nat) {
    && |lines| == Pow2(k)
    && forall i: nat | i < |lines| && lines[i].tag != 0 ::
         lines[i].tag == 8 * Cell(lines[i].tag) && Cell(lines[i].tag) / Pow2(k) == block
         && LineIndex(lines[i].tag, |lines|) == i
  }

  /** Nothing is evicted. */
  lemma NoEviction(q: Cache, c: nat, n: nat, k: nat, block: nat, i: nat)
    requires Sized(q) && LinesIn(q.lines, k, block) && n <= q.cols && c / Pow2(k) == block && i < |q.lines|
    ensures !Evicts(c, q, n, i)
  {
    hide LineIndex;
    if q.lines[i].tag != 0 && q.lines[i].tag != 8 * c {
      NeverShared(Cell(q.lines[i].tag), c, k);
    }
  }

  lemma BlockStep(e: Event, q: Cache, v: Versions, depth: nat, levels: nat, k: nat, block: nat)
    requires levels < MAX_LEVEL && Roomy(q, levels) && levels <= q.cols && Allowed(e, depth, levels) && Storable(e)
    requires LinesIn(q.lines, k, block) && InBlock([e], k, block)
    ensures StepSound(e, q, v, Size(depth, levels))
    ensures LinesIn(StepAfter(e, q, v, depth, levels).lines, k, block)
  {
    hide LineIndex, Clean;
    var n := Size(depth, levels);
    assert e in [e];
    if (e.Load? || e.Store?) && n > 0 {
      var c := Cell(e.addr);
      forall i: nat | i < |q.lines| ensures !Evicts(c, q, n, i) {
        NoEviction(q, c, n, k, block, i);
      }
      Undisplaced(q, c, v, n);
      assert Cell(8 * c) == c;
    }
  }

  /** Where nothing is in the way, nothing is written back. */
  lemma Undisplaced(q: Cache, c: nat, v: Versions, n: nat)
    requires Sized(q) && 0 < n <= q.cols && n <= MAX_LEVEL && forall i: nat | i < |q.lines| :: !Evicts(c, q, n, i)
    ensures var a := Admitted(q, c, v, n); a.cols == q.cols && a.lines == q.lines
  {
    hide LineIndex;
    var i := LineOf(c, q.lines);
    assert !Evicts(c, q, n, i);
    if q.lines[i].tag == 0 {
      assert q.lines[i].(tag := 0) == q.lines[i];
    }
  }

  /** Whatever such a run does, it is sound: the write-back cache answers as the
      eager memory. */
  lemma {:induction false} BlockSound(events: seq<Event>, q: Cache, v: Versions, depth: nat, next: nat, levels: nat,
                                      k: nat, block: nat)
    requires levels < MAX_LEVEL && Roomy(q, levels) && levels <= q.cols && Legal(events, depth, levels)
    requires (forall e | e in events :: Storable(e)) && InBlock(events, k, block) && LinesIn(q.lines, k, block)
    ensures RunSound(events, q, v, depth, next, levels)
    decreases |events|
  {
    hide StepAfter, StepSound, LinesIn;
    if events != [] {
      var e := events[0];
      assert e in events && forall x | x in events[1..] :: x in events;
      BlockStep(e, q, v, depth, levels, k, block);
      BlockSound(events[1..], StepAfter(e, q, v, depth, levels), VersionsAfter(e, v, depth, next),
                 DepthAfter(e, depth), NextAfter(e, next), levels, k, block);
    }
  }
}
