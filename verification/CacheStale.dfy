/** A run on which the cache's answer is stale: the write-back covers levels
    that have been left and entered again (runtime/src/MShadowCache.cpp:68-80). */
module CacheStale {
  import opened Delta
  import opened ShadowSpec
  import opened CacheLines
  import opened CacheRuns

  /** A cell is stored three levels deep, two levels are left and one entered
      again, and another cell of the same line is loaded, then the first. */
  function StaleRun(a: nat, b: nat): (r: seq<Event>)
    ensures |r| == 9
  {
    Opening(a) + [Event.Load(8 * b), Event.Load(8 * a)]
  }

  function Opening(a: nat): (r: seq<Event>)
    ensures |r| == 7
  {
    [Enter, Enter, Enter, Store(8 * a, [9, 8, 7], false), Exit, Exit, Enter]
  }

  function Blank(): Versions {
    seq(MAX_LEVEL, _ => 0)
  }

  /** Versions after the three entries, and after the fourth. */
  function Third(): Versions {
    Blank()[0 := 1][1 := 2][2 := 3]
  }

  function Fourth(): Versions {
    Third()[1 := 4]
  }

  /** A fresh cache with room for three levels. */
  predicate Empty(q: Cache) {
    q.lines != [] && q == EmptyCache(|q.lines|, 3)
  }

  /** Deepened three levels. */
  function Deepened(q: Cache): Cache {
    AfterEnter(AfterEnter(AfterEnter(q, 0), 1), 2)
  }

  /** The cache when the other cell is about to be loaded. */
  function Poised(q: Cache, a: nat): (r: Cache)
    requires Sized(q) && q.cols == 3
    ensures Sized(r) && r.cols == 3 && |r.lines| == |q.lines|
  {
    AfterEnter(AfterSet(Deepened(q), a, Third(), [9, 8, 7]), 1)
  }

  /** Events that are not loads, one at a time. */
  lemma EnterFirst(rest: seq<Event>, q: Cache, mem: map<nat, Vector>, v: Versions, depth: nat, next: nat)
    requires Roomy(q, 3) && Legal(rest, depth + 1, 3)
    ensures Legal([Enter] + rest, depth, 3)
    ensures CacheLoads([Enter] + rest, q, v, depth, next, 3)
            == CacheLoads(rest, AfterEnter(q, depth), Issue(v, depth, next), depth + 1, next + 1, 3)
    ensures Loads([Enter] + rest, mem, depth, 3) == Loads(rest, Zeroed(mem, depth), depth + 1, 3)
  {
    assert ([Enter] + rest)[1..] == rest;
  }

  lemma ExitFirst(rest: seq<Event>, q: Cache, mem: map<nat, Vector>, v: Versions, depth: nat, next: nat)
    requires Roomy(q, 3) && depth > 0 && Legal(rest, depth - 1, 3)
    ensures Legal([Exit] + rest, depth, 3)
    ensures CacheLoads([Exit] + rest, q, v, depth, next, 3) == CacheLoads(rest, q, v, depth - 1, next, 3)
    ensures Loads([Exit] + rest, mem, depth, 3) == Loads(rest, mem, depth - 1, 3)
  {
    assert ([Exit] + rest)[1..] == rest;
  }

  lemma StoreFirst(a: nat, times: seq<Time>, rest: seq<Event>, q: Cache, mem: map<nat, Vector>, v: Versions, next: nat)
    requires Roomy(q, 3) && |times| == 3 && Legal(rest, 3, 3)
    ensures var e := Store(8 * a, times, false);
            && Legal([e] + rest, 3, 3)
            && CacheLoads([e] + rest, q, v, 3, next, 3) == CacheLoads(rest, AfterSet(q, a, v, times), v, 3, next, 3)
            && Loads([e] + rest, mem, 3, 3) == Loads(rest, Written(mem, a, times), 3, 3)
  {
    hide AfterSet;
    assert Cell(8 * a) == a;
    assert ([Store(8 * a, times, false)] + rest)[1..] == rest;
  }

  /** The eager memory when the other cell is about to be loaded. */
  function EagerPoised(a: nat): map<nat, Vector> {
    Zeroed(Written(Zeroed(Zeroed(Zeroed(map[], 0), 1), 2), a, [9, 8, 7]), 1)
  }

  lemma LastSteps(rest: seq<Event>, q: Cache, mem: map<nat, Vector>)
    requires Roomy(q, 3) && Legal(rest, 2, 3)
    ensures Legal([Exit, Exit, Enter] + rest, 3, 3)
    ensures CacheLoads([Exit, Exit, Enter] + rest, q, Third(), 3, 4, 3)
            == CacheLoads(rest, AfterEnter(q, 1), Fourth(), 2, 5, 3)
    ensures Loads([Exit, Exit, Enter] + rest, mem, 3, 3) == Loads(rest, Zeroed(mem, 1), 2, 3)
  {
    hide CacheLoads, Loads, Legal, Third;
    EnterFirst(rest, q, mem, Third(), 1, 4);
    ExitFirst([Enter] + rest, q, mem, Third(), 2, 4);
    ExitFirst([Exit] + ([Enter] + rest), q, mem, Third(), 3, 4);
    assert [Exit] + ([Exit] + ([Enter] + rest)) == [Exit, Exit, Enter] + rest;
  }

  lemma FirstSteps(a: nat, rest: seq<Event>, q: Cache)
    requires a > 0 && Sized(q) && q.cols == 3 && Legal(rest, 2, 3)
    ensures Legal(Opening(a) + rest, 0, 3)
    ensures CacheLoads(Opening(a) + rest, q, Blank(), 0, 1, 3) == CacheLoads(rest, Poised(q, a), Fourth(), 2, 5, 3)
    ensures Loads(Opening(a) + rest, map[], 0, 3) == Loads(rest, EagerPoised(a), 2, 3)
  {
    hide CacheLoads, Loads, Legal, AfterSet;
    var s := Store(8 * a, [9, 8, 7], false);
    var q1, m1 := AfterEnter(q, 0), Zeroed(map[], 0);
    var q2, m2 := AfterEnter(q1, 1), Zeroed(m1, 1);
    var q3, m3 := AfterEnter(q2, 2), Zeroed(m2, 2);
    var end := [Exit, Exit, Enter] + rest;
    LastSteps(rest, AfterSet(q3, a, Third(), [9, 8, 7]), Written(m3, a, [9, 8, 7]));
    StoreFirst(a, [9, 8, 7], end, q3, m3, Third(), 4);
    EnterFirst([s] + end, q2, m2, Blank()[0 := 1][1 := 2], 2, 3);
    EnterFirst([Enter] + ([s] + end), q1, m1, Blank()[0 := 1], 1, 2);
    EnterFirst([Enter] + ([Enter] + ([s] + end)), q, map[], Blank(), 0, 1);
    assert [Enter] + ([Enter] + ([Enter] + ([s] + end))) == Opening(a) + rest;
  }

  // ------------------------------------------------------- the two loads

  /** The line in the way of the other cell, and what evicting it writes. */
  lemma PoisedLine(q: Cache, a: nat)
    requires a > 0 && Empty(q)
    ensures var p := Poised(q, a); var l := p.lines[LineOf(a, p.lines)];
            && l == Line(8 * a, 3, 3, [9, 8, 7])
            && EvictRow(l, Fourth(), 2) == [9, 8]
            && forall c: nat, i: nat | c != a && i < 3 :: At(p.held, c, i) == 0
  {
    var d := Deepened(q);
    var k := LineOf(a, d.lines);
    assert d.lines[k] == EmptyLine(3) && !Cached(d.lines, a);
    assert [9, 8, 7] + d.lines[k].times[3..] == [9, 8, 7];
    var l := Line(8 * a, 3, 3, [9, 8, 7]);
    assert Fourth()[2] == 3 && StartInvalid(3, Fourth(), 3) == 3;
    assert Third()[2] == 3;
    assert Poised(q, a).lines[k] == l;
    WholeRow(l.times);
    assert WriteBack(l, Fourth()) == 3;
    var row := EvictRow(l, Fourth(), 2);
    assert row[0] == 9 && row[1] == 8;
    assert row == [9, 8];
  }

  lemma WholeRow(times: seq<Time>)
    requires times == [9, 8, 7]
    ensures NonZero(times, 3) == 3
  {
    assert NonZeroFrom(times, 3, 2) == 3;
    assert NonZeroFrom(times, 3, 1) == 3;
  }

  lemma OtherLoad(q: Cache, a: nat, b: nat)
    requires a > 0 && b > 0 && a != b && Empty(q)
    requires LineIndex(8 * a, |q.lines|) == LineIndex(8 * b, |q.lines|)
    ensures Fetched(Poised(q, a), b, Fourth(), 2) == [0, 0]
    ensures var r := AfterGet(Poised(q, a), b, Fourth(), 2);
            && r.cols == 3 && r.lines[LineOf(a, r.lines)].tag == 8 * b && Read(r.held, a, 2) == [9, 8]
  {
    PoisedLine(q, a);
    var p := Poised(q, a);
    var k := LineOf(b, p.lines);
    assert !Cached(p.lines, b) && p.cols == 3;
    var adm := Admitted(p, b, Fourth(), 2);
    assert adm.held == Written(p.held, Cell(8 * a), [9, 8]) && Cell(8 * a) == a;
    assert Fetched(p, b, Fourth(), 2) == Read(adm.held, b, 2);
    assert Read(adm.held, b, 2) == [0, 0];
    assert Read(adm.held, a, 2) == [9, 8];
  }

  /** The first cell is fetched from the tables again. */
  lemma SameLoad(r: Cache, a: nat, b: nat)
    requires Sized(r) && r.cols == 3 && a > 0 && b > 0 && a != b
    requires r.lines[LineOf(a, r.lines)].tag == 8 * b
    ensures Fetched(r, a, Fourth(), 2) == Read(r.held, a, 2)
  {
    assert Cell(8 * b) == b;
    var k := LineOf(a, r.lines);
    assert Admitted(r, a, Fourth(), 2).held == Written(r.held, b, EvictRow(r.lines[k], Fourth(), 2));
  }

  /** Whatever two cells share a line: the run is one the profiler can make, the
      cache answers the second load with a time of a region that is over, and
      the eager memory with zero. */
  lemma StaleAnswer(q: Cache, a: nat, b: nat)
    requires a > 0 && b > 0 && a != b && Empty(q)
    requires LineIndex(8 * a, |q.lines|) == LineIndex(8 * b, |q.lines|)
    ensures Legal(StaleRun(a, b), 0, 3) && forall e | e in StaleRun(a, b) :: Storable(e)
    ensures CacheLoads(StaleRun(a, b), q, Blank(), 0, 1, 3) == [[0, 0], [9, 8]]
    ensures Loads(StaleRun(a, b), map[], 0, 3) == [[0, 0], [9, 0]]
    ensures !RunSound(StaleRun(a, b), q, Blank(), 0, 1, 3)
  {
    hide Poised, Fetched, AfterGet, LineIndex, Fourth, EagerPoised, CacheLoads, Loads, RunSound;
    var lb, la := Event.Load(8 * b), Event.Load(8 * a);
    var rest := [lb, la];
    assert Cell(8 * a) == a && Cell(8 * b) == b;
    OtherLoad(q, a, b);
    var p := Poised(q, a);
    TwoEvents(lb, la, p, EagerPoised(a), Fourth(), 2, 5, 3);
    FirstSteps(a, rest, q);
    SameLoad(AfterGet(p, b, Fourth(), 2), a, b);
    EagerTwo(a, b);
    assert StaleRun(a, b) == Opening(a) + rest;
    var stale, eager := CacheLoads(StaleRun(a, b), q, Blank(), 0, 1, 3), Loads(StaleRun(a, b), map[], 0, 3);
    assert stale == [[0, 0], [9, 8]] && eager == [[0, 0], [9, 0]];
    assert stale[1][1] == 8 && eager[1][1] == 0;
    NotSound(q, a, b);
  }

  lemma EagerTwo(a: nat, b: nat)
    requires a != b
    ensures var mem := EagerPoised(a);
            Read(mem, b, 2) == [0, 0] && Read(mem, a, 2) == [9, 0]
  {
  }

  lemma NotSound(q: Cache, a: nat, b: nat)
    requires a > 0 && b > 0 && Empty(q)
    requires Legal(StaleRun(a, b), 0, 3) && forall e | e in StaleRun(a, b) :: Storable(e)
    requires CacheLoads(StaleRun(a, b), q, Blank(), 0, 1, 3) != Loads(StaleRun(a, b), map[], 0, 3)
    ensures !RunSound(StaleRun(a, b), q, Blank(), 0, 1, 3)
  {
    hide CacheLoads, Loads, RunSound, StaleRun;
    EmptyHeld(q, Blank(), 0, 1);
    if RunSound(StaleRun(a, b), q, Blank(), 0, 1, 3) {
      SoundLoads(StaleRun(a, b), q, map[], Blank(), 0, 1, 3);
    }
  }
}
