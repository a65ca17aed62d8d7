/** Shadow memory with one version tag per word (runtime/src/MShadowSTV.cpp)
    next to shadow memory with a version per word and level
    (runtime/src/MShadowBase.cpp). */
module SingleTag {
  import opened Delta
  import opened ShadowSpec

  datatype Tagged = Tagged(row: Vector, tag: nat)

  datatype Versioned = Versioned(row: Vector, versions: Versions)

  /** Words start zeroed. */
  function FreshTagged(): Tagged {
    Tagged(seq(MAX_LEVEL, _ => 0), 0)
  }

  function FreshVersioned(): Versioned {
    Versioned(seq(MAX_LEVEL, _ => 0), seq(MAX_LEVEL, _ => 0))
  }

  /** The tag marks a level valid. */
  predicate Marked(tag: nat, v: Versions, i: nat)
    requires i < MAX_LEVEL
  {
    v[i] <= tag
  }

  /** Both words mark the same active levels valid and hold the cell's times
      there; every other active level of the cell is zero. */
  ghost predicate Twins(s: Tagged, b: Versioned, mem: map<nat, Vector>, c: nat, v: Versions, n: nat, next: nat)
    requires n <= MAX_LEVEL
  {
    && s.tag < next && (forall i: nat | i < MAX_LEVEL :: b.versions[i] < next)
    && (forall i: nat | i < n :: Marked(s.tag, v, i) <==> b.versions[i] == v[i])
    && (forall i: nat | i < n && Marked(s.tag, v, i) :: s.row[i] == At(mem, c, i) && b.row[i] == At(mem, c, i))
    && (forall i: nat | i < n && !Marked(s.tag, v, i) :: At(mem, c, i) == 0)
  }

  /** The first level past the deepest valid one, as the single tag sees it. */
  function TagStart(tag: nat, v: Versions, size: nat): (r: nat)
    requires size <= MAX_LEVEL
    ensures r <= size && forall i | r <= i < size :: v[i] > tag
    ensures r > 0 ==> v[r - 1] <= tag
  {
    if size == 0 || v[size - 1] <= tag then size else TagStart(tag, v, size - 1)
  }

  /** The same, as the version vector sees it. */
  function VectorStart(versions: Versions, v: Versions, size: nat): (r: nat)
    requires size <= MAX_LEVEL
    ensures r <= size && forall i | r <= i < size :: v[i] != versions[i]
    ensures r > 0 ==> v[r - 1] == versions[r - 1]
  {
    if size == 0 || v[size - 1] == versions[size - 1] then size else VectorStart(versions, v, size - 1)
  }

  function Cleared(row: Vector, start: nat, size: nat): (r: Vector)
    requires start <= size <= MAX_LEVEL
    ensures forall i | 0 <= i < MAX_LEVEL :: r[i] == if start <= i < size then 0 else row[i]
  {
    row[..start] + seq(size - start, _ => 0) + row[size..]
  }

  /** The words from `start` on take the current versions. */
  function Renewed(versions: Versions, v: Versions, start: nat, size: nat): (r: Versions)
    requires start <= size <= MAX_LEVEL
    ensures forall i | 0 <= i < MAX_LEVEL :: r[i] == if start <= i < size then v[i] else versions[i]
  {
    versions[..start] + v[start..size] + versions[size..]
  }

  function Stored(row: Vector, times: seq<Time>): (r: Vector)
    requires |times| <= MAX_LEVEL
    ensures forall i | 0 <= i < MAX_LEVEL :: r[i] == if i < |times| then times[i] else row[i]
  {
    times + row[|times|..]
  }

  function ReadTagged(s: Tagged, v: Versions, size: nat): Tagged
    requires 0 < size <= MAX_LEVEL
  {
    Tagged(Cleared(s.row, TagStart(s.tag, v, size), size), v[size - 1])
  }

  function ReadVersioned(b: Versioned, v: Versions, size: nat): Versioned
    requires 0 < size <= MAX_LEVEL
  {
    var start := VectorStart(b.versions, v, size);
    Versioned(Cleared(b.row, start, size), Renewed(b.versions, v, start, size))
  }

  // ------------------------------------------------------------ the loops

  method ValidateTag(s: Tagged, v: Versions, size: nat) returns (r: Tagged)
    requires 0 < size <= MAX_LEVEL
    ensures r == ReadTagged(s, v, size)
  {
    var start := size;
    while start > 0
      invariant start <= size && TagStart(s.tag, v, start) == TagStart(s.tag, v, size)
    {
      if v[start - 1] <= s.tag {
        break;
      }
      start := start - 1;
    }
    var row := s.row;
    if start < size {
      row := Cleared(row, start, size);
    } else {
      assert Cleared(row, start, size) == row;
    }
    r := Tagged(row, v[size - 1]);
  }

  method ValidateVector(b: Versioned, v: Versions, size: nat) returns (r: Versioned)
    requires 0 < size <= MAX_LEVEL
    ensures r == ReadVersioned(b, v, size)
  {
    var start := size;
    while start > 0
      invariant start <= size && VectorStart(b.versions, v, start) == VectorStart(b.versions, v, size)
    {
      if v[start - 1] == b.versions[start - 1] {
        break;
      }
      start := start - 1;
    }
    r := b;
    if start < size {
      r := Versioned(Cleared(b.row, start, size), Renewed(b.versions, v, start, size));
    } else {
      assert Cleared(b.row, start, size) == b.row && Renewed(b.versions, v, start, size) == b.versions;
    }
  }

  // ------------------------------------------------------------- one cell

  /** Scanning from the deepest level finds the same first invalid level with
      one tag as with a version per level. */
  lemma SameStart(s: Tagged, b: Versioned, mem: map<nat, Vector>, c: nat, v: Versions, depth: nat, n: nat, next: nat)
    requires Ticking(v, depth, next) && n <= depth && n <= MAX_LEVEL && Twins(s, b, mem, c, v, n, next)
    ensures TagStart(s.tag, v, n) == VectorStart(b.versions, v, n)
    ensures forall i: nat | i < n :: i < TagStart(s.tag, v, n) <==> Marked(s.tag, v, i)
  {
    var t, u := TagStart(s.tag, v, n), VectorStart(b.versions, v, n);
    assert forall i: nat | i < t :: v[i] <= v[t - 1];
    assert t > 0 ==> Marked(s.tag, v, t - 1);
    assert u > 0 ==> Marked(s.tag, v, u - 1);
  }

  lemma TwinsRead(s: Tagged, b: Versioned, mem: map<nat, Vector>, c: nat, v: Versions, depth: nat, n: nat, next: nat)
    requires Ticking(v, depth, next) && 0 < n <= depth && n <= MAX_LEVEL && Twins(s, b, mem, c, v, n, next)
    ensures Twins(ReadTagged(s, v, n), ReadVersioned(b, v, n), mem, c, v, n, next)
    ensures forall i: nat | i < n ::
              ReadTagged(s, v, n).row[i] == At(mem, c, i) && ReadVersioned(b, v, n).row[i] == At(mem, c, i)
  {
    SameStart(s, b, mem, c, v, depth, n, next);
    ReadMarks(s, b, mem, c, v, depth, n, next);
  }

  lemma ReadMarks(s: Tagged, b: Versioned, mem: map<nat, Vector>, c: nat, v: Versions, depth: nat, n: nat, next: nat)
    requires Ticking(v, depth, next) && 0 < n <= depth && n <= MAX_LEVEL && Twins(s, b, mem, c, v, n, next)
    requires TagStart(s.tag, v, n) == VectorStart(b.versions, v, n)
    requires forall i: nat | i < n :: i < TagStart(s.tag, v, n) <==> Marked(s.tag, v, i)
    ensures forall i: nat | i < n :: Marked(ReadTagged(s, v, n).tag, v, i)
    ensures forall i: nat | i < n :: ReadVersioned(b, v, n).versions[i] == v[i]
    ensures forall i: nat | i < MAX_LEVEL :: ReadVersioned(b, v, n).versions[i] < next
  {
    var t, b' := TagStart(s.tag, v, n), ReadVersioned(b, v, n);
    forall i: nat | i < n ensures Marked(ReadTagged(s, v, n).tag, v, i) {
      assert i < n - 1 ==> v[i] < v[n - 1];
    }
    forall i: nat | i < n ensures ReadVersioned(b, v, n).versions[i] == v[i] {
      assert i < t ==> Marked(s.tag, v, i) && b.versions[i] == v[i];
      assert b'.versions[i] == v[i];
    }
  }

  lemma TwinsWritten(s: Tagged, b: Versioned, mem: map<nat, Vector>, c: nat, v: Versions, depth: nat, n: nat,
                     next: nat, times: seq<Time>)
    requires Ticking(v, depth, next) && 0 < n <= depth && n <= MAX_LEVEL && |times| == n
    requires s.tag < next && forall i: nat | i < MAX_LEVEL :: b.versions[i] < next
    ensures Twins(Tagged(Stored(s.row, times), v[n - 1]),
                  Versioned(Stored(b.row, times), Renewed(b.versions, v, 0, n)),
                  Written(mem, c, times), c, v, n, next)
  {
    assert forall i: nat | i < n :: v[i] <= v[n - 1];
  }

  lemma TwinsEntered(s: Tagged, b: Versioned, mem: map<nat, Vector>, c: nat, v: Versions, depth: nat, next: nat,
                     levels: nat)
    requires levels < MAX_LEVEL && Twins(s, b, mem, c, v, Size(depth, levels), next)
    ensures Twins(s, b, Zeroed(mem, depth), c, Issue(v, depth, next), Size(depth + 1, levels), next + 1)
  {
  }

  /** Entering a region leaves the marks of a word that has been accessed alone
      and marks the new level invalid, with both kinds of word. */
  lemma TwinsFresh(c: nat, v: Versions, n: nat, next: nat, mem: map<nat, Vector>, depth: nat)
    requires Ticking(v, depth, next) && 0 < n <= depth && n <= MAX_LEVEL
    requires forall i: nat | i < n :: At(mem, c, i) == 0
    ensures Twins(FreshTagged(), FreshVersioned(), mem, c, v, n, next)
  {
    forall i: nat | i < n ensures Marked(0, v, i) <==> FreshVersioned().versions[i] == v[i] {
      assert v[i] <= 0 <==> v[i] == 0;
    }
  }

  // ------------------------------------------------------------ whole runs

  ghost predicate AllTwins(stv: map<nat, Tagged>, base: map<nat, Versioned>, mem: map<nat, Vector>, v: Versions,
                           depth: nat, next: nat, levels: nat) {
    && levels < MAX_LEVEL && Ticking(v, depth, next) && stv.Keys == base.Keys
    && (forall c | c in stv :: Twins(stv[c], base[c], mem, c, v, Size(depth, levels), next))
    && (forall c: nat, i: nat | c !in stv && i < Size(depth, levels) :: At(mem, c, i) == 0)
  }

  lemma AllEntered(stv: map<nat, Tagged>, base: map<nat, Versioned>, mem: map<nat, Vector>, v: Versions, depth: nat,
                   next: nat, levels: nat)
    requires AllTwins(stv, base, mem, v, depth, next, levels)
    ensures AllTwins(stv, base, Zeroed(mem, depth), Issue(v, depth, next), depth + 1, next + 1, levels)
  {
    Entered(v, depth, next);
    forall c | c in stv
      ensures Twins(stv[c], base[c], Zeroed(mem, depth), c, Issue(v, depth, next), Size(depth + 1, levels), next + 1)
    {
      TwinsEntered(stv[c], base[c], mem, c, v, depth, next, levels);
    }
  }

  lemma AllUpdated(stv: map<nat, Tagged>, base: map<nat, Versioned>, mem: map<nat, Vector>, mem': map<nat, Vector>,
                   c: nat, s: Tagged, b: Versioned, v: Versions, depth: nat, next: nat, levels: nat)
    requires AllTwins(stv, base, mem, v, depth, next, levels) && Twins(s, b, mem', c, v, Size(depth, levels), next)
    requires forall d: nat, i: nat | d != c && i < Size(depth, levels) :: At(mem', d, i) == At(mem, d, i)
    ensures AllTwins(stv[c := s], base[c := b], mem', v, depth, next, levels)
  {
    forall d | d in stv && d != c ensures Twins(stv[d], base[d], mem', d, v, Size(depth, levels), next) {
      assert Twins(stv[d], base[d], mem, d, v, Size(depth, levels), next);
    }
  }

  /** The words of a cell, calloc'ed on first use. */
  function TaggedAt(stv: map<nat, Tagged>, c: nat): Tagged {
    if c in stv then stv[c] else FreshTagged()
  }

  function VersionedAt(base: map<nat, Versioned>, c: nat): Versioned {
    if c in base then base[c] else FreshVersioned()
  }

  lemma TwinsAt(stv: map<nat, Tagged>, base: map<nat, Versioned>, mem: map<nat, Vector>, c: nat, v: Versions,
                depth: nat, next: nat, levels: nat)
    requires AllTwins(stv, base, mem, v, depth, next, levels) && Size(depth, levels) > 0
    ensures Size(depth, levels) <= MAX_LEVEL
            && Twins(TaggedAt(stv, c), VersionedAt(base, c), mem, c, v, Size(depth, levels), next)
  {
    if c !in stv {
      TwinsFresh(c, v, Size(depth, levels), next, mem, depth);
    }
  }

  lemma AfterRead(stv: map<nat, Tagged>, base: map<nat, Versioned>, mem: map<nat, Vector>, c: nat, v: Versions,
                  depth: nat, next: nat, levels: nat, s: Tagged, b: Versioned)
    requires AllTwins(stv, base, mem, v, depth, next, levels) && Size(depth, levels) > 0
    requires s == ReadTagged(TaggedAt(stv, c), v, Size(depth, levels))
             && b == ReadVersioned(VersionedAt(base, c), v, Size(depth, levels))
    ensures AllTwins(stv[c := s], base[c := b], mem, v, depth, next, levels)
    ensures s.row[..Size(depth, levels)] == b.row[..Size(depth, levels)] == Read(mem, c, Size(depth, levels))
  {
    hide Twins, ReadTagged, ReadVersioned;
    var n := Size(depth, levels);
    TwinsAt(stv, base, mem, c, v, depth, next, levels);
    TwinsRead(TaggedAt(stv, c), VersionedAt(base, c), mem, c, v, depth, n, next);
    AllUpdated(stv, base, mem, mem, c, s, b, v, depth, next, levels);
    SameFront(s.row, Read(mem, c, n));
    SameFront(b.row, Read(mem, c, n));
  }

  lemma SameFront(row: Vector, times: seq<Time>)
    requires |times| <= MAX_LEVEL && forall i: nat | i < |times| :: row[i] == times[i]
    ensures row[..|times|] == times
  {
  }

  /** What a write does to both forms of its cell. */
  lemma AfterWrite(stv: map<nat, Tagged>, base: map<nat, Versioned>, mem: map<nat, Vector>, c: nat, v: Versions,
                   depth: nat, next: nat, levels: nat, times: seq<Time>)
    requires AllTwins(stv, base, mem, v, depth, next, levels) && |times| == Size(depth, levels)
    ensures |times| < MAX_LEVEL
    ensures |times| == 0 ==> AllTwins(stv, base, Written(mem, c, times), v, depth, next, levels)
    ensures |times| > 0 ==>
              var s, b, n := TaggedAt(stv, c), VersionedAt(base, c), |times|;
              AllTwins(stv[c := Tagged(Stored(s.row, times), v[n - 1])],
                       base[c := Versioned(Stored(b.row, times), Renewed(b.versions, v, 0, n))],
                       Written(mem, c, times), v, depth, next, levels)
  {
    hide Twins;
    var n := |times|;
    if n > 0 {
      TwinsAt(stv, base, mem, c, v, depth, next, levels);
      var s, b := TaggedAt(stv, c), VersionedAt(base, c);
      TwinsBelow(s, b, mem, c, v, n, next);
      TwinsWritten(s, b, mem, c, v, depth, n, next, times);
      AllUpdated(stv, base, mem, Written(mem, c, times), c, Tagged(Stored(s.row, times), v[n - 1]),
                 Versioned(Stored(b.row, times), Renewed(b.versions, v, 0, n)), v, depth, next, levels);
    } else {
      forall d | d in stv ensures Twins(stv[d], base[d], Written(mem, c, times), d, v, 0, next) {
        TwinsBelow(stv[d], base[d], mem, d, v, 0, next);
        NoTwins(stv[d], base[d], Written(mem, c, times), d, v, next);
      }
    }
  }

  lemma TwinsBelow(s: Tagged, b: Versioned, mem: map<nat, Vector>, c: nat, v: Versions, n: nat, next: nat)
    requires n <= MAX_LEVEL && Twins(s, b, mem, c, v, n, next)
    ensures s.tag < next && forall i: nat | i < MAX_LEVEL :: b.versions[i] < next
  {
  }

  lemma NoTwins(s: Tagged, b: Versioned, mem: map<nat, Vector>, c: nat, v: Versions, next: nat)
    requires s.tag < next && forall i: nat | i < MAX_LEVEL :: b.versions[i] < next
    ensures Twins(s, b, mem, c, v, 0, next)
  {
  }

  class Shadows {
    const levels: nat
    var v: Versions
    var depth: nat
    var next: nat
    var stv: map<nat, Tagged>
    var base: map<nat, Versioned>
    ghost var mem: map<nat, Vector>

    ghost predicate Valid()
      reads this
    {
      AllTwins(stv, base, mem, v, depth, next, levels)
    }

    constructor (levels: nat, start: nat)
      requires levels < MAX_LEVEL
      ensures Valid() && depth == 0 && mem == map[] && this.levels == levels
    {
      this.levels := levels;
      v, depth, next := seq(MAX_LEVEL, _ => 0), 0, start;
      stv, base, mem := map[], map[], map[];
    }

    /** A read keeps the levels the tags mark and zeroes the others. */
    method Load(addr: nat) returns (fromTag: seq<Time>, fromVector: seq<Time>)
      requires Valid()
      modifies this
      ensures Valid() && depth == old(depth) && mem == old(mem)
      ensures fromTag == fromVector == Read(mem, Cell(addr), Size(depth, levels))
    {
      hide AllTwins;
      var n, c := Size(depth, levels), Cell(addr);
      fromTag, fromVector := [], [];
      if n > 0 {
        TwinsAt(stv, base, mem, c, v, depth, next, levels);
        var s := ValidateTag(TaggedAt(stv, c), v, n);
        var b := ValidateVector(VersionedAt(base, c), v, n);
        AfterRead(stv, base, mem, c, v, depth, next, levels, s, b);
        stv, base := stv[c := s], base[c := b];
        fromTag, fromVector := s.row[..n], b.row[..n];
      }
    }

    method Store(addr: nat, times: seq<Time>)
      requires Valid() && |times| == Size(depth, levels)
      modifies this
      ensures Valid() && depth == old(depth) && mem == Written(old(mem), Cell(addr), times)
    {
      hide AllTwins;
      var n, c := |times|, Cell(addr);
      AfterWrite(stv, base, mem, c, v, depth, next, levels, times);
      if n > 0 {
        var s, b := TaggedAt(stv, c), VersionedAt(base, c);
        var s' := Tagged(Stored(s.row, times), v[n - 1]);
        var b' := Versioned(Stored(b.row, times), Renewed(b.versions, v, 0, n));
        stv, base := stv[c := s'], base[c := b'];
      }
      mem := Written(mem, c, times);
    }

    method Enter()
      requires Valid()
      modifies this
      ensures Valid() && depth == old(depth) + 1 && mem == Zeroed(old(mem), old(depth))
    {
      AllEntered(stv, base, mem, v, depth, next, levels);
      ghost var zeroed := Zeroed(mem, depth);
      var issued := Issue(v, depth, next);
      v, depth, next, mem := issued, depth + 1, next + 1, zeroed;
    }

    method Handle(e: Event) returns (fromTags: seq<seq<Time>>, fromVectors: seq<seq<Time>>)
      requires Valid() && Allowed(e, depth, levels)
      modifies this
      ensures Valid() && depth == DepthAfter(e, old(depth)) && mem == MemAfter(e, old(mem), old(depth), levels)
      ensures fromTags == fromVectors == Output(e, old(mem), old(depth), levels)
    {
      fromTags, fromVectors := [], [];
      match e {
        case Enter =>
          Enter();
        case Exit =>
          depth := depth - 1;
        case Load(addr) =>
          var times, times' := Load(addr);
          fromTags, fromVectors := [times], [times'];
        case Store(addr, times, _) =>
          Store(addr, times);
      }
    }
  }

  /** For every run the single-tag memory, the version-vector memory and the
      eager memory return the same vectors. */
  method Replay(events: seq<Event>, levels: nat, start: nat)
    returns (fromTags: seq<seq<Time>>, fromVectors: seq<seq<Time>>)
    requires levels < MAX_LEVEL && Legal(events, 0, levels)
    ensures fromTags == fromVectors == Loads(events, map[], 0, levels)
  {
    var shadows := new Shadows(levels, start);
    fromTags, fromVectors := [], [];
    var k := 0;
    assert events[0..] == events;
    while k < |events|
      invariant 0 <= k <= |events| && shadows.levels == levels && Legal(events[k..], shadows.depth, levels)
      invariant shadows.Valid() && fresh(shadows) && fromTags == fromVectors
      invariant fromTags + Loads(events[k..], shadows.mem, shadows.depth, levels) == Loads(events, map[], 0, levels)
    {
      RunStep(events, k, shadows.mem, shadows.depth, levels);
      var out, out' := shadows.Handle(events[k]);
      Joined(fromTags, out, Loads(events[k + 1..], shadows.mem, shadows.depth, levels));
      fromTags, fromVectors := fromTags + out, fromVectors + out';
      k := k + 1;
    }
  }
}
