/** What the chained hash map holds (common/src/hash_map.c): buckets of entries
    under a hash, and the finite map they stand for. */
module HashMap {
  import opened Common

  datatype Entry = Entry(key: int, value: int)

  /** How keys are hashed and compared: two keys are the same when they stand
      for the same thing. */
  datatype Keying = Keying(hash: int -> nat, same: int -> int)

  /** Keys that compare equal hash alike. */
  ghost predicate Consistent(k: Keying) {
    forall a: int, b: int | k.same(a) == k.same(b) :: k.hash(a) == k.hash(b)
  }

  function Home(k: Keying, size: nat, key: int): (i: nat)
    requires size > 0
    ensures i < size
  {
    k.hash(key) % size
  }

  // ---------------------------------------------------------------- chains

  /** The position of a key in a chain; its length if it is not there. */
  function Locate(k: Keying, chain: seq<Entry>, key: int): (j: nat)
    ensures j <= |chain|
    ensures j < |chain| ==> k.same(chain[j].key) == k.same(key)
    ensures forall i: nat | i < j :: k.same(chain[i].key) != k.same(key)
  {
    if chain == [] then 0
    else if k.same(chain[0].key) == k.same(key) then 0
    else
      var j := Locate(k, chain[1..], key);
      assert forall i: nat | 0 < i < j + 1 :: chain[i] == chain[1..][i - 1];
      j + 1
  }

  ghost predicate Apart(k: Keying, chain: seq<Entry>) {
    forall i: nat, j: nat | i < j < |chain| :: k.same(chain[i].key) != k.same(chain[j].key)
  }

  /** Buckets hold exactly the entries of a map, each in its key's bucket. */
  ghost predicate Holds(k: Keying, buckets: seq<seq<Entry>>, m: map<int, Entry>) {
    && buckets != []
    && (forall i: nat | i < |buckets| :: Apart(k, buckets[i]))
    && (forall i: nat | i < |buckets| :: forall e | e in buckets[i] ::
          Home(k, |buckets|, e.key) == i && k.same(e.key) in m && m[k.same(e.key)] == e)
    && (forall c | c in m :: k.same(m[c].key) == c && m[c] in buckets[Home(k, |buckets|, m[c].key)])
  }

  ghost predicate InMap(k: Keying, m: map<int, Entry>, e: Entry) {
    k.same(e.key) in m && m[k.same(e.key)] == e
  }

  /** An entry of one of the first buckets. */
  ghost predicate Early(buckets: seq<seq<Entry>>, n: nat, e: Entry) {
    exists g: nat | g < n && g < |buckets| :: e in buckets[g]
  }

  /** A bucket holds the keys whose hashes leave its number. */
  lemma OwnBucket(k: Keying, buckets: seq<seq<Entry>>, m: map<int, Entry>, i: nat, e: Entry)
    requires Holds(k, buckets, m) && i < |buckets| && e in buckets[i]
    ensures k.hash(e.key) % |buckets| == i
  {
  }

  /** A key is in its bucket exactly if it is in the map. */
  lemma Located(k: Keying, buckets: seq<seq<Entry>>, m: map<int, Entry>, key: int)
    requires Consistent(k) && Holds(k, buckets, m)
    ensures var chain := buckets[Home(k, |buckets|, key)];
            var j := Locate(k, chain, key);
            && (j < |chain| <==> k.same(key) in m)
            && (j < |chain| ==> m[k.same(key)] == chain[j])
  {
    var chain := buckets[Home(k, |buckets|, key)];
    var j := Locate(k, chain, key);
    if k.same(key) in m {
      var e := m[k.same(key)];
      assert e in chain;
      var i: nat :| i < |chain| && chain[i] == e;
      assert i >= j;
    }
    if j < |chain| {
      assert chain[j] in chain;
    }
  }

  /** A new entry at the end of its key's chain. */
  lemma Appended(k: Keying, buckets: seq<seq<Entry>>, m: map<int, Entry>, e: Entry)
    requires Consistent(k) && Holds(k, buckets, m) && k.same(e.key) !in m
    ensures var h := Home(k, |buckets|, e.key);
            Holds(k, buckets[h := buckets[h] + [e]], m[k.same(e.key) := e])
  {
    var h := Home(k, |buckets|, e.key);
    var m' := m[k.same(e.key) := e];
    var now := buckets[h := buckets[h] + [e]];
    forall i: nat | i < |buckets[h]| ensures k.same(buckets[h][i].key) != k.same(e.key) {
      assert buckets[h][i] in buckets[h];
    }
    forall c | c in m' ensures k.same(m'[c].key) == c && m'[c] in now[Home(k, |now|, m'[c].key)] {
    }
  }

  /** A value replaced in place. */
  lemma Replaced(k: Keying, buckets: seq<seq<Entry>>, m: map<int, Entry>, h: nat, j: nat, v: int)
    requires Holds(k, buckets, m) && h < |buckets| && j < |buckets[h]|
    ensures var e := buckets[h][j].(value := v);
            Holds(k, buckets[h := buckets[h][j := e]], m[k.same(e.key) := e])
  {
    var was := buckets[h][j];
    var e := was.(value := v);
    var c := k.same(e.key);
    var m' := m[c := e];
    var chain := buckets[h][j := e];
    var now := buckets[h := chain];
    assert was in buckets[h];
    forall i: nat, x: Entry | i < |now| && x in now[i]
      ensures Home(k, |now|, x.key) == i && k.same(x.key) in m' && m'[k.same(x.key)] == x
    {
      if i == h {
        var n: nat :| n < |chain| && chain[n] == x;
        assert buckets[h][n] in buckets[h];
      }
    }
    forall d | d in m' ensures k.same(m'[d].key) == d && m'[d] in now[Home(k, |now|, m'[d].key)] {
      if d == c {
        assert chain[j] == e;
      } else {
        var g := Home(k, |now|, m[d].key);
        assert m[d] in buckets[g];
        if g == h {
          var n: nat :| n < |chain| && buckets[h][n] == m[d];
          assert chain[n] == m[d];
        }
      }
    }
  }

  /** An entry unlinked. */
  lemma Unlinked(k: Keying, buckets: seq<seq<Entry>>, m: map<int, Entry>, h: nat, j: nat)
    requires Holds(k, buckets, m) && h < |buckets| && j < |buckets[h]|
    ensures var chain := buckets[h];
            Holds(k, buckets[h := chain[..j] + chain[j + 1..]], m - {k.same(chain[j].key)})
  {
    var chain := buckets[h];
    var rest := chain[..j] + chain[j + 1..];
    var c := k.same(chain[j].key);
    var m' := m - {c};
    var now := buckets[h := rest];
    assert chain[j] in chain;
    ShorterApart(k, chain, j);
    forall i: nat, x: Entry | i < |now| && x in now[i]
      ensures Home(k, |now|, x.key) == i && k.same(x.key) in m' && m'[k.same(x.key)] == x
    {
      assert x in buckets[i];
    }
    forall d | d in m' ensures k.same(m'[d].key) == d && m'[d] in now[Home(k, |now|, m'[d].key)] {
      var g := Home(k, |now|, m[d].key);
      assert m[d] in buckets[g];
      if g == h {
        StillThere(chain, j, m[d]);
      }
    }
  }

  /** A chain without one of its entries. */
  lemma ShorterApart(k: Keying, chain: seq<Entry>, j: nat)
    requires Apart(k, chain) && j < |chain|
    ensures var rest := chain[..j] + chain[j + 1..];
            && Apart(k, rest)
            && forall x | x in rest :: x in chain && k.same(x.key) != k.same(chain[j].key)
  {
    var rest := chain[..j] + chain[j + 1..];
    assert forall n: nat | n < |rest| :: rest[n] == chain[if n < j then n else n + 1];
  }

  lemma StillThere(chain: seq<Entry>, j: nat, x: Entry)
    requires j < |chain| && x in chain && x != chain[j]
    ensures x in chain[..j] + chain[j + 1..]
  {
    var n: nat :| n < |chain| && chain[n] == x;
    assert (chain[..j] + chain[j + 1..])[if n < j then n else n - 1] == x;
  }

  // ------------------------------------------------------------ iteration

  function Flat(buckets: seq<seq<Entry>>): seq<Entry> {
    if buckets == [] then [] else buckets[0] + Flat(buckets[1..])
  }

  lemma {:induction false} FlatJoin(a: seq<seq<Entry>>, chain: seq<Entry>)
    ensures Flat(a + [chain]) == Flat(a) + chain
  {
    if a == [] {
      assert [chain][1..] == [] && Flat([chain]) == chain + Flat([]);
    } else {
      assert (a + [chain])[1..] == a[1..] + [chain];
      FlatJoin(a[1..], chain);
    }
  }

  lemma {:induction false} FlatHas(buckets: seq<seq<Entry>>, e: Entry)
    ensures e in Flat(buckets) <==> exists i: nat | i < |buckets| :: e in buckets[i]
  {
    if buckets != [] {
      FlatHas(buckets[1..], e);
      if e in Flat(buckets[1..]) {
        var i: nat :| i < |buckets[1..]| && e in buckets[1..][i];
        assert e in buckets[i + 1];
      }
      if i: nat :| i < |buckets| && e in buckets[i] && i > 0 {
        assert e in buckets[1..][i - 1];
      }
    }
  }

  /** The first buckets' entries, and that each key is among them once. */
  lemma {:induction false} FlatApart(k: Keying, buckets: seq<seq<Entry>>, m: map<int, Entry>, n: nat)
    requires Holds(k, buckets, m) && n <= |buckets|
    ensures Apart(k, Flat(buckets[..n]))
  {
    if n > 0 {
      FlatApart(k, buckets, m, n - 1);
      assert buckets[..n] == buckets[..n - 1] + [buckets[n - 1]];
      FlatJoin(buckets[..n - 1], buckets[n - 1]);
      var a, b := Flat(buckets[..n - 1]), buckets[n - 1];
      var ab: seq<Entry> := a + b;
      forall i: nat, j: nat | i < j < |ab| ensures k.same(ab[i].key) != k.same(ab[j].key) {
        if i < |a| <= j {
          assert ab[i] == a[i] && ab[j] == b[j - |a|];
          FlatHas(buckets[..n - 1], a[i]);
          assert a[i] in Flat(buckets[..n - 1]) && b[j - |a|] in b;
          var g: nat :| g < n - 1 && a[i] in buckets[..n - 1][g];
          SameHome(k, buckets, m, g, n - 1, a[i], b[j - |a|]);
        } else if i >= |a| {
          assert ab[j] == b[j - |a|] && (i >= |a| ==> ab[i] == b[i - |a|]);
        }
      }
    }
  }

  /** Entries of different buckets have different keys. */
  lemma SameHome(k: Keying, buckets: seq<seq<Entry>>, m: map<int, Entry>, g: nat, h: nat, e: Entry, f: Entry)
    requires Holds(k, buckets, m) && g < |buckets| && h < |buckets| && g != h && e in buckets[g] && f in buckets[h]
    ensures k.same(e.key) != k.same(f.key)
  {
  }

  /** What an iteration visits: every entry of the map, each key once. */
  ghost predicate Visits(k: Keying, entries: seq<Entry>, m: map<int, Entry>) {
    && Apart(k, entries)
    && forall e :: e in entries <==> InMap(k, m, e)
  }

  lemma FlatVisits(k: Keying, buckets: seq<seq<Entry>>, m: map<int, Entry>)
    requires Holds(k, buckets, m)
    ensures Visits(k, Flat(buckets), m)
  {
    assert buckets[..|buckets|] == buckets;
    FlatApart(k, buckets, m, |buckets|);
    forall e ensures e in Flat(buckets) <==> InMap(k, m, e) {
      FlatHas(buckets, e);
      if InMap(k, m, e) {
        var c := k.same(e.key);
        assert c in m && m[c] in buckets[Home(k, |buckets|, m[c].key)];
      }
    }
  }

  // -------------------------------------------------------------- rehashing

  lemma AllMoved(k: Keying, buckets: seq<seq<Entry>>, contents: map<int, Entry>, m: map<int, Entry>)
    requires Holds(k, buckets, contents)
    requires forall c: int | c in m :: c in contents && m[c] == contents[c]
    requires forall e :: InMap(k, m, e) <==> Early(buckets, |buckets|, e)
    ensures m == contents
  {
    forall c: int | c in contents ensures c in m {
      assert contents[c] in buckets[Home(k, |buckets|, contents[c].key)];
      assert Early(buckets, |buckets|, contents[c]);
      assert InMap(k, m, contents[c]) && k.same(contents[c].key) == c;
    }
    assert forall c: int | c in contents :: c in m && m[c] == contents[c];
    forall c: int ensures c in m.Keys <==> c in contents.Keys {
    }
    assert m.Keys == contents.Keys;
  }

  lemma InMapMore(k: Keying, m: map<int, Entry>, e: Entry)
    requires k.same(e.key) !in m
    ensures forall x :: InMap(k, m[k.same(e.key) := e], x) <==> InMap(k, m, x) || x == e
  {
  }

  lemma EarlyNext(buckets: seq<seq<Entry>>, i: nat)
    requires i < |buckets|
    ensures forall e :: Early(buckets, i + 1, e) <==> Early(buckets, i, e) || e in buckets[i]
  {
  }

  lemma StillIn(k: Keying, buckets: seq<seq<Entry>>, m: map<int, Entry>, h: nat, j: nat)
    requires Holds(k, buckets, m) && h < |buckets| && j < |buckets[h]|
    ensures k.same(buckets[h][j].key) in m && m[k.same(buckets[h][j].key)] == buckets[h][j]
  {
    assert buckets[h][j] in buckets[h];
  }

  lemma NotEmpty(k: Keying, buckets: seq<seq<Entry>>, m: map<int, Entry>)
    requires Holds(k, buckets, m)
    ensures buckets != []
  {
  }

  lemma OneLess(m: map<int, Entry>, c: int)
    requires c in m
    ensures |m - {c}| == |m| - 1
  {
    var rest := m - {c};
    assert m == rest[c := m[c]];
  }

  /** What a rehash has moved before entry `j` of bucket `i`. */
  ghost predicate MovedEntries(k: Keying, buckets: seq<seq<Entry>>, contents: map<int, Entry>,
                               moved: seq<seq<Entry>>, m: map<int, Entry>, i: nat, j: nat)
    requires i < |buckets| ==> j <= |buckets[i]|
  {
    && Holds(k, moved, m)
    && (forall c | c in m :: c in contents && m[c] == contents[c])
    && (forall e :: InMap(k, m, e) <==> Early(buckets, i, e) || (i < |buckets| && e in buckets[i][..j]))
  }

  /** One more entry at the end of its new bucket. */
  lemma MoveEntry(k: Keying, buckets: seq<seq<Entry>>, contents: map<int, Entry>,
                  moved: seq<seq<Entry>>, m: map<int, Entry>, i: nat, j: nat)
    requires Consistent(k) && Holds(k, buckets, contents) && i < |buckets| && j < |buckets[i]|
    requires MovedEntries(k, buckets, contents, moved, m, i, j)
    ensures var e := buckets[i][j];
            && moved != [] && Home(k, |moved|, e.key) < |moved|
            && var h := Home(k, |moved|, e.key);
               MovedEntries(k, buckets, contents, moved[h := moved[h] + [e]], m[k.same(e.key) := e], i, j + 1)
  {
    hide Early;
    var e := buckets[i][j];
    StillIn(k, buckets, contents, i, j);
    NotMoved(k, buckets, contents, m, i, j);
    NotEmpty(k, moved, m);
    Appended(k, moved, m, e);
    hide Holds;
    InMapMore(k, m, e);
    assert buckets[i][..j + 1] == buckets[i][..j] + [e];
  }

  lemma MovedBucket(k: Keying, buckets: seq<seq<Entry>>, contents: map<int, Entry>,
                    moved: seq<seq<Entry>>, m: map<int, Entry>, i: nat)
    requires i < |buckets| && MovedEntries(k, buckets, contents, moved, m, i, |buckets[i]|)
    ensures MovedEntries(k, buckets, contents, moved, m, i + 1, 0)
  {
    hide Holds, InMap;
    EarlyNext(buckets, i);
    assert buckets[i][..|buckets[i]|] == buckets[i];
  }

  /** An entry still to come has not been moved. */
  lemma NotMoved(k: Keying, buckets: seq<seq<Entry>>, contents: map<int, Entry>, m: map<int, Entry>, i: nat, j: nat)
    requires Holds(k, buckets, contents) && i < |buckets| && j < |buckets[i]|
    requires forall c | c in m :: c in contents && m[c] == contents[c]
    requires forall e :: InMap(k, m, e) <==> Early(buckets, i, e) || e in buckets[i][..j]
    ensures k.same(buckets[i][j].key) !in m
  {
    var e := buckets[i][j];
    assert e in buckets[i];
    assert e !in buckets[i][..j];
    assert !Early(buckets, i, e);
    assert !InMap(k, m, e);
    assert contents[k.same(e.key)] == e;
  }

  // ----------------------------------------------------------------- runs

  datatype Op = Put(key: int, value: int, force: bool) | Remove(key: int) | Get(key: int) | Reserve(size: nat)
    | SetLoad(load: real)

  function Found(k: Keying, m: map<int, Entry>, key: int): Option<int> {
    if k.same(key) in m then Some(m[k.same(key)].value) else None
  }

  /** What an operation does to a plain map; reserving and loads do nothing. */
  function MapAfter(k: Keying, op: Op, m: map<int, Entry>): map<int, Entry> {
    match op
    case Put(key, value, force) =>
      var c := k.same(key);
      if c !in m then m[c := Entry(key, value)] else if force then m[c := m[c].(value := value)] else m
    case Remove(key) => m - {k.same(key)}
    case _ => m
  }

  function Answer(k: Keying, op: Op, m: map<int, Entry>): Option<int> {
    match op
    case Put(key, value, _) => if k.same(key) in m then Found(k, m, key) else Some(value)
    case Remove(key) => Found(k, m, key)
    case Get(key) => Found(k, m, key)
    case _ => None
  }

  function Answers(k: Keying, ops: seq<Op>, m: map<int, Entry>): seq<Option<int>> {
    if ops == [] then [] else [Answer(k, ops[0], m)] + Answers(k, ops[1..], MapAfter(k, ops[0], m))
  }

  function MapAtEnd(k: Keying, ops: seq<Op>, m: map<int, Entry>): map<int, Entry> {
    if ops == [] then m else MapAtEnd(k, ops[1..], MapAfter(k, ops[0], m))
  }

  lemma NextOp(k: Keying, ops: seq<Op>, n: nat, m: map<int, Entry>)
    requires n < |ops|
    ensures Answers(k, ops[n..], m) == [Answer(k, ops[n], m)] + Answers(k, ops[n + 1..], MapAfter(k, ops[n], m))
    ensures MapAtEnd(k, ops[n..], m) == MapAtEnd(k, ops[n + 1..], MapAfter(k, ops[n], m))
  {
    assert ops[n..][1..] == ops[n + 1..];
  }

  lemma NoOps(k: Keying, m: map<int, Entry>)
    ensures Answers(k, [], m) == [] && MapAtEnd(k, [], m) == m
  {
  }
}
