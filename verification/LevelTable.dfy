/** One page of shadow memory: a version and a time table per nesting level
    (runtime/src/LevelTable.cpp, runtime/src/TimeTable.cpp). */
module LevelTables {
  import opened Lzo
  import opened Delta

  const ENTRIES := 512

  datatype Slot = Null | Plain(times: seq<Time>) | Packed(bytes: seq<byte>)

  /** The times of one page at one level. */
  type Row = s: seq<Time> | |s| == ENTRIES witness seq(512, _ => 0)

  function Zeros(): (r: Row)
    ensures forall i | 0 <= i < ENTRIES :: r[i] == 0
  {
    seq(ENTRIES, _ => 0)
  }

  /** What is delta-coded for level `i`: level 0 itself, below it the
      difference to the level above. */
  ghost function Coded(contents: seq<Row>, i: nat): seq<Time>
    requires i < |contents|
  {
    if i == 0 then contents[0] else Minus(contents[i - 1], contents[i])
  }

  /** The time a table holds at level `i` for entry `idx` under the current
      versions `v`: zero when the level has no table or an outdated one. */
  ghost function Held(versions: Versions, contents: seq<Row>, v: Versions, idx: nat, i: nat): Time
    requires i < MAX_LEVEL && idx < ENTRIES
  {
    if i < |contents| && versions[i] == v[i] then contents[i][idx] else 0
  }

  /** Levels from the top that have a table as recent as `v`, at most `n`. */
  function Live(versions: Versions, height: nat, v: Versions, n: nat): (r: nat)
    requires n <= MAX_LEVEL
    ensures r <= n && r <= height
    ensures forall i | 0 <= i < r :: versions[i] >= v[i]
    ensures r < n && r < height ==> versions[r] < v[r]
  {
    LiveFrom(versions, height, v, n, 0)
  }

  function LiveFrom(versions: Versions, height: nat, v: Versions, n: nat, i: nat): (r: nat)
    requires i <= n <= MAX_LEVEL && i <= height
    requires forall k | 0 <= k < i :: versions[k] >= v[k]
    ensures i <= r <= n && r <= height
    ensures forall k | 0 <= k < r :: versions[k] >= v[k]
    ensures r < n && r < height ==> versions[r] < v[r]
    decreases n - i
  {
    if i < n && i < height && versions[i] >= v[i] then LiveFrom(versions, height, v, n, i + 1) else i
  }

  /** No level newer than an outdated one above it. */
  ghost predicate OutdatedBelow(versions: Versions, height: nat, v: Versions, n: nat)
    requires n <= MAX_LEVEL
  {
    forall i, j | 0 <= i < j < n && j < height :: versions[i] < v[i] ==> versions[j] < v[j]
  }

  class LevelTable {
    /** Where the table lives; orders the compression buffer. */
    const addr: nat
    var versions: Versions
    var tables: seq<Slot>
    var compressed: bool
    /** The plain tables of the levels that have one. */
    ghost var contents: seq<Row>

    ghost predicate Shaped()
      reads `versions, `tables, `contents
    {
      && |tables| == MAX_LEVEL && |contents| <= MAX_LEVEL
      && (forall i | |contents| <= i < MAX_LEVEL :: tables[i].Null?)
    }

    /** Level `i` is packed from level `edge` on, plain above. */
    ghost predicate Holds(i: nat, edge: nat)
      requires Shaped() && i < |contents|
      reads `versions, `tables, `contents
    {
      if i >= edge then tables[i].Packed? && Packs(tables[i].bytes, Coded(contents, i))
      else tables[i] == Plain(contents[i])
    }

    ghost predicate PackedFrom(edge: nat)
      reads `versions, `tables, `contents
    {
      Shaped() && forall i: nat | i < |contents| :: Holds(i, edge)
    }

    ghost function Edge(): nat
      reads this
    {
      if compressed then 0 else MAX_LEVEL
    }

    ghost predicate Valid()
      reads this
    {
      PackedFrom(Edge())
    }

    constructor (addr: nat)
      ensures Valid() && !compressed && contents == [] && this.addr == addr
      ensures versions == seq(MAX_LEVEL, _ => 0)
    {
      this.addr := addr;
      versions := seq(MAX_LEVEL, _ => 0);
      tables := seq(MAX_LEVEL, _ => Null);
      compressed := false;
      contents := [];
    }

    method GetTime(level: nat, idx: nat, v: Versions) returns (t: Time)
      requires Valid() && !compressed && level < MAX_LEVEL && idx < ENTRIES
      ensures t == Held(versions, contents, v, idx, level)
    {
      t := 0;
      assert level < |contents| ==> Holds(level, MAX_LEVEL);
      if tables[level] != Null && versions[level] == v[level] {
        t := tables[level].times[idx];
      }
    }

    /** A table whose version is old is cleaned before its first write. */
    method SetTime(level: nat, idx: nat, ver: nat, value: Time)
      requires Valid() && !compressed && level < MAX_LEVEL && level <= |contents| && idx < ENTRIES
      modifies this
      ensures Valid() && !compressed
      ensures versions == old(versions)[level := ver]
      ensures |contents| == (if level == |old(contents)| then level + 1 else |old(contents)|)
      ensures forall i | 0 <= i < |old(contents)| && i != level :: contents[i] == old(contents[i])
      ensures contents[level] ==
              (if level < |old(contents)| && old(versions)[level] == ver then old(contents)[level]
                else Zeros())[idx := value]
    {
      assert level < |contents| ==> Holds(level, MAX_LEVEL);
      var times: Row := if tables[level] != Null && versions[level] == ver then tables[level].times else Zeros();
      times := times[idx := value];
      tables := tables[level := Plain(times)];
      versions := versions[level := ver];
      contents := if level == |contents| then contents + [times] else contents[level := times];
      forall i: nat | i < |contents| ensures Holds(i, MAX_LEVEL) {
        if i != level {
          assert old(Holds(i, MAX_LEVEL));
        }
      }
    }

    method FindLowestInvalidIndex(v: Versions) returns (i: nat)
      requires Valid()
      ensures i == Live(versions, |contents|, v, MAX_LEVEL)
    {
      i := 0;
      while i < MAX_LEVEL && tables[i] != Null && versions[i] >= v[i]
        invariant 0 <= i <= MAX_LEVEL && i <= |contents|
        invariant forall k | 0 <= k < i :: versions[k] >= v[k]
        invariant LiveFrom(versions, |contents|, v, MAX_LEVEL, i) == Live(versions, |contents|, v, MAX_LEVEL)
      {
        assert i < |contents|;
        i := i + 1;
      }
      assert i < |contents| ==> Holds(i, Edge());
    }

    /** Deletes every table from level `start` down. */
    method CleanFrom(start: nat)
      requires |tables| == MAX_LEVEL && start <= MAX_LEVEL
      modifies `tables
      ensures |tables| == MAX_LEVEL
      ensures forall k | 0 <= k < MAX_LEVEL :: tables[k] == if k < start then old(tables)[k] else Null
    {
      ghost var was := tables;
      var i := start;
      while i < MAX_LEVEL
        invariant start <= i <= MAX_LEVEL && |tables| == MAX_LEVEL
        invariant forall k | 0 <= k < MAX_LEVEL :: tables[k] == if start <= k < i then Null else was[k]
      {
        if tables[i] != Null {
          tables := tables[i := Null];
        }
        i := i + 1;
      }
    }

    /** Dropping the deepest tables leaves the codes of the others intact. */
    twostate lemma Truncated(h: nat)
      requires old(Valid()) && h <= |old(contents)|
      requires contents == old(contents)[..h] && versions == old(versions) && compressed == old(compressed)
      requires |tables| == MAX_LEVEL
      requires forall k | 0 <= k < MAX_LEVEL :: tables[k] == if k < h then old(tables)[k] else Null
      ensures Valid()
    {
      forall k: nat | k < h ensures Holds(k, Edge()) {
        assert old(Holds(k, Edge()));
      }
    }

    /** Deletes the outdated tables of the first `n` levels and every table
        below them. */
    method CollectGarbageWithinBounds(v: Versions, n: nat)
      requires Valid() && n < MAX_LEVEL
      requires OutdatedBelow(versions, |contents|, v, n)
      modifies this
      ensures Valid() && compressed == old(compressed) && versions == old(versions)
      ensures contents == old(contents)[..Live(versions, |old(contents)|, v, n)]
    {
      ghost var live := Live(versions, |contents|, v, n);
      ghost var was := tables;
      var i := 0;
      while i < n
        invariant 0 <= i <= n && |tables| == MAX_LEVEL
        invariant forall k | 0 <= k < MAX_LEVEL :: tables[k] == if live <= k < i then Null else was[k]
        invariant unchanged(`contents, `versions, `compressed)
      {
        assert i < |contents| ==> old(Holds(i, Edge()));
        if tables[i] != Null && versions[i] < v[i] {
          tables := tables[i := Null];
        }
        i := i + 1;
      }
      CleanFrom(n);
      contents := contents[..live];
      Truncated(live);
    }

    /** Deletes every table from the first missing or outdated level down. */
    method CollectGarbageUnbounded(v: Versions)
      requires Valid()
      modifies this
      ensures Valid() && compressed == old(compressed) && versions == old(versions)
      ensures contents == old(contents)[..Live(versions, |old(contents)|, v, MAX_LEVEL)]
    {
      var lowest := FindLowestInvalidIndex(v);
      CleanFrom(lowest);
      contents := contents[..lowest];
      Truncated(lowest);
    }

    /** Deepest level first, so that the level above is still plain. */
    method Compress()
      requires Valid() && !compressed
      modifies this
      ensures Valid() && compressed && versions == old(versions) && contents == old(contents)
    {
      assert contents != [] ==> Holds(0, Edge());
      if tables[0] == Null {
        compressed := true;
        return;
      }
      var i := MAX_LEVEL - 1;
      while i >= 1
        invariant 0 <= i < MAX_LEVEL && contents != [] && PackedFrom(i + 1)
        invariant unchanged(`contents, `versions, `compressed)
      {
        if tables[i] != Null {
          assert Holds(i, i + 1) && Holds(i - 1, i + 1);
          var bytes := Pack(Minus(tables[i - 1].times, tables[i].times));
          Replace(i, Packed(bytes), i + 1, i);
        } else {
          forall k: nat | k < |contents| ensures Holds(k, i) {
            assert Holds(k, i + 1);
          }
        }
        i := i - 1;
      }
      assert Holds(0, 1);
      var bytes := Pack(tables[0].times);
      Replace(0, Packed(bytes), 1, 0);
      compressed := true;
    }

    /** Swaps the table of level `i` between its two forms. */
    method Replace(i: nat, slot: Slot, ghost edge: nat, ghost edge': nat)
      requires PackedFrom(edge) && i < |contents|
      requires (edge == i + 1 && edge' == i) || (edge == i && edge' == i + 1)
      requires if i >= edge' then slot.Packed? && Packs(slot.bytes, Coded(contents, i)) else slot == Plain(contents[i])
      modifies `tables
      ensures PackedFrom(edge')
    {
      tables := tables[i := slot];
      forall k: nat | k < |contents| ensures Holds(k, edge') {
        if k != i {
          assert old(Holds(k, edge));
        }
      }
    }

    /** Shallowest level first: each level is rebuilt from the one above. */
    method Decompress()
      requires Valid() && compressed
      modifies this
      ensures Valid() && !compressed && versions == old(versions) && contents == old(contents)
    {
      assert contents != [] ==> Holds(0, Edge());
      if tables[0] == Null {
        compressed := false;
        return;
      }
      var times := Unpack(tables[0].bytes, contents[0]);
      Replace(0, Plain(times), 0, 1);
      var i := 1;
      while i < MAX_LEVEL
        invariant 1 <= i <= MAX_LEVEL && contents != [] && PackedFrom(i)
        invariant unchanged(`contents, `versions, `compressed)
      {
        assert i < |contents| ==> Holds(i, i);
        if tables[i] == Null {
          break;
        }
        assert Holds(i - 1, i);
        var diff := Unpack(tables[i].bytes, Minus(contents[i - 1], contents[i]));
        MinusMinus(contents[i - 1], contents[i]);
        Replace(i, Plain(Minus(tables[i - 1].times, diff)), i, i + 1);
        i := i + 1;
      }
      compressed := false;
      forall k: nat | k < |contents| ensures Holds(k, MAX_LEVEL) {
        assert Holds(k, i);
      }
    }
  }
}
