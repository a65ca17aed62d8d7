/** The active set of uncompressed level tables and its clock hand
    (runtime/src/compression.cpp). */
module ClockBuffer {
  import opened LevelTables

  /** A map entry: keys are ordered by address, `r` is the reference bit. */
  datatype Entry = Entry(table: LevelTable, r: bool)

  /** Position reached from `hand` after `j` steps around `n` entries. */
  function Around(hand: nat, j: nat, n: nat): (k: nat)
    requires hand < n && j <= n
    ensures k < n
  {
    if hand + j < n then hand + j else hand + j - n
  }

  /** Steps from `hand` to position `k`. */
  function Steps(hand: nat, k: nat, n: nat): (j: nat)
    requires hand < n && k < n
    ensures j < n && Around(hand, j, n) == k
  {
    if k >= hand then k - hand else k + n - hand
  }

  /** Steps from `hand` to the first entry with a clear bit; all the way round
      when every bit is set. */
  function ToClear(entries: seq<Entry>, hand: nat, j: nat): (d: nat)
    requires hand < |entries| && j <= |entries|
    ensures j <= d <= |entries|
    ensures forall i | j <= i < d :: entries[Around(hand, i, |entries|)].r
    ensures d < |entries| ==> !entries[Around(hand, d, |entries|)].r
    decreases |entries| - j
  {
    if j == |entries| || !entries[Around(hand, j, |entries|)].r then j else ToClear(entries, hand, j + 1)
  }

  /** The bits of the first `d` entries in clock order cleared. */
  function Cleared(entries: seq<Entry>, hand: nat, d: nat): (r: seq<Entry>)
    requires hand < |entries|
    ensures |r| == |entries|
    ensures forall k | 0 <= k < |r| :: r[k].table == entries[k].table
  {
    seq(|entries|, k requires 0 <= k < |entries| =>
      entries[k].(r := entries[k].r && Steps(hand, k, |entries|) >= d))
  }

  /** Whose turn it is to leave. */
  function VictimAt(entries: seq<Entry>, hand: nat): (k: nat)
    requires hand < |entries|
    ensures k < |entries|
    ensures entries[k].r ==> k == hand && forall i: nat | i < |entries| :: entries[i].r
  {
    var d, n := ToClear(entries, hand, 0), |entries|;
    AllSet(entries, hand);
    Around(hand, if d == n then 0 else d, n)
  }

  lemma AllSet(entries: seq<Entry>, hand: nat)
    requires hand < |entries|
    ensures ToClear(entries, hand, 0) == |entries| ==> forall i: nat | i < |entries| :: entries[i].r
    ensures ToClear(entries, hand, 0) < |entries| ==>
              !entries[Around(hand, ToClear(entries, hand, 0), |entries|)].r
  {
    var n := |entries|;
    if ToClear(entries, hand, 0) == n {
      forall i: nat | i < n ensures entries[i].r {
        assert entries[Around(hand, Steps(hand, i, n), n)].r;
      }
    }
  }

  lemma ClearOne(entries: seq<Entry>, hand: nat, j: nat)
    requires hand < |entries| && j < |entries|
    ensures var k := Around(hand, j, |entries|);
            Cleared(entries, hand, j)[k] == entries[k]
            && Cleared(entries, hand, j + 1) == Cleared(entries, hand, j)[k := entries[k].(r := false)]
  {
  }

  ghost predicate Ascending(entries: seq<Entry>) {
    forall i, j | 0 <= i < j < |entries| :: entries[i].table.addr < entries[j].table.addr
  }

  ghost function TablesOf(entries: seq<Entry>): set<LevelTable> {
    set i | 0 <= i < |entries| :: entries[i].table
  }

  lemma SameTables(a: seq<Entry>, b: seq<Entry>)
    requires |a| == |b| && forall i | 0 <= i < |a| :: a[i].table == b[i].table
    ensures TablesOf(a) == TablesOf(b) && (Ascending(a) ==> Ascending(b))
  {
  }

  lemma Inserted(entries: seq<Entry>, at: nat, e: Entry)
    requires Ascending(entries) && at <= |entries|
    requires forall i | 0 <= i < at :: entries[i].table.addr < e.table.addr
    requires at < |entries| ==> e.table.addr < entries[at].table.addr
    ensures var r := entries[..at] + [e] + entries[at..];
            Ascending(r) && TablesOf(r) == TablesOf(entries) + {e.table}
  {
    var r := entries[..at] + [e] + entries[at..];
    forall i | 0 <= i < |entries| ensures entries[i].table in TablesOf(r) {
      assert entries[i] == r[if i < at then i else i + 1];
    }
    assert r[at] == e && e.table in TablesOf(r);
    forall i | 0 <= i < |r| ensures r[i].table in TablesOf(entries) + {e.table} {
      assert i == at || r[i] == entries[if i < at then i else i - 1];
    }
  }

  lemma Erased(entries: seq<Entry>, k: nat)
    requires Ascending(entries) && k < |entries|
    ensures var r := entries[..k] + entries[k + 1..];
            Ascending(r) && TablesOf(r) == TablesOf(entries) - {entries[k].table}
  {
    var r := entries[..k] + entries[k + 1..];
    forall i | 0 <= i < |entries| && i != k
      ensures entries[i].table != entries[k].table && entries[i].table in TablesOf(r)
    {
      assert entries[i].table.addr != entries[k].table.addr;
      assert entries[i] == r[if i < k then i else i - 1];
    }
    forall i | 0 <= i < |r| ensures r[i].table in TablesOf(entries) - {entries[k].table} {
      assert r[i] == entries[if i < k then i else i + 1];
    }
  }

  class CBuffer {
    const capacity: nat
    var entries: seq<Entry>
    var hand: nat

    ghost function Tables(): set<LevelTable>
      reads this
    {
      TablesOf(entries)
    }

    /** Keys ascend, the set fits, and the hand points into a non-empty set. */
    ghost predicate Ordered()
      reads this
    {
      && capacity > 0 && |entries| <= capacity && Ascending(entries)
      && (entries != [] ==> hand < |entries|)
    }

    ghost predicate Valid()
      reads this, Tables()
    {
      && Ordered()
      && forall t | t in Tables() :: t.Valid() && !t.compressed
    }

    constructor (size: nat)
      requires size > 0
      ensures Valid() && entries == [] && capacity == size
    {
      capacity := size;
      entries := [];
      hand := 0;
    }

    method AdvanceClockHand()
      requires hand < |entries|
      modifies `hand
      ensures hand == Around(old(hand), 1, |entries|)
    {
      hand := hand + 1;
      if hand == |entries| {
        hand := 0;
      }
    }

    /** The first clear entry in clock order, or the one under the hand when all
        bits are set; the bits passed on the way are cleared and the hand ends
        just behind the victim. */
    method GetVictim() returns (victim: nat)
      requires Ordered() && entries != []
      modifies this
      ensures Ordered() && Tables() == old(Tables()) && |entries| == |old(entries)|
      ensures var d := ToClear(old(entries), old(hand), 0);
              entries == Cleared(old(entries), old(hand), d)
              && victim == VictimAt(old(entries), old(hand))
      ensures hand == Around(victim, 1, |entries|)
    {
      ghost var was, h, n := entries, hand, |entries|;
      ghost var d := ToClear(was, h, 0);
      ghost var j := 0;
      assert entries == Cleared(was, h, 0);
      while entries[hand].r
        invariant j <= d && |entries| == n && entries == Cleared(was, h, j)
        invariant hand == Around(h, if j == n then 0 else j, n)
        decreases n - j
      {
        assert j < n && j < d by {
          ClearOne(was, h, if j == n then 0 else j);
        }
        ClearOne(was, h, j);
        entries := entries[hand := entries[hand].(r := false)];
        AdvanceClockHand();
        j := j + 1;
      }
      assert j == d by {
        if j < d {
          ClearOne(was, h, j);
        }
      }
      SameTables(was, entries);
      victim := hand;
      AdvanceClockHand();
    }

    /** The new entry starts with its bit set; the hand stays with its entry. */
    method AddToBuffer(table: LevelTable)
      requires Valid() && |entries| < capacity
      requires table.Valid() && !table.compressed
      requires forall t | t in Tables() :: t.addr != table.addr
      modifies this
      ensures Valid() && Tables() == old(Tables()) + {table}
      ensures |entries| == |old(entries)| + 1
      ensures old(entries) != [] ==> entries[hand] == old(entries)[old(hand)]
      ensures exists at: nat :: at <= |old(entries)|
                                && entries == old(entries)[..at] + [Entry(table, true)] + old(entries)[at..]
    {
      var at := 0;
      while at < |entries| && entries[at].table.addr < table.addr
        invariant 0 <= at <= |entries|
        invariant forall i | 0 <= i < at :: entries[i].table.addr < table.addr
      {
        at := at + 1;
      }
      assert at < |entries| ==> entries[at].table in Tables();
      Insert(at, Entry(table, true));
    }

    /** An entry is put in its place; the hand stays on its own. */
    method Insert(at: nat, e: Entry)
      requires Ordered() && |entries| < capacity && at <= |entries|
      requires forall i | 0 <= i < at :: entries[i].table.addr < e.table.addr
      requires at < |entries| ==> e.table.addr < entries[at].table.addr
      modifies this
      ensures Ordered() && Tables() == old(Tables()) + {e.table}
      ensures entries == old(entries)[..at] + [e] + old(entries)[at..]
      ensures old(entries) != [] ==> entries[hand] == old(entries)[old(hand)]
    {
      Inserted(entries, at, e);
      entries := entries[..at] + [e] + entries[at..];
      if |entries| == 1 {
        hand := 0;
      } else if at <= hand {
        hand := hand + 1;
      }
    }

    /** Compresses the clock's victim and drops it from the active set: the first
        entry from the hand on whose bit is clear, or the one under the hand if
        all are set.  Bits that the hand has passed are clear, the others as they
        were, and the hand goes on behind the victim. */
    method EvictFromBuffer() returns (victim: LevelTable)
      requires Valid() && entries != []
      modifies this, Tables()
      ensures victim in old(Tables()) && Tables() == old(Tables()) - {victim}
      ensures Valid() && victim.Valid() && victim.compressed && |entries| == |old(entries)| - 1
      ensures forall t | t in old(Tables()) :: t.versions == old(t.versions) && t.contents == old(t.contents)
      ensures var n := |old(entries)|;
              var d := ToClear(old(entries), old(hand), 0);
              var k := VictimAt(old(entries), old(hand));
              && victim == old(entries)[k].table
              && entries == Cleared(old(entries), old(hand), d)[..k] + Cleared(old(entries), old(hand), d)[k + 1..]
              && (n > 1 ==> hand < |entries| && entries[hand].table == old(entries)[Around(k, 1, n)].table)
    {
      hide Ascending;
      var k := GetVictim();
      victim := entries[k].table;
      assert victim in Tables();
      victim.Compress();
      Drop(k);
    }

    /** An entry leaves; the hand, which is just behind it, stays on its own. */
    method Drop(k: nat)
      requires Ordered() && k < |entries| && hand == Around(k, 1, |entries|)
      modifies this
      ensures Ordered() && Tables() == old(Tables()) - {old(entries)[k].table}
      ensures entries == old(entries)[..k] + old(entries)[k + 1..]
      ensures entries != [] ==> hand < |entries| && entries[hand] == old(entries)[old(hand)]
    {
      Erased(entries, k);
      entries := entries[..k] + entries[k + 1..];
      if hand > k {
        hand := hand - 1;
      }
    }

    /** What stays active when a table is to be added: all if there is room, else
        all but the clock's victim. */
    ghost function Kept(was: seq<Entry>, at: nat): set<LevelTable>
      requires capacity > 0 && (|was| >= capacity ==> at < |was|)
    {
      if |was| < capacity then TablesOf(was) else TablesOf(was) - {was[VictimAt(was, at)].table}
    }

    method AddTable(table: LevelTable)
      requires Valid() && table.Valid() && !table.compressed
      requires forall t | t in Tables() :: t.addr != table.addr
      modifies this, Tables()
      ensures Valid() && table in Tables() && table.Valid() && !table.compressed
      ensures Tables() == Kept(old(entries), old(hand)) + {table}
      ensures forall t | t in old(Tables()) :: t.Valid() && (t.compressed <==> t !in Tables())
      ensures forall t | t in old(Tables()) :: t.versions == old(t.versions) && t.contents == old(t.contents)
    {
      if |entries| >= capacity {
        var victim := EvictFromBuffer();
      }
      AddToBuffer(table);
    }

    /** Decompresses a table and makes it active again. */
    method Decompress(table: LevelTable)
      requires Valid() && table.Valid() && table.compressed
      requires forall t | t in Tables() :: t.addr != table.addr
      modifies this, table, Tables()
      ensures Valid() && table in Tables() && table.Valid() && !table.compressed
      ensures Tables() == Kept(old(entries), old(hand)) + {table}
      ensures forall t | t in old(Tables()) :: t.Valid() && (t.compressed <==> t !in Tables())
      ensures forall t | t in old(Tables()) + {table} :: t.versions == old(t.versions) && t.contents == old(t.contents)
    {
      table.Decompress();
      AddTable(table);
    }

    /** A touched table must be active; its reference bit is set. */
    method Touch(table: LevelTable)
      requires Valid() && table in Tables()
      modifies this
      ensures Valid() && Tables() == old(Tables()) && hand == old(hand)
      ensures |entries| == |old(entries)|
      ensures forall i | 0 <= i < |entries| ::
                entries[i] == old(entries)[i].(r := old(entries)[i].r || old(entries)[i].table == table)
    {
      var i := 0;
      while entries[i].table != table
        invariant 0 <= i < |entries|
        invariant forall k | 0 <= k < i :: entries[k].table != table
        invariant exists k :: i <= k < |entries| && entries[k].table == table
        decreases |entries| - i
      {
        i := i + 1;
      }
      ghost var was := entries;
      entries := entries[i := entries[i].(r := true)];
      SameTables(was, entries);
      assert forall k | 0 <= k < |was| && k != i :: was[k].table.addr != was[i].table.addr;
    }
  }
}
