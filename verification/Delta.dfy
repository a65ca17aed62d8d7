/** Delta coding of one page of timestamps (runtime/src/LevelTable.cpp). */
module Delta {
  import opened Lzo

  const WORD := 0x1_0000_0000_0000_0000

  /** Nesting levels a level table has room for. */
  const MAX_LEVEL := 64

  /** A version for every level. */
  type Versions = v: seq<nat> | |v| == MAX_LEVEL witness seq(64, _ => 0)

  /** A 64-bit timestamp; subtraction and addition wrap. */
  type Time = t: int | 0 <= t < 0x1_0000_0000_0000_0000

  function Sub(a: Time, b: Time): Time {
    if a >= b then a - b else a - b + WORD
  }

  function Add(a: Time, b: Time): Time {
    if a + b < WORD then a + b else a + b - WORD
  }

  /** Every element minus its predecessor. */
  function Diffed(s: seq<Time>): (r: seq<Time>)
    ensures |r| == |s|
  {
    seq(|s|, i requires 0 <= i < |s| => if i == 0 then s[0] else Sub(s[i], s[i - 1]))
  }

  /** Running sums. */
  function Restored(s: seq<Time>): (r: seq<Time>)
    ensures |r| == |s|
  {
    if s == [] then []
    else
      var p := Restored(s[..|s| - 1]);
      p + [if p == [] then s[0] else Add(s[|s| - 1], p[|p| - 1])]
  }

  lemma {:induction false} RestoredDiffed(s: seq<Time>)
    ensures Restored(Diffed(s)) == s
  {
    hide Diffed, Add, Sub;
    if s != [] {
      var n := |s| - 1;
      RestoredDiffed(s[..n]);
      DiffedLast(s);
      assert s == s[..n] + [s[n]];
    }
  }

  lemma DiffedLast(s: seq<Time>)
    requires s != []
    ensures var n := |s| - 1;
            && Diffed(s)[..n] == Diffed(s[..n])
            && (n == 0 ==> Diffed(s)[0] == s[0])
            && (n > 0 ==> Add(Diffed(s)[n], s[n - 1]) == s[n])
  {
  }

  /** Level-by-level difference: the shallower level minus the deeper one. */
  function Minus(a: seq<Time>, b: seq<Time>): (r: seq<Time>)
    requires |a| == |b|
    ensures |r| == |a|
  {
    seq(|a|, i requires 0 <= i < |a| => Sub(a[i], b[i]))
  }

  lemma MinusMinus(a: seq<Time>, b: seq<Time>)
    requires |a| == |b|
    ensures Minus(a, Minus(a, b)) == b
  {
  }

  // ------------------------------------------------- timestamps as bytes

  function WordBytes(t: nat, k: nat): (r: seq<byte>)
    ensures |r| == k
  {
    if k == 0 then [] else [t % 256] + WordBytes(t / 256, k - 1)
  }

  /** The lowest byte comes first. */
  lemma {:induction false} ByteAt(t: nat, k: nat, j: nat)
    requires j < k
    ensures WordBytes(t, k)[j] == ByteOf(t, j)
    decreases k
  {
    if j > 0 {
      ByteAt(t / 256, k - 1, j - 1);
    }
  }

  /** Byte `j` of a number, counted from the lowest. */
  function ByteOf(t: nat, j: nat): nat
    decreases j
  {
    if j == 0 then t % 256 else ByteOf(t / 256, j - 1)
  }

  function BytesWord(b: seq<byte>): nat {
    if b == [] then 0
    else
      var low: nat := b[0];
      low + 256 * BytesWord(b[1..])
  }

  function Pow256(k: nat): nat {
    if k == 0 then 1 else 256 * Pow256(k - 1)
  }

  lemma {:induction false} WordRoundTrip(t: nat, k: nat)
    requires t < Pow256(k)
    ensures BytesWord(WordBytes(t, k)) == t
    decreases k
  {
    if k > 0 {
      WordRoundTrip(t / 256, k - 1);
      assert WordBytes(t, k)[1..] == WordBytes(t / 256, k - 1);
    }
  }

  function ToBytes(s: seq<Time>): (r: seq<byte>)
    ensures |r| == 8 * |s|
  {
    if s == [] then [] else WordBytes(s[0], 8) + ToBytes(s[1..])
  }

  function FromBytes(b: seq<byte>): (r: seq<Time>)
    requires |b| % 8 == 0
    ensures |r| == |b| / 8
  {
    if b == [] then []
    else [BytesWord(b[..8]) % WORD] + FromBytes(b[8..])
  }

  lemma {:induction false} BytesRoundTrip(s: seq<Time>)
    ensures FromBytes(ToBytes(s)) == s
  {
    if s != [] {
      var b := ToBytes(s);
      assert b[..8] == WordBytes(s[0], 8) && b[8..] == ToBytes(s[1..]);
      assert Pow256(8) == WORD by {
        assert Pow256(4) == 0x1_0000_0000;
        assert Pow256(6) == 0x1_0000_0000_0000;
      }
      WordRoundTrip(s[0], 8);
      BytesRoundTrip(s[1..]);
      assert s == [s[0]] + s[1..];
    }
  }

  // ------------------------------------------------------ in-place loops

  /** makeDiff: the loop runs downwards so that it reads old predecessors. */
  method MakeDiff(a: array<Time>)
    requires a.Length > 0
    modifies a
    ensures a[..] == Diffed(old(a[..]))
  {
    hide Sub;
    ghost var was := a[..];
    var i := a.Length - 1;
    while i >= 1
      invariant 0 <= i < a.Length
      invariant forall k | 0 <= k <= i :: a[k] == was[k]
      invariant forall k | i < k < a.Length :: a[k] == Sub(was[k], was[k - 1])
    {
      a[i] := Sub(a[i], a[i - 1]);
      i := i - 1;
    }
    forall k | 0 <= k < a.Length ensures a[..][k] == Diffed(was)[k] {
    }
    assert a[..] == Diffed(was);
  }

  /** restoreDiff: the loop runs upwards so that it reads new predecessors. */
  method RestoreDiff(a: array<Time>)
    requires a.Length > 0
    modifies a
    ensures a[..] == Restored(old(a[..]))
  {
    ghost var sums := Restored(a[..]);
    RestoredAt(a[..], 0);
    var i := 1;
    while i < a.Length
      invariant 1 <= i <= a.Length
      invariant forall k | 0 <= k < i :: a[k] == sums[k]
      invariant forall k | i <= k < a.Length :: a[k] == old(a[k])
    {
      RestoredAt(old(a[..]), i);
      a[i] := Add(a[i], a[i - 1]);
      i := i + 1;
    }
    assert a[..] == sums;
  }

  /** A running sum adds an element to the sum before it. */
  lemma {:induction false} RestoredAt(s: seq<Time>, i: nat)
    requires i < |s|
    ensures Restored(s)[i] == if i == 0 then s[0] else Add(s[i], Restored(s)[i - 1])
  {
    var n := |s| - 1;
    if i < n {
      RestoredAt(s[..n], i);
      assert Restored(s)[..n] == Restored(s[..n]);
    }
  }

  /** A delta-coded, compressed array of timestamps decodes to `s`. */
  ghost predicate Packs(bytes: seq<byte>, s: seq<Time>) {
    Decode(bytes) == Ok(ToBytes(Diffed(s)))
  }

  method Pack(s: seq<Time>) returns (bytes: seq<byte>)
    requires s != []
    ensures Packs(bytes, s)
  {
    var buffer := new Time[|s|](i requires 0 <= i < |s| => s[i]);
    assert buffer[..] == s;
    MakeDiff(buffer);
    bytes := Compress(ToBytes(buffer[..]));
  }

  method Unpack(bytes: seq<byte>, ghost s: seq<Time>) returns (r: seq<Time>)
    requires s != [] && Packs(bytes, s)
    ensures r == s
  {
    var d := Decompress(bytes);
    var times := FromBytes(d.data);
    BytesRoundTrip(Diffed(s));
    var buffer := new Time[|times|](i requires 0 <= i < |times| => times[i]);
    assert buffer[..] == times;
    RestoreDiff(buffer);
    RestoredDiffed(s);
    r := buffer[..];
  }
}
