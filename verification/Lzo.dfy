/** LZO1X as used by the shadow-memory compressor (runtime/src/minilzo.cpp),
    in the little-endian 64-bit configuration: a deterministic dictionary of
    16-bit positions and an end-of-stream marker.

    Bytes are integers below 256.  The source builds a byte by or-ing fields
    that do not overlap; here those are sums. */
module Lzo {

  type byte = b: int | 0 <= b < 256

  /** What the decompressor reports.  `Overrun` and `LookBehind` stand for the
      reads outside a buffer that the unchecked source does not test for. */
  datatype Result =
    | Ok(data: seq<byte>)
    | InputNotConsumed(data: seq<byte>)
    | Overrun
    | LookBehind

  // ---------------------------------------------------------------- decoder

  datatype Length = Length(n: nat, rest: seq<byte>) | Cut

  /** A length that did not fit in its instruction byte: each zero byte adds
      255, the first non-zero byte ends the run. */
  function ReadLong(inp: seq<byte>, n: nat): (r: Length)
    ensures r.Length? ==> |r.rest| < |inp|
  {
    if inp == [] then Cut
    else if inp[0] == 0 then ReadLong(inp[1..], n + 255)
    else Length(n + inp[0], inp[1..])
  }

  function ReadLength(short: nat, base: nat, inp: seq<byte>): (r: Length)
    ensures r.Length? ==> |r.rest| <= |inp|
  {
    if short == 0 then ReadLong(inp, base) else Length(short, inp)
  }

  /** `len` bytes copied one at a time from `off` bytes back; the source and
      the destination may overlap. */
  function Copy(out: seq<byte>, off: nat, len: nat): (r: seq<byte>)
    requires 0 < off <= |out|
    ensures |r| == |out| + len
    decreases len
  {
    if len == 0 then out else Copy(out + [out[|out| - off]], off, len - 1)
  }

  function CopyThen(state: nat, inp: seq<byte>, out: seq<byte>, off: nat, len: nat): (r: Result)
    requires 0 < off && state < 4
    decreases |inp|, 3
  {
    if off > |out| then LookBehind else MatchDone(state, inp, Copy(out, off, len))
  }

  /** The main loop's head: a literal run or a match. */
  function Top(inp: seq<byte>, out: seq<byte>): Result
    decreases |inp|, 1
  {
    if inp == [] then Overrun
    else if inp[0] >= 16 then Match(inp[0], inp[1..], out)
    else
      match ReadLength(inp[0], 15, inp[1..])
      case Cut => Overrun
      case Length(n, rest) =>
        if |rest| < n + 3 then Overrun
        else FirstLiteralRun(rest[n + 3..], out + rest[..n + 3])
  }

  /** Right after a literal run a small instruction byte means a three-byte
      match beyond the M2 window. */
  function FirstLiteralRun(inp: seq<byte>, out: seq<byte>): Result
    decreases |inp|, 1
  {
    if inp == [] then Overrun
    else if inp[0] >= 16 then Match(inp[0], inp[1..], out)
    else if |inp| < 2 then Overrun
    else
      var lo: nat, hi: nat := inp[0], inp[1];
      CopyThen(lo % 4, inp[2..], out, 1 + 0x800 + lo / 4 + 4 * hi, 3)
  }

  datatype Instr =
    | Copying(state: nat, rest: seq<byte>, off: nat, len: nat)
    | EndOfStream(left: nat)
    | Truncated

  /** The four match forms, told apart by the instruction byte `t`. */
  function ParseMatch(t: nat, inp: seq<byte>): (r: Instr)
    ensures r.Copying? ==> r.state < 4 && 0 < r.off && |r.rest| < |inp|
  {
    if t >= 64 then
      if inp == [] then Truncated
      else
        var hi: nat := inp[0];
        Copying(t % 4, inp[1..], 1 + t / 4 % 8 + 8 * hi, t / 32 + 1)
    else if t >= 32 then
      match ReadLength(t % 32, 31, inp)
      case Cut => Truncated
      case Length(n, rest) =>
        if |rest| < 2 then Truncated
        else
          var lo: nat, hi: nat := rest[0], rest[1];
          Copying(lo % 4, rest[2..], 1 + lo / 4 + 64 * hi, n + 2)
    else if t >= 16 then
      match ReadLength(t % 8, 7, inp)
      case Cut => Truncated
      case Length(n, rest) =>
        if |rest| < 2 then Truncated
        else
          var lo: nat, hi: nat := rest[0], rest[1];
          var off := t / 8 % 2 * 0x4000 + lo / 4 + 64 * hi;
          if off == 0 then EndOfStream(|rest| - 2)
          else Copying(lo % 4, rest[2..], off + 0x4000, n + 2)
    else
      if inp == [] then Truncated
      else
        var hi: nat := inp[0];
        Copying(t % 4, inp[1..], 1 + t / 4 + 4 * hi, 2)
  }

  function Match(t: nat, inp: seq<byte>, out: seq<byte>): Result
    decreases |inp|, 4
  {
    match ParseMatch(t, inp)
    case Truncated => Overrun
    case EndOfStream(left) => if left == 0 then Ok(out) else InputNotConsumed(out)
    case Copying(state, rest, off, len) => CopyThen(state, rest, out, off, len)
  }

  /** After a match: `state` literals packed behind it, then the next
      instruction is a match; with none, back to the main loop's head. */
  function MatchDone(state: nat, inp: seq<byte>, out: seq<byte>): Result
    requires state < 4
    decreases |inp|, 2
  {
    if state == 0 then Top(inp, out)
    else if |inp| < state + 1 then Overrun
    else Match(inp[state], inp[state + 1..], out + inp[..state])
  }

  /** A first byte above 17 is a literal run of its own. */
  function Decode(inp: seq<byte>): Result {
    if inp == [] then Overrun
    else if inp[0] <= 17 then Top(inp, [])
    else
      var t := inp[0] - 17;
      if t < 4 then MatchDone(t, inp[1..], [])
      else if |inp| < t + 1 then Overrun
      else FirstLiteralRun(inp[t + 1..], inp[1..t + 1])
  }

  // ---------------------------------------------------------------- encoder

  /** A length of at least one in the zero-run form. */
  function LongBytes(n: nat): (r: seq<byte>)
    requires n > 0
    ensures r != []
  {
    if n > 255 then [0] + LongBytes(n - 255) else [n]
  }

  /** Header of a run of four or more literals. */
  function RunHeader(n: nat): (r: seq<byte>)
    requires n >= 4
    ensures r != [] && r[0] < 16
  {
    if n <= 18 then [n - 3] else [0] + LongBytes(n - 18)
  }

  function MatchHead(len: nat, off: nat): (r: seq<byte>)
    requires 4 <= len && 0 < off <= 0xbfff
  {
    if len <= 8 && off <= 0x800 then []
    else if off <= 0x4000 then
      if len <= 33 then [32 + (len - 2)] else [32] + LongBytes(len - 33)
    else
      var high := (off - 0x4000) / 0x4000 * 8;
      if len <= 9 then [16 + high + (len - 2)] else [16 + high] + LongBytes(len - 9)
  }

  /** The last two bytes of a match; `state` goes into the free low bits. */
  function MatchTail(len: nat, off: nat, state: nat): (r: seq<byte>)
    requires 4 <= len && 0 < off <= 0xbfff && state < 4
    ensures |r| == 2 && r[0] % 4 == state
  {
    if len <= 8 && off <= 0x800 then
      [(len - 1) * 32 + (off - 1) % 8 * 4 + state, (off - 1) / 8]
    else
      var o := if off <= 0x4000 then off - 1 else off - 0x4000;
      [o % 64 * 4 + state, o / 64 % 256]
  }

  /** `o` with `s` or-ed into its last byte but one, followed by `rest`. */
  function Patched(o: seq<byte>, s: nat, rest: seq<byte>): (r: seq<byte>)
    requires |o| >= 2 && s < 4 && o[|o| - 2] % 4 == 0
  {
    o[..|o| - 2] + [o[|o| - 2] + s, o[|o| - 1]] + rest
  }

  /** `o` ends in a match with free low bits, and decoding it has produced `d`
      whatever follows. */
  ghost predicate Ready(o: seq<byte>, d: seq<byte>) {
    && |o| >= 2 && o[|o| - 2] % 4 == 0
    && forall s: nat, rest: seq<byte> | s < 4 :: Decode(Patched(o, s, rest)) == MatchDone(s, rest, d)
  }

  /** Output after appending literals: packed into the previous match when
      there are at most three. */
  function WithLiterals(o: seq<byte>, lits: seq<byte>): seq<byte>
    requires |lits| >= 4 || (|o| >= 2 && o[|o| - 2] % 4 == 0)
  {
    if |lits| >= 4 then o + RunHeader(|lits|) + lits else Patched(o, |lits|, lits)
  }

  // ------------------------------------------------- one instruction decodes

  lemma {:induction false} LongRoundTrip(n: nat, base: nat, rest: seq<byte>)
    requires n > 0
    ensures ReadLong(LongBytes(n) + rest, base) == Length(base + n, rest)
    decreases n
  {
    var all := LongBytes(n) + rest;
    if n > 255 {
      LongRoundTrip(n - 255, base + 255, rest);
      assert all[1..] == LongBytes(n - 255) + rest;
    } else {
      assert all[1..] == rest;
    }
  }

  lemma RunDecodes(lits: seq<byte>, rest: seq<byte>, d: seq<byte>)
    requires |lits| >= 4
    ensures Top(RunHeader(|lits|) + lits + rest, d) == FirstLiteralRun(rest, d + lits)
  {
    hide RunHeader, ReadLength, FirstLiteralRun;
    var n := |lits|;
    HeaderRead(n, lits + rest);
    assert RunHeader(n) + lits + rest == RunHeader(n) + (lits + rest);
    assert (lits + rest)[..n] == lits && (lits + rest)[n..] == rest;
  }

  /** The length of a run, read back. */
  lemma HeaderRead(n: nat, tail: seq<byte>)
    requires n >= 4
    ensures var all := RunHeader(n) + tail;
            all[0] < 16 && ReadLength(all[0], 15, all[1..]) == Length(n - 3, tail)
  {
    hide LongBytes, ReadLong;
    if n > 18 {
      LongRoundTrip(n - 18, 15, tail);
    }
    Behind(RunHeader(n), tail);
  }

  /** What follows the first byte. */
  lemma Behind(m: seq<byte>, rest: seq<byte>)
    requires m != []
    ensures (m + rest)[0] == m[0] && (m + rest)[1..] == m[1..] + rest
  {
  }

  /** The fields packed in a two-byte match come apart again. */
  lemma M2Fields(len: nat, off: nat, s: nat)
    requires 4 <= len <= 8 && 0 < off <= 0x800 && s < 4
    ensures var t := (len - 1) * 32 + (off - 1) % 8 * 4 + s;
            t % 4 == s && t / 4 % 8 == (off - 1) % 8 && t / 32 == len - 1
  {
    var x := (off - 1) % 8;
    var t := (len - 1) * 32 + x * 4 + s;
    assert t == 4 * ((len - 1) * 8 + x) + s;
  }

  /** Fourteen offset bits over two bytes, the fifteenth in the marker. */
  lemma WideFields(o: nat, s: nat)
    requires o < 0x8000 && s < 4
    ensures (o % 64 * 4 + s) % 4 == s && (o % 64 * 4 + s) / 4 == o % 64
    ensures o == o / 0x4000 * 0x4000 + o / 64 % 256 * 64 + o % 64 && o / 0x4000 <= 1
  {
  }

  lemma M2Parses(len: nat, off: nat, s: nat, rest: seq<byte>)
    requires 4 <= len <= 8 && 0 < off <= 0x800 && s < 4
    ensures var m := MatchTail(len, off, s);
            m[0] >= 64 && ParseMatch(m[0], m[1..] + rest) == Copying(s, rest, off, len)
  {
    M2Fields(len, off, s);
    var m := MatchTail(len, off, s);
    assert (m[1..] + rest)[1..] == rest;
  }

  /** The two wide forms share their length and offset fields. */
  lemma WideParses(len: nat, off: nat, s: nat, rest: seq<byte>, short: nat, cap: nat)
    requires 4 <= len && 0 < off <= 0xbfff && s < 4 && !(len <= 8 && off <= 0x800)
    requires cap >= 4 && short == if len <= cap then len - 2 else 0
    ensures var long := if len <= cap then [] else LongBytes(len - cap);
            var more := MatchTail(len, off, s) + rest;
            ReadLength(short, cap - 2, long + more) == Length(len - 2, more) && more[2..] == rest
  {
    var more := MatchTail(len, off, s) + rest;
    assert more[2..] == rest;
    if len <= cap {
      assert [] + more == more;
    } else {
      LongRoundTrip(len - cap, cap - 2, more);
    }
  }

  /** The form with a five-bit length field. */
  lemma ParseM3(t: nat, inp: seq<byte>, n: nat, tail: seq<byte>)
    requires 32 <= t < 64 && ReadLength(t % 32, 31, inp) == Length(n, tail) && |tail| >= 2
    ensures var lo: nat, hi: nat := tail[0], tail[1];
            ParseMatch(t, inp) == Copying(lo % 4, tail[2..], 1 + lo / 4 + 64 * hi, n + 2)
  {
    hide ReadLength;
  }

  /** The form with a three-bit length field and one offset bit. */
  lemma ParseM4(t: nat, inp: seq<byte>, n: nat, tail: seq<byte>)
    requires 16 <= t < 32 && ReadLength(t % 8, 7, inp) == Length(n, tail) && |tail| >= 2
    ensures var lo: nat, hi: nat := tail[0], tail[1];
            var off := t / 8 % 2 * 0x4000 + lo / 4 + 64 * hi;
            off != 0 ==> ParseMatch(t, inp) == Copying(lo % 4, tail[2..], off + 0x4000, n + 2)
  {
    hide ReadLength;
  }

  lemma M3Tail(len: nat, off: nat, s: nat)
    requires 4 <= len && 0 < off <= 0x4000 && s < 4 && !(len <= 8 && off <= 0x800)
    ensures var m := MatchTail(len, off, s);
            var lo: nat, hi: nat := m[0], m[1];
            lo % 4 == s && 1 + lo / 4 + 64 * hi == off
  {
    WideFields(off - 1, s);
  }

  lemma M4Tail(len: nat, off: nat, s: nat)
    requires 4 <= len && 0x4000 < off <= 0xbfff && s < 4
    ensures var m := MatchTail(len, off, s);
            var lo: nat, hi: nat := m[0], m[1];
            lo % 4 == s && (off - 0x4000) / 0x4000 * 0x4000 + lo / 4 + 64 * hi == off - 0x4000
  {
    WideFields(off - 0x4000, s);
  }

  /** The marker byte of a match of the first wide form. */
  lemma M3Head(len: nat, off: nat)
    requires 4 <= len && 0 < off <= 0x4000 && !(len <= 8 && off <= 0x800)
    ensures var t: nat := MatchHead(len, off)[0];
            && 32 <= t < 64 && t % 32 == (if len <= 33 then len - 2 else 0)
            && MatchHead(len, off) == [MatchHead(len, off)[0]] + if len <= 33 then [] else LongBytes(len - 33)
  {
    hide LongBytes;
  }

  lemma M4Head(len: nat, off: nat)
    requires 4 <= len && 0x4000 < off <= 0xbfff
    ensures var t: nat := MatchHead(len, off)[0];
            && 16 <= t < 32 && t % 8 == (if len <= 9 then len - 2 else 0) && t / 8 % 2 == (off - 0x4000) / 0x4000
            && MatchHead(len, off) == [MatchHead(len, off)[0]] + if len <= 9 then [] else LongBytes(len - 9)
  {
    hide LongBytes;
    var bit := (off - 0x4000) / 0x4000;
    assert bit <= 1;
    var low := if len <= 9 then len - 2 else 0;
    var t: nat := MatchHead(len, off)[0];
    assert t == 16 + bit * 8 + low;
  }

  lemma HeadBehind(head: seq<byte>, tail: seq<byte>, rest: seq<byte>)
    requires head != []
    ensures (head + tail)[0] == head[0] && (head + tail)[1..] + rest == head[1..] + (tail + rest)
  {
  }

  lemma M3Parses(len: nat, off: nat, s: nat, rest: seq<byte>)
    requires 4 <= len && 0 < off <= 0x4000 && s < 4 && !(len <= 8 && off <= 0x800)
    ensures var m := MatchHead(len, off) + MatchTail(len, off, s);
            m != [] && m[0] >= 32 && ParseMatch(m[0], m[1..] + rest) == Copying(s, rest, off, len)
  {
    hide ParseMatch, ReadLength, LongBytes, MatchTail, MatchHead;
    M3Head(len, off);
    M3Tail(len, off, s);
    var m := MatchHead(len, off) + MatchTail(len, off, s);
    var long := if len <= 33 then [] else LongBytes(len - 33);
    HeadBehind(MatchHead(len, off), MatchTail(len, off, s), rest);
    WideParses(len, off, s, rest, m[0] % 32, 33);
    ParseM3(m[0], m[1..] + rest, len - 2, MatchTail(len, off, s) + rest);
  }

  lemma M4Parses(len: nat, off: nat, s: nat, rest: seq<byte>)
    requires 4 <= len && 0x4000 < off <= 0xbfff && s < 4
    ensures var m := MatchHead(len, off) + MatchTail(len, off, s);
            m != [] && m[0] >= 16 && ParseMatch(m[0], m[1..] + rest) == Copying(s, rest, off, len)
  {
    hide ParseMatch, ReadLength, LongBytes, MatchTail, MatchHead;
    M4Head(len, off);
    M4Tail(len, off, s);
    var m := MatchHead(len, off) + MatchTail(len, off, s);
    var long := if len <= 9 then [] else LongBytes(len - 9);
    HeadBehind(MatchHead(len, off), MatchTail(len, off, s), rest);
    WideParses(len, off, s, rest, m[0] % 8, 9);
    ParseM4(m[0], m[1..] + rest, len - 2, MatchTail(len, off, s) + rest);
  }

  /** Whatever form the encoder chooses for a match, it parses back to the same
      length and offset and to the `s` literals packed behind it. */
  lemma MatchParses(len: nat, off: nat, s: nat, rest: seq<byte>)
    requires 4 <= len && 0 < off <= 0xbfff && s < 4
    ensures var m := MatchHead(len, off) + MatchTail(len, off, s);
            m[0] >= 16 && ParseMatch(m[0], m[1..] + rest) == Copying(s, rest, off, len)
  {
    if len <= 8 && off <= 0x800 {
      M2Parses(len, off, s, rest);
      assert MatchHead(len, off) + MatchTail(len, off, s) == MatchTail(len, off, s);
    } else if off <= 0x4000 {
      M3Parses(len, off, s, rest);
    } else {
      M4Parses(len, off, s, rest);
    }
  }

  // ---------------------------------------------------------- whole streams

  const EOF_MARK: seq<byte> := [17, 0, 0]

  lemma AfterLiterals(lits: seq<byte>, x: seq<byte>, d: seq<byte>)
    requires x != [] && x[0] >= 16
    ensures |lits| < 4 ==> MatchDone(|lits|, lits + x, d) == Match(x[0], x[1..], d + lits)
    ensures |lits| >= 4 ==> Top(RunHeader(|lits|) + lits + x, d) == Match(x[0], x[1..], d + lits)
  {
    if |lits| >= 4 {
      RunDecodes(lits, x, d);
    } else if |lits| == 0 {
      assert lits + x == x && d + lits == d;
    } else {
      var all := lits + x;
      assert all[..|lits|] == lits && all[|lits| + 1..] == x[1..];
    }
  }

  lemma Associate(a: seq<byte>, b: seq<byte>, c: seq<byte>)
    ensures a + b + c == a + (b + c)
  {
  }

  lemma StartRun(lits: seq<byte>, x: seq<byte>)
    requires |lits| >= 4
    ensures Decode(RunHeader(|lits|) + lits + x) == Top(RunHeader(|lits|) + lits + x, [])
  {
  }

  lemma Continue(o: seq<byte>, d: seq<byte>, s: nat, rest: seq<byte>)
    requires Ready(o, d) && s < 4
    ensures Decode(Patched(o, s, rest)) == MatchDone(s, rest, d)
  {
  }

  lemma LiteralsShape(o: seq<byte>, lits: seq<byte>, x: seq<byte>)
    requires |o| >= 2 && o[|o| - 2] % 4 == 0
    ensures |lits| >= 4 ==> WithLiterals(o, lits) + x == Patched(o, 0, RunHeader(|lits|) + lits + x)
    ensures |lits| < 4 ==> WithLiterals(o, lits) + x == Patched(o, |lits|, lits + x)
  {
    var n := |o|;
    if |lits| >= 4 {
      var h := RunHeader(|lits|);
      assert o == o[..n - 2] + [o[n - 2] + 0, o[n - 1]];
      Associate(o, h, lits);
      Associate(o, h + lits, x);
    } else {
      Associate(o[..n - 2] + [o[n - 2] + |lits|, o[n - 1]], lits, x);
    }
  }

  lemma DoneAtTop(inp: seq<byte>, d: seq<byte>)
    ensures MatchDone(0, inp, d) == Top(inp, d)
  {
  }

  lemma RunAfter(o: seq<byte>, d: seq<byte>, lits: seq<byte>, x: seq<byte>)
    requires Ready(o, d) && |lits| >= 4
    ensures Decode(WithLiterals(o, lits) + x) == Top(RunHeader(|lits|) + lits + x, d)
  {
    var y := RunHeader(|lits|) + lits + x;
    Continue(o, d, 0, y);
    DoneAtTop(y, d);
    LiteralsShape(o, lits, x);
  }

  lemma PackedAfter(o: seq<byte>, d: seq<byte>, lits: seq<byte>, x: seq<byte>)
    requires Ready(o, d) && |lits| < 4
    ensures Decode(WithLiterals(o, lits) + x) == MatchDone(|lits|, lits + x, d)
  {
    Continue(o, d, |lits|, lits + x);
    LiteralsShape(o, lits, x);
  }

  /** Output `o` that is empty or ready, before some literals and an
      instruction `x` that is not a literal run. */
  lemma LiteralsThen(o: seq<byte>, d: seq<byte>, lits: seq<byte>, x: seq<byte>)
    requires Ready(o, d) || (o == [] && d == [] && |lits| >= 4)
    requires x != [] && x[0] >= 16
    ensures Decode(WithLiterals(o, lits) + x) == Match(x[0], x[1..], d + lits)
  {
    hide Decode, Top, Match, MatchDone, RunHeader, Ready;
    AfterLiterals(lits, x, d);
    if !Ready(o, d) {
      assert WithLiterals(o, lits) + x == RunHeader(|lits|) + lits + x;
      StartRun(lits, x);
    } else if |lits| >= 4 {
      RunAfter(o, d, lits, x);
    } else {
      PackedAfter(o, d, lits, x);
    }
  }

  lemma PatchLast(head: seq<byte>, len: nat, off: nat, s: nat, rest: seq<byte>)
    requires 4 <= len && 0 < off <= 0xbfff && s < 4
    ensures Patched(head + MatchTail(len, off, 0), s, rest) == head + MatchTail(len, off, s) + rest
  {
  }

  lemma MatchStep(len: nat, off: nat, s: nat, rest: seq<byte>, d: seq<byte>)
    requires 4 <= len && 0 < off <= 0xbfff && s < 4 && off <= |d|
    ensures var x := MatchHead(len, off) + MatchTail(len, off, s) + rest;
            x[0] >= 16 && Match(x[0], x[1..], d) == MatchDone(s, rest, Copy(d, off, len))
  {
    hide MatchHead, MatchTail, MatchDone, Copy, ParseMatch;
    MatchParses(len, off, s, rest);
    Behind(MatchHead(len, off) + MatchTail(len, off, s), rest);
  }

  lemma StepDecodes(o: seq<byte>, d: seq<byte>, lits: seq<byte>, len: nat, off: nat, s: nat, rest: seq<byte>)
    requires Ready(o, d) || (o == [] && d == [] && |lits| >= 4)
    requires 4 <= len && 0 < off <= 0xbfff && off <= |d| + |lits| && s < 4
    ensures Decode(Patched(WithLiterals(o, lits) + MatchHead(len, off) + MatchTail(len, off, 0), s, rest))
         == MatchDone(s, rest, Copy(d + lits, off, len))
  {
    var x := MatchHead(len, off) + MatchTail(len, off, s) + rest;
    MatchStep(len, off, s, rest, d + lits);
    LiteralsThen(o, d, lits, x);
    PatchLast(WithLiterals(o, lits) + MatchHead(len, off), len, off, s, rest);
    Associate(MatchHead(len, off), MatchTail(len, off, s), rest);
    Associate(WithLiterals(o, lits), MatchHead(len, off), MatchTail(len, off, s) + rest);
    Associate(WithLiterals(o, lits) + MatchHead(len, off), MatchTail(len, off, s), rest);
  }

  /** Appending literals and a match keeps the output ready. */
  lemma ReadyStep(o: seq<byte>, d: seq<byte>, lits: seq<byte>, len: nat, off: nat)
    requires Ready(o, d) || (o == [] && d == [] && |lits| >= 4)
    requires 4 <= len && 0 < off <= 0xbfff && off <= |d| + |lits|
    ensures Ready(WithLiterals(o, lits) + MatchHead(len, off) + MatchTail(len, off, 0), Copy(d + lits, off, len))
  {
    forall s: nat, rest: seq<byte> | s < 4
      ensures Decode(Patched(WithLiterals(o, lits) + MatchHead(len, off) + MatchTail(len, off, 0), s, rest))
           == MatchDone(s, rest, Copy(d + lits, off, len))
    {
      StepDecodes(o, d, lits, len, off, s, rest);
    }
  }

  lemma Finish(o: seq<byte>, d: seq<byte>, lits: seq<byte>)
    requires Ready(o, d) || (o == [] && d == [] && |lits| >= 4)
    ensures Decode(WithLiterals(o, lits) + EOF_MARK) == Ok(d + lits)
  {
    LiteralsThen(o, d, lits, EOF_MARK);
    assert EOF_MARK[1..] == [0, 0];
  }

  lemma FirstByte(inp: seq<byte>, n: nat)
    requires 0 < n <= 238 && |inp| > n && inp[0] == 17 + n
    ensures Decode(inp) == if n < 4 then MatchDone(n, inp[1..], []) else FirstLiteralRun(inp[n + 1..], inp[1..n + 1])
  {
    hide Match, MatchDone, FirstLiteralRun, Top;
  }

  lemma FirstInstruction(lits: seq<byte>, x: seq<byte>)
    requires x != [] && x[0] >= 16
    ensures FirstLiteralRun(x, lits) == Match(x[0], x[1..], lits)
  {
    hide Match;
  }

  /** A first byte above 17 announces its literals. */
  lemma RunBehind(t: byte, lits: seq<byte>, x: seq<byte>)
    ensures var all := [t] + lits + x;
            all[1..|lits| + 1] == lits && all[|lits| + 1..] == x
  {
  }

  lemma ShortRun(lits: seq<byte>, x: seq<byte>)
    requires 0 < |lits| <= 238 && x != [] && x[0] >= 16
    ensures Decode([17 + |lits|] + lits + x) == Match(x[0], x[1..], lits)
  {
    hide Match, MatchDone, FirstLiteralRun, Decode, Top;
    var n := |lits|;
    var all := [17 + n] + lits + x;
    assert all == [17 + n] + (lits + x);
    Behind([17 + n], lits + x);
    FirstByte(all, n);
    if n < 4 {
      AfterLiterals(lits, x, []);
      assert [] + lits == lits;
    } else {
      RunBehind(17 + n, lits, x);
      FirstInstruction(lits, x);
    }
  }

  /** A stream that is one literal run announced by its first byte. */
  lemma FinishShort(lits: seq<byte>)
    requires |lits| <= 238
    ensures Decode((if lits == [] then [] else [17 + |lits|] + lits) + EOF_MARK) == Ok(lits)
  {
    if lits == [] {
      assert [] + EOF_MARK == EOF_MARK;
      EndsHere([]);
      FirstIsMark();
    } else {
      hide Decode, Match;
      ShortRun(lits, EOF_MARK);
      EndsHere(lits);
    }
  }

  /** The end of the stream gives what has been decoded. */
  lemma EndsHere(d: seq<byte>)
    ensures Match(EOF_MARK[0], EOF_MARK[1..], d) == Ok(d)
  {
    assert EOF_MARK[1..] == [0, 0];
  }

  lemma FirstIsMark()
    ensures Decode(EOF_MARK) == Ok([])
  {
    assert EOF_MARK[1..] == [0, 0];
  }

  /** Copying from `off` back inside `src` continues `src` as long as the two
      stretches agree, even when they overlap. */
  lemma {:induction false} CopyExtends(src: seq<byte>, i: nat, off: nat, len: nat)
    requires 0 < off <= i && i + len <= |src|
    requires src[i..i + len] == src[i - off..i - off + len]
    ensures Copy(src[..i], off, len) == src[..i + len]
    decreases len
  {
    if len > 0 {
      var a, b := src[i..i + len], src[i - off..i - off + len];
      assert a[0] == src[i] && b[0] == src[i - off];
      assert src[..i] + [src[i - off]] == src[..i + 1];
      assert src[i + 1..i + len] == a[1..] && src[i + 1 - off..i - off + len] == b[1..];
      CopyExtends(src, i + 1, off, len - 1);
    }
  }

  // ------------------------------------------------------------- compressor

  function Word(src: seq<byte>, i: nat): nat
    requires i + 4 <= |src|
  {
    var a: nat, b: nat, c: nat, d: nat := src[i], src[i + 1], src[i + 2], src[i + 3];
    a + 0x100 * b + 0x1_0000 * c + 0x100_0000 * d
  }

  lemma SameWord(src: seq<byte>, i: nat, j: nat)
    requires i + 4 <= |src| && j + 4 <= |src| && Word(src, i) == Word(src, j)
    ensures src[i..i + 4] == src[j..j + 4]
  {
    var a: nat, b: nat, c: nat, d: nat := src[i], src[i + 1], src[i + 2], src[i + 3];
    var a': nat, b': nat, c': nat, d': nat := src[j], src[j + 1], src[j + 2], src[j + 3];
    assert a == a' && b == b' && c == c' && d == d';
  }

  function Hash(word: nat): (h: nat)
    ensures h < 0x4000
  {
    0x1824_429d * word % 0x1_0000_0000 / 0x4_0000
  }

  method EmitLong(out: seq<byte>, n: nat) returns (r: seq<byte>)
    requires n > 0
    ensures r == out + LongBytes(n)
  {
    r := out;
    var tt: nat := n;
    while tt > 255
      invariant tt > 0 && r + LongBytes(tt) == out + LongBytes(n)
    {
      tt := tt - 255;
      r := r + [0];
    }
    r := r + [tt];
  }

  method EmitLiterals(out: seq<byte>, lits: seq<byte>) returns (r: seq<byte>)
    requires |lits| >= 4 || (|out| >= 2 && out[|out| - 2] % 4 == 0)
    ensures r == WithLiterals(out, lits)
  {
    var t := |lits|;
    if t <= 3 {
      r := out[|out| - 2 := out[|out| - 2] + t] + lits;
    } else if t <= 18 {
      r := out + [t - 3] + lits;
    } else {
      r := EmitLong(out + [0], t - 18);
      r := r + lits;
    }
  }

  method EmitMatch(out: seq<byte>, len: nat, off: nat) returns (r: seq<byte>)
    requires 4 <= len && 0 < off <= 0xbfff
    ensures r == out + MatchHead(len, off) + MatchTail(len, off, 0)
  {
    if len <= 8 && off <= 0x800 {
      var o := off - 1;
      r := out + [(len - 1) * 32 + o % 8 * 4] + [o / 8];
    } else {
      var o;
      r, o := EmitMarker(out, len, off);
      r := r + [o % 64 * 4] + [o / 64 % 256];
    }
  }

  /** The marker of a wide match and its length. */
  method EmitMarker(out: seq<byte>, len: nat, off: nat) returns (r: seq<byte>, o: nat)
    requires 4 <= len && 0 < off <= 0xbfff && !(len <= 8 && off <= 0x800)
    ensures r == out + MatchHead(len, off)
    ensures o == if off <= 0x4000 then off - 1 else off - 0x4000
  {
    hide LongBytes;
    if off <= 0x4000 {
      o := off - 1;
      if len <= 33 {
        r := out + [32 + (len - 2)];
      } else {
        r := EmitLong(out + [32], len - 33);
      }
    } else {
      o := off - 0x4000;
      if len <= 9 {
        r := out + [16 + o / 0x4000 * 8 + (len - 2)];
      } else {
        r := EmitLong(out + [16 + o / 0x4000 * 8], len - 9);
      }
    }
  }

  /** Two stretches of the input are the same. */
  predicate Agree(src: seq<byte>, ip: nat, mp: nat, n: nat)
    requires ip + n <= |src| && mp + n <= |src|
  {
    src[ip..ip + n] == src[mp..mp + n]
  }

  lemma AgreeIs(src: seq<byte>, ip: nat, mp: nat, n: nat)
    requires ip + n <= |src| && mp + n <= |src|
    ensures Agree(src, ip, mp, n) <==> src[ip..ip + n] == src[mp..mp + n]
  {
  }

  lemma OneMore(src: seq<byte>, ip: nat, mp: nat, n: nat)
    requires ip + n < |src| && mp + n < |src| && Agree(src, ip, mp, n) && src[ip + n] == src[mp + n]
    ensures Agree(src, ip, mp, n + 1)
  {
    assert src[ip..ip + (n + 1)] == src[ip..ip + n] + [src[ip + n]];
    assert src[mp..mp + (n + 1)] == src[mp..mp + n] + [src[mp + n]];
  }

  /** Length of the match at `ip` against `mp`, found eight bytes at a time. */
  method MatchLength(src: seq<byte>, ip: nat, mp: nat, ipEnd: nat) returns (len: nat)
    requires mp < ip < ipEnd && ipEnd + 20 <= |src|
    requires src[ip..ip + 4] == src[mp..mp + 4]
    ensures 4 <= len && ip + len < ipEnd + 12
    ensures src[ip..ip + len] == src[mp..mp + len]
    ensures ip + len >= ipEnd || src[ip + len] != src[mp + len]
  {
    hide Agree;
    len := 4;
    AgreeIs(src, ip, mp, len);
    while true
      invariant 4 <= len && (len == 4 || ip + len < ipEnd)
      invariant Agree(src, ip, mp, len)
      decreases ipEnd + 8 - ip - len
    {
      var k := 0;
      while k < 8 && src[ip + len + k] == src[mp + len + k]
        invariant 0 <= k <= 8
        invariant Agree(src, ip, mp, len + k)
      {
        OneMore(src, ip, mp, len + k);
        k := k + 1;
      }
      len := len + k;
      if k < 8 || ip + len >= ipEnd {
        AgreeIs(src, ip, mp, len);
        return;
      }
    }
  }

  /** `out` decodes to the first `k` bytes of `src` and can be continued. */
  ghost predicate Covers(out: seq<byte>, src: seq<byte>, k: nat)
    requires k <= |src|
  {
    if out == [] then k == 0 else Ready(out, src[..k])
  }

  lemma Joined(src: seq<byte>, a: nat, b: nat)
    requires a <= b <= |src|
    ensures src[..a] + src[a..b] == src[..b] && |src[a..b]| == b - a && (a == 0 ==> src[..a] == [])
  {
  }

  lemma CoversStep(src: seq<byte>, o: seq<byte>, start: nat, ip: nat, mp: nat, len: nat)
    requires start <= ip && ip + len <= |src| && mp < ip <= mp + 0xbfff && len >= 4
    requires Covers(o, src, start) && (o == [] ==> ip >= 4)
    requires src[ip..ip + len] == src[mp..mp + len]
    ensures Covers(WithLiterals(o, src[start..ip]) + MatchHead(len, ip - mp) + MatchTail(len, ip - mp, 0), src,
            ip + len)
  {
    hide Ready, MatchHead, MatchTail, WithLiterals;
    var lits := src[start..ip];
    Joined(src, start, ip);
    ReadyStep(o, src[..start], lits, len, ip - mp);
    CopyExtends(src, ip, ip - mp, len);
  }

  /** Emits the literals `src[start..ip]` and a match of `len` bytes at `mp`. */
  method EmitStep(src: seq<byte>, o: seq<byte>, start: nat, ip: nat, mp: nat, len: nat)
    returns (out: seq<byte>)
    requires start <= ip && ip + len <= |src| && mp < ip <= mp + 0xbfff && len >= 4
    requires Covers(o, src, start) && (o == [] ==> ip >= 4)
    requires src[ip..ip + len] == src[mp..mp + len]
    ensures out != [] && Covers(out, src, ip + len)
  {
    CoversStep(src, o, start, ip, mp, len);
    out := EmitLiterals(o, src[start..ip]);
    out := EmitMatch(out, len, ip - mp);
  }

  /** Dictionary entries are positions of the block before `ip`. */
  ghost predicate Earlier(dict: seq<nat>, lo: nat, ip: nat) {
    forall h | 0 <= h < |dict| :: lo + dict[h] < ip
  }

  /** Compresses `src[lo..hi]` behind `o`, with `pending` literals of earlier
      blocks still to be emitted.  The dictionary only proposes match positions;
      every proposal is checked by comparing four bytes. */
  method CompressBlock(src: seq<byte>, lo: nat, hi: nat, o: seq<byte>, pending: nat)
    returns (out: seq<byte>, left: nat)
    requires lo + 20 < hi <= |src| && hi - lo <= 49152 && pending <= lo
    requires Covers(o, src, lo - pending)
    ensures left <= hi && Covers(out, src, hi - left)
  {
    hide Covers, Word, Hash;
    var ipEnd := hi - 20;
    var dict := new nat[0x4000](_ => 0);
    out := o;
    var ti: nat, ii: nat := pending, lo;
    var ip: nat := lo + (if ti < 4 then 4 - ti else 0);
    var skip := true;
    while true
      invariant ti <= ii && lo <= ii <= ip && ii <= hi
      invariant Covers(out, src, ii - ti) && (out == [] ==> ip >= 4)
      invariant Earlier(dict[..], lo, if skip then ip + 1 else ip)
      decreases if ip < ipEnd then ipEnd - ip else 0, if skip then 0 else 1
    {
      if skip {
        ip := ip + 1 + (ip - ii) / 32;
      }
      if ip >= ipEnd {
        break;
      }
      var h := Hash(Word(src, ip));
      assert Earlier(dict[..], lo, ip) && lo + dict[..][h] < ip;
      var mp := lo + dict[h];
      dict[h] := ip - lo;
      if Word(src, ip) != Word(src, mp) {
        skip := true;
      } else {
        SameWord(src, ip, mp);
        var len := MatchLength(src, ip, mp, ipEnd);
        out := EmitStep(src, out, ii - ti, ip, mp, len);
        ip := ip + len;
        ii, ti := ip, 0;
        skip := false;
      }
    }
    left := hi - (ii - ti);
  }

  /** lzo1x_1_compress: for every byte string the decoder gives it back. */
  method Compress(src: seq<byte>) returns (out: seq<byte>)
    ensures Decode(out) == Ok(src)
  {
    out := [];
    var ip: nat, l: nat, t: nat := 0, |src|, 0;
    while l > 20
      invariant ip + l == |src| && t <= ip && Covers(out, src, ip - t)
      decreases l
    {
      var ll := if l < 49152 then l else 49152;
      if (t + ll) / 32 == 0 {
        break;
      }
      out, t := CompressBlock(src, ip, ip + ll, out, t);
      ip, l := ip + ll, l - ll;
    }
    t := t + l;
    var lits := src[|src| - t..];
    assert src[..|src| - t] + lits == src;
    if out == [] && t <= 238 {
      FinishShort(src);
      if t > 0 {
        out := [17 + t] + lits;
      }
    } else {
      assert out == [] ==> src[..|src| - t] == [];
      Finish(out, src[..|src| - t], lits);
      if t > 0 {
        out := EmitLiterals(out, lits);
      } else {
        assert WithLiterals(out, lits) == out;
      }
    }
    out := out + EOF_MARK;
  }

  // ----------------------------------------------------------- decompressor

  /** Where the decompressor's jumps can land. */
  datatype Phase = AtTop | AtFirstRun | AtMatch(t: nat) | AtDone(state: nat)

  ghost function Resume(p: Phase, inp: seq<byte>, out: seq<byte>): Result
    requires p.AtDone? ==> p.state < 4
  {
    match p
    case AtTop => Top(inp, out)
    case AtFirstRun => FirstLiteralRun(inp, out)
    case AtMatch(t) => Match(t, inp, out)
    case AtDone(state) => MatchDone(state, inp, out)
  }

  method ReadLengthAt(src: seq<byte>, at: nat, short: nat, base: nat) returns (ok: bool, n: nat, ip: nat)
    requires at <= |src|
    ensures ok == ReadLength(short, base, src[at..]).Length?
    ensures ok ==> at <= ip <= |src| && ReadLength(short, base, src[at..]) == Length(n, src[ip..])
  {
    n, ip, ok := short, at, true;
    if short == 0 {
      n := base;
      while ip < |src| && src[ip] == 0
        invariant at <= ip <= |src|
        invariant ReadLong(src[ip..], n) == ReadLong(src[at..], base)
      {
        assert src[ip..][1..] == src[ip + 1..];
        n, ip := n + 255, ip + 1;
      }
      if ip == |src| {
        ok := false;
      } else {
        assert src[ip..][1..] == src[ip + 1..];
        n, ip := n + src[ip], ip + 1;
      }
    }
  }

  method CopyBack(out: seq<byte>, off: nat, len: nat) returns (r: seq<byte>)
    requires 0 < off <= |out|
    ensures r == Copy(out, off, len)
  {
    r := out;
    var t := len;
    while t > 0
      invariant t >= 0 && |r| >= |out| && Copy(r, off, t) == Copy(out, off, len)
    {
      r := r + [r[|r| - off]];
      t := t - 1;
    }
  }

  method ParseMatchAt(src: seq<byte>, at: nat, t: nat) returns (r: Instr, ip: nat)
    requires at <= |src|
    ensures r == ParseMatch(t, src[at..])
    ensures r.Copying? ==> at < ip <= |src| && r.rest == src[ip..]
  {
    ip := at;
    if t >= 64 || t < 16 {
      if at == |src| {
        return Truncated, ip;
      }
      ip := at + 1;
      var hi: nat := src[at];
      if t >= 64 {
        r := Copying(t % 4, src[ip..], 1 + t / 4 % 8 + 8 * hi, t / 32 + 1);
      } else {
        r := Copying(t % 4, src[ip..], 1 + t / 4 + 4 * hi, 2);
      }
    } else {
      var ok, n;
      if t >= 32 {
        ok, n, ip := ReadLengthAt(src, at, t % 32, 31);
      } else {
        ok, n, ip := ReadLengthAt(src, at, t % 8, 7);
      }
      if !ok || |src| - ip < 2 {
        return Truncated, ip;
      }
      var lo: nat, hi: nat := src[ip], src[ip + 1];
      var off := lo / 4 + 64 * hi;
      ip := ip + 2;
      if t >= 32 {
        r := Copying(lo % 4, src[ip..], 1 + off, n + 2);
      } else {
        off := off + t / 8 % 2 * 0x4000;
        if off == 0 {
          r := EndOfStream(|src| - ip);
        } else {
          r := Copying(lo % 4, src[ip..], off + 0x4000, n + 2);
        }
      }
    }
  }

  /** One jump of the decompressor: either the result, or where to go on. */
  datatype Jump = Stop(r: Result) | Go(p: Phase, ip: nat, out: seq<byte>)

  ghost function Outcome(j: Jump, src: seq<byte>): Result
    requires j.Go? ==> j.ip <= |src| && (j.p.AtDone? ==> j.p.state < 4)
  {
    match j
    case Stop(r) => r
    case Go(p, ip, out) => Resume(p, src[ip..], out)
  }

  method JumpTop(src: seq<byte>, ip: nat, out: seq<byte>) returns (j: Jump)
    requires ip <= |src|
    ensures j.Go? ==> ip < j.ip <= |src| && !j.p.AtDone?
    ensures Outcome(j, src) == Top(src[ip..], out)
  {
    if ip == |src| {
      return Stop(Overrun);
    }
    var t: nat := src[ip];
    assert src[ip..][1..] == src[ip + 1..];
    if t >= 16 {
      return Go(AtMatch(t), ip + 1, out);
    }
    var ok, n, at := ReadLengthAt(src, ip + 1, t, 15);
    if !ok || |src| - at < n + 3 {
      return Stop(Overrun);
    }
    assert src[at..][..n + 3] == src[at..at + n + 3] && src[at..][n + 3..] == src[at + n + 3..];
    return Go(AtFirstRun, at + n + 3, out + src[at..at + n + 3]);
  }

  method JumpFirstRun(src: seq<byte>, ip: nat, out: seq<byte>) returns (j: Jump)
    requires ip <= |src|
    ensures j.Go? ==> ip < j.ip <= |src| && (j.p.AtDone? ==> j.p.state < 4)
    ensures Outcome(j, src) == FirstLiteralRun(src[ip..], out)
  {
    if ip == |src| {
      return Stop(Overrun);
    }
    var t: nat := src[ip];
    assert src[ip..][1..] == src[ip + 1..];
    if t >= 16 {
      return Go(AtMatch(t), ip + 1, out);
    }
    if |src| - ip < 2 {
      return Stop(Overrun);
    }
    var hi: nat := src[ip + 1];
    var off := 1 + 0x800 + t / 4 + 4 * hi;
    if off > |out| {
      return Stop(LookBehind);
    }
    assert src[ip..][2..] == src[ip + 2..];
    var more := CopyBack(out, off, 3);
    return Go(AtDone(t % 4), ip + 2, more);
  }

  method JumpMatch(src: seq<byte>, ip: nat, out: seq<byte>, t: nat) returns (j: Jump)
    requires ip <= |src|
    ensures j.Go? ==> ip < j.ip <= |src| && (j.p.AtDone? ==> j.p.state < 4)
    ensures Outcome(j, src) == Match(t, src[ip..], out)
  {
    var i, at := ParseMatchAt(src, ip, t);
    match i {
      case Truncated => return Stop(Overrun);
      case EndOfStream(left) => return Stop(if left == 0 then Ok(out) else InputNotConsumed(out));
      case Copying(state, rest, off, len) =>
        if off > |out| {
          return Stop(LookBehind);
        }
        var more := CopyBack(out, off, len);
        return Go(AtDone(state), at, more);
    }
  }

  method JumpDone(src: seq<byte>, ip: nat, out: seq<byte>, state: nat) returns (j: Jump)
    requires ip <= |src| && state < 4
    ensures j.Go? ==> ip <= j.ip <= |src| && !j.p.AtDone? && (ip < j.ip || j.p.AtTop?)
    ensures Outcome(j, src) == MatchDone(state, src[ip..], out)
  {
    if state == 0 {
      return Go(AtTop, ip, out);
    }
    if |src| - ip < state + 1 {
      return Stop(Overrun);
    }
    assert src[ip..][..state] == src[ip..ip + state] && src[ip..][state + 1..] == src[ip + state + 1..];
    return Go(AtMatch(src[ip + state]), ip + state + 1, out + src[ip..ip + state]);
  }

  /** lzo1x_decompress as a loop over the input position. */
  method Decompress(src: seq<byte>) returns (r: Result)
    ensures r == Decode(src)
  {
    if src == [] {
      return Overrun;
    }
    assert src[0..] == src;
    var j := Go(AtTop, 0, []);
    if src[0] > 17 {
      var t := src[0] - 17;
      if t < 4 {
        j := Go(AtDone(t), 1, []);
      } else if |src| < t + 1 {
        return Overrun;
      } else {
        j := Go(AtFirstRun, t + 1, src[1..t + 1]);
      }
    }
    while j.Go?
      invariant j.Go? ==> j.ip <= |src| && (j.p.AtDone? ==> j.p.state < 4)
      invariant Outcome(j, src) == Decode(src)
      decreases j.Go?, if j.Go? then |src| - j.ip else 0, j.Go? && j.p.AtDone?
    {
      match j.p {
        case AtTop => j := JumpTop(src, j.ip, j.out);
        case AtFirstRun => j := JumpFirstRun(src, j.ip, j.out);
        case AtMatch(t) => j := JumpMatch(src, j.ip, j.out, t);
        case AtDone(state) => j := JumpDone(src, j.ip, j.out, state);
      }
    }
    r := j.r;
  }

  /** Compressing and decompressing any byte string is the identity. */
  method RoundTrip(src: seq<byte>) returns (r: Result)
    ensures r == Ok(src)
  {
    var packed := Compress(src);
    r := Decompress(packed);
  }
}
