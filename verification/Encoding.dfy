/**
  The byte layer: fixed width little-endian integers, arbitrary width integers,
  alignment padding, and the stream classes that write and read them.
  */
module Encoding {
  import opened Base
  import opened VarInts

  const ALIGNMENT_BYTE: byte := 0xCB

  /** The `n` low bytes of `v`, least significant first. */
  function LE(v: nat, n: nat): (bs: bytes)
    ensures |bs| == n
    decreases n
  {
    if n == 0 then [] else [v % 256] + LE(v / 256, n - 1)
  }

  function ReadLE(bs: bytes, n: nat): (r: Parsed<nat>)
    ensures !r.Missing?
    ensures r.Got? <==> n <= |bs|
    ensures r.Got? ==> r.value < Pow2(8 * n) && r.rest == bs[n..]
    decreases n
  {
    Pow2Values();
    if n == 0 then Got(0, bs)
    else if bs == [] then Fail
    else
      var (high, rest) :- ReadLE(bs[1..], n - 1);
      Pow2Add(8, 8 * (n - 1));
      Got(bs[0] + 256 * high, rest)
  }

  lemma {:induction false} LERoundTrip(v: nat, n: nat, rest: bytes)
    requires v < Pow2(8 * n)
    ensures ReadLE(LE(v, n) + rest, n) == Got(v, rest)
    decreases n
  {
    if n == 0 {
      assert LE(v, n) + rest == rest;
    } else {
      Pow2Values();
      Pow2Add(8, 8 * (n - 1));
      LERoundTrip(v / 256, n - 1, rest);
      assert LE(v, n) + rest == [v % 256] + (LE(v / 256, n - 1) + rest);
    }
  }

  predicate FitsSigned(x: int, bits: nat)
    requires bits >= 1
  {
    0 <= x + Pow2(bits - 1) && x < Pow2(bits - 1)
  }

  /** The two's complement word of a signed value, and back. */
  function ToWord(x: int, bits: nat): (w: nat)
    requires bits >= 1 && FitsSigned(x, bits)
    ensures w < Pow2(bits) && FromWord(w, bits) == x
  {
    if x >= 0 then x else x + Pow2(bits)
  }

  function FromWord(w: nat, bits: nat): int
    requires bits >= 1
  {
    if w < Pow2(bits - 1) then w else w - Pow2(bits)
  }

  predicate AllFit(xs: seq<int>, n: nat)
    requires n >= 1
  {
    forall i :: 0 <= i < |xs| ==> FitsSigned(xs[i], 8 * n)
  }

  /** A count followed by that many little-endian words of `n` bytes. */
  function LEArray(xs: seq<int>, n: nat): (bs: bytes)
    requires n >= 1 && AllFit(xs, n)
    ensures |bs| == n * |xs|
  {
    if xs == [] then [] else LE(ToWord(xs[0], 8 * n), n) + LEArray(xs[1..], n)
  }

  function ReadLEArray(bs: bytes, count: nat, n: nat): (r: Parsed<seq<int>>)
    requires n >= 1
    ensures !r.Missing?
    ensures r.Got? ==> |r.rest| <= |bs|
    decreases count
  {
    if count == 0 then Got([], bs)
    else
      var (w, rest) :- ReadLE(bs, n);
      var (xs, rest') :- ReadLEArray(rest, count - 1, n);
      Got([FromWord(w, 8 * n)] + xs, rest')
  }

  function LEVarSize(xs: seq<int>, n: nat): bytes
    requires n >= 1 && AllFit(xs, n)
  {
    VarInt(|xs|) + LEArray(xs, n)
  }

  function ReadLEVarSize(bs: bytes, n: nat): (r: Parsed<seq<int>>)
    requires n >= 1
    ensures !r.Missing?
    ensures r.Got? ==> |r.rest| < |bs|
  {
    var (count, rest) :- ReadCount(bs);
    ReadLEArray(rest, count, n)
  }

  lemma {:induction false} LEArrayRoundTrip(xs: seq<int>, n: nat, rest: bytes)
    requires n >= 1 && AllFit(xs, n)
    ensures ReadLEArray(LEArray(xs, n) + rest, |xs|, n) == Got(xs, rest)
  {
    if xs == [] {
      assert LEArray(xs, n) + rest == rest;
    } else {
      hide LE, ReadLE, Pow2;
      var w := ToWord(xs[0], 8 * n);
      var tail := LEArray(xs[1..], n) + rest;
      Assoc(LE(w, n), LEArray(xs[1..], n), rest);
      LERoundTrip(w, n, tail);
      LEArrayRoundTrip(xs[1..], n, rest);
      assert xs == [xs[0]] + xs[1..];
    }
  }

  lemma {:induction false} LEVarSizeRoundTrip(xs: seq<int>, n: nat, rest: bytes)
    requires n >= 1 && |xs| <= MAX_COUNT && AllFit(xs, n)
    ensures ReadLEVarSize(LEVarSize(xs, n) + rest, n) == Got(xs, rest)
  {
    assert LEVarSize(xs, n) + rest == VarInt(|xs|) + (LEArray(xs, n) + rest);
    CountRoundTrip(|xs|, LEArray(xs, n) + rest);
    LEArrayRoundTrip(xs, n, rest);
  }

  // ---------------------------------------------------------------- arbitrary width integers

  /** The 64-bit words of `v` with the high zero words dropped; one word at least. */
  function ActiveWords(v: nat): (ws: seq<u64>)
    ensures |ws| >= 1
    decreases v
  {
    if v < TWO_TO_THE_64 then [v] else [v % TWO_TO_THE_64] + ActiveWords(v / TWO_TO_THE_64)
  }

  function FromWords(ws: seq<u64>): nat {
    if ws == [] then 0 else ws[0] + TWO_TO_THE_64 * FromWords(ws[1..])
  }

  function SignedVarInts(ws: seq<u64>): bytes {
    if ws == [] then [] else SignedVarInt(ws[0]) + SignedVarInts(ws[1..])
  }

  function ReadSignedVarInts(bs: bytes, count: nat): (r: Parsed<seq<u64>>)
    ensures !r.Missing?
    ensures r.Got? ==> |r.value| == count && |r.rest| <= |bs|
    decreases count
  {
    if count == 0 then Got([], bs)
    else
      var (w, rest) :- ReadSignedVarInt(bs);
      var (ws, rest') :- ReadSignedVarInts(rest, count - 1);
      Got([w] + ws, rest')
  }

  /** The integer `v` of `width` bits. */
  function APInt(v: nat, width: nat): (bs: bytes)
    requires v < Pow2(width)
    ensures |bs| >= 1
  {
    if width <= 8 then
      assert v < 256 by { Pow2Monotone(width, 8); Pow2Values(); }
      [v]
    else if width <= 64 then
      assert v < TWO_TO_THE_64 by { Pow2Monotone(width, 64); Pow2Values(); }
      SignedVarInt(v)
    else
      VarInt(|ActiveWords(v)|) + SignedVarInts(ActiveWords(v))
  }

  function ReadAPInt(bs: bytes, width: nat): (r: Parsed<nat>)
    ensures !r.Missing?
    ensures r.Got? ==> r.value < Pow2(width) && |r.rest| < |bs|
  {
    if width <= 8 then
      if bs == [] || bs[0] >= Pow2(width) then Fail else Got(bs[0], bs[1..])
    else if width <= 64 then
      var (v, rest) :- ReadSignedVarInt(bs);
      if v >= Pow2(width) then Fail else Got(v, rest)
    else
      var (count, rest) :- ReadVarInt(bs);
      if count == 0 || count > (width + 63) / 64 then Fail
      else
        var (ws, rest') :- ReadSignedVarInts(rest, count);
        Got(FromWords(ws) % Pow2(width), rest')
  }

  lemma {:induction false} SignedVarIntsRoundTrip(ws: seq<u64>, rest: bytes)
    ensures ReadSignedVarInts(SignedVarInts(ws) + rest, |ws|) == Got(ws, rest)
  {
    if ws == [] {
      assert SignedVarInts(ws) + rest == rest;
    } else {
      var tail := SignedVarInts(ws[1..]) + rest;
      assert SignedVarInts(ws) + rest == SignedVarInt(ws[0]) + tail;
      SignedVarIntRoundTrip(ws[0], tail);
      SignedVarIntsRoundTrip(ws[1..], rest);
      assert ws == [ws[0]] + ws[1..];
    }
  }

  /** Dropping high zero words loses nothing, and no word is dropped that the width needs. */
  lemma {:induction false} ActiveWordsRestore(v: nat, width: nat)
    requires v < Pow2(width) && width >= 1
    ensures FromWords(ActiveWords(v)) == v && |ActiveWords(v)| <= (width + 63) / 64
    decreases v
  {
    if v < TWO_TO_THE_64 {
      assert ActiveWords(v)[1..] == [];
    } else {
      Pow2Values();
      if width <= 64 {
        Pow2Monotone(width, 64);
        assert false;
      }
      Pow2Add(64, width - 64);
      ActiveWordsRestore(v / TWO_TO_THE_64, width - 64);
    }
  }

  lemma {:induction false} WideAPIntRoundTrip(v: nat, width: nat, rest: bytes)
    requires v < Pow2(width) && 64 < width && (width + 63) / 64 < TWO_TO_THE_64
    ensures ReadAPInt(APInt(v, width) + rest, width) == Got(v, rest)
  {
    var ws := ActiveWords(v);
    var tail := SignedVarInts(ws) + rest;
    ActiveWordsRestore(v, width);
    assert APInt(v, width) + rest == VarInt(|ws|) + tail;
    VarIntRoundTrip(|ws|, tail);
    SignedVarIntsRoundTrip(ws, rest);
    assert v % Pow2(width) == v by {
      RemainderIs(v, Pow2(width), 0, v);
    }
  }

  /** An integer of any width and any value is read back, consuming its own bytes only. */
  lemma {:induction false} APIntRoundTrip(v: nat, width: nat, rest: bytes)
    requires v < Pow2(width) && (width + 63) / 64 < TWO_TO_THE_64
    ensures ReadAPInt(APInt(v, width) + rest, width) == Got(v, rest)
  {
    if width <= 8 {
    } else if width <= 64 {
      assert v < TWO_TO_THE_64 by { Pow2Monotone(width, 64); Pow2Values(); }
      SignedVarIntRoundTrip(v, rest);
    } else {
      WideAPIntRoundTrip(v, width, rest);
    }
  }

  // ---------------------------------------------------------------- alignment

  function PaddingSize(pos: nat, alignment: nat): (n: nat)
    ensures alignment >= 2 ==> n < alignment && (pos + n) % alignment == 0
    ensures alignment < 2 ==> n == 0
  {
    if alignment < 2 then 0
    else
      var n := (alignment - pos % alignment) % alignment;
      assert (pos + n) % alignment == 0 by {
        PaddingAligns(pos, alignment);
      }
      n
  }

  lemma {:induction false} PaddingAligns(pos: nat, a: nat)
    requires a >= 2
    ensures (pos + (a - pos % a) % a) % a == 0
  {
    var q, m := pos / a, pos % a;
    if m == 0 {
      RemainderIs(a, a, 1, 0);
    } else {
      RemainderIs(a - m, a, 0, a - m);
      assert pos + (a - m) == a * q + a == a * (q + 1);
      RemainderIs(pos + (a - m), a, q + 1, 0);
    }
  }

  lemma {:induction false} RemainderIs(x: nat, a: nat, q: nat, r: nat)
    requires a >= 1 && x == a * q + r && r < a
    ensures x % a == r && x / a == q
  {
    assert x == a * (x / a) + x % a;
    OnlyZeroMultiple(a, q - x / a, x % a - r);
  }

  lemma {:induction false} OnlyZeroMultiple(a: int, d: int, e: int)
    requires a * d == e && -a < e < a
    ensures d == 0
  {
    assert d >= 1 ==> a * d >= a;
    assert d <= -1 ==> a * d <= -a;
  }

  function Padding(pos: nat, alignment: nat): (bs: bytes)
    ensures |bs| == PaddingSize(pos, alignment)
  {
    seq(PaddingSize(pos, alignment), _ => ALIGNMENT_BYTE)
  }

  function SkipPadding(data: bytes, offset: nat, alignment: nat): (r: Option<nat>)
    requires offset <= |data|
    ensures r.Some? ==> offset <= r.value <= |data|
  {
    if alignment < 2 then Some(offset)
    else if offset == |data| then None
    else if offset + PaddingSize(offset, alignment) > |data| then None
    else Some(offset + PaddingSize(offset, alignment))
  }
}
