/**
  Variable length integers: the byte format of unsigned LEB128 (section 7.6 of the
  DWARF Version 5 standard) limited to 64 bits, and the zigzag form of signed values.
  Machine words are modelled as naturals below 2^64: shifting right is division,
  masking low bits is the remainder, and an OR of disjoint bits is a sum.
  */
module VarInts {
  import opened Base

  /** The minimal encoding of `v`. */
  function VarInt(v: nat): (bs: bytes)
    ensures |bs| >= 1
    decreases v
  {
    if v < 128 then [v] else [v % 128 + 128] + VarInt(v / 128)
  }

  /** The bits left of a 64-bit word once `n` digits are read. */
  lemma {:induction false} DigitRoom(n: nat)
    requires n <= 9
    ensures n < 9 ==> Pow2(64 - 7 * n) == 128 * Pow2(57 - 7 * n)
    ensures n == 9 ==> Pow2(64 - 7 * n) == 2
  {
    SmallPow2Values();
    hide Pow2;
    if n < 9 {
      Pow2Add(7, 57 - 7 * n);
    }
  }

  /** The encoding, one digit unfolded. */
  lemma {:induction false} VarIntDigit(v: nat)
    ensures VarInt(v) == if v < 128 then [v] else [v % 128 + 128] + VarInt(v / 128)
  {
  }

  /**
    Reading, byte `n` of the encoding first. Only bit 0 of the tenth digit lies inside
    the 64-bit word, and an eleventh byte is an error.
    */
  function ReadVarIntFrom(bs: bytes, n: nat): (r: Parsed<nat>)
    ensures !r.Missing?
    ensures r.Got? ==> n <= 9 && r.value < Pow2(64 - 7 * n)
    ensures r.Got? ==> |r.rest| < |bs| && r.rest == bs[|bs| - |r.rest|..]
    decreases |bs|
  {
    if bs == [] || n > 9 then Fail
    else if bs[0] < 128 then
      DigitRoom(n);
      Got(if n == 9 then bs[0] % 2 else bs[0], bs[1..])
    else
      var (high, rest) :- ReadVarIntFrom(bs[1..], n + 1);
      DigitRoom(n);
      Got(bs[0] - 128 + 128 * high, rest)
  }

  function ReadVarInt(bs: bytes): (r: Parsed<nat>)
    ensures !r.Missing?
    ensures r.Got? ==> r.value < TWO_TO_THE_64
    ensures r.Got? ==> |r.rest| < |bs| && r.rest == bs[|bs| - |r.rest|..]
  {
    Pow2Values();
    ReadVarIntFrom(bs, 0)
  }

  /** Reading a count: values above `max` are an error. */
  function ReadCount(bs: bytes): (r: Parsed<nat>)
    ensures !r.Missing?
    ensures r.Got? ==> |r.rest| < |bs| && r.value <= MAX_COUNT
  {
    var (n, rest) :- ReadVarInt(bs);
    if n > MAX_COUNT then Fail else Got(n, rest)
  }

  lemma {:induction false} ReadVarIntFromWritten(v: nat, rest: bytes, n: nat)
    requires n <= 9 && v < Pow2(64 - 7 * n)
    ensures ReadVarIntFrom(VarInt(v) + rest, n) == Got(v, rest)
    decreases v
  {
    Pow2Values();
    if v < 128 {
      assert VarInt(v) + rest == [v] + rest;
      assert n == 9 ==> v < 2;
    } else {
      assert VarInt(v) + rest == [v % 128 + 128] + (VarInt(v / 128) + rest);
      assert n < 9;
      Pow2Add(7, 57 - 7 * n);
      ReadVarIntFromWritten(v / 128, rest, n + 1);
    }
  }

  /** Every 64-bit value is read back, and exactly its own bytes are consumed. */
  lemma {:induction false} VarIntRoundTrip(v: nat, rest: bytes)
    requires v < TWO_TO_THE_64
    ensures ReadVarInt(VarInt(v) + rest) == Got(v, rest)
  {
    Pow2Values();
    ReadVarIntFromWritten(v, rest, 0);
  }

  lemma {:induction false} CountRoundTrip(v: nat, rest: bytes)
    requires v <= MAX_COUNT
    ensures ReadCount(VarInt(v) + rest) == Got(v, rest)
  {
    VarIntRoundTrip(v, rest);
  }

  lemma {:induction false} VarIntLength(v: nat, k: nat)
    requires k >= 1
    ensures |VarInt(v)| <= k <==> v < Pow2(7 * k)
    decreases k
  {
    SmallPow2Values();
    hide Pow2, VarInt;
    VarIntDigit(v);
    if k > 1 {
      Pow2Add(7, 7 * (k - 1));
      if v >= 128 {
        VarIntLength(v / 128, k - 1);
        assert v / 128 < Pow2(7 * (k - 1)) <==> v < 128 * Pow2(7 * (k - 1));
      }
    }
  }

  /** Every 64-bit value takes at most ten bytes. */
  lemma {:induction false} VarIntAtMostTenBytes(v: nat)
    requires v < TWO_TO_THE_64
    ensures |VarInt(v)| <= 10
  {
    Pow2Values();
    Pow2Monotone(64, 70);
    VarIntLength(v, 10);
  }

  lemma {:induction false} ReadBelow(bs: bytes, n: nat)
    requires ReadVarIntFrom(bs, n).Got?
    ensures var r := ReadVarIntFrom(bs, n); r.value < Pow2(7 * (|bs| - |r.rest|))
    decreases |bs|
  {
    hide Pow2;
    Pow2Values();
    var r := ReadVarIntFrom(bs, n);
    var k := |bs| - |r.rest|;
    if bs[0] >= 128 {
      ReadBelow(bs[1..], n + 1);
      Pow2Add(7, 7 * (k - 1));
    }
  }

  /** No accepted encoding of a value is shorter than the one written. */
  lemma {:induction false} VarIntIsMinimal(bs: bytes)
    requires ReadVarInt(bs).Got?
    ensures var r := ReadVarInt(bs); |VarInt(r.value)| <= |bs| - |r.rest|
  {
    ReadBelow(bs, 0);
    VarIntLength(ReadVarInt(bs).value, |bs| - |ReadVarInt(bs).rest|);
  }

  // ---------------------------------------------------------------- zigzag

  /** (v << 1) ^ (v >> 63) with an arithmetic shift: the second operand is 0 or all ones. */
  function ZigZag(v: nat): (z: nat)
    requires v < TWO_TO_THE_64
    ensures z < TWO_TO_THE_64
  {
    var doubled := 2 * v % TWO_TO_THE_64;
    if v < TWO_TO_THE_64 / 2 then doubled else TWO_TO_THE_64 - 1 - doubled
  }

  /** (z >> 1) ^ -(z & 1). */
  function UnZigZag(z: nat): (v: nat)
    requires z < TWO_TO_THE_64
    ensures v < TWO_TO_THE_64
  {
    if z % 2 == 0 then z / 2 else TWO_TO_THE_64 - 1 - z / 2
  }

  /** Zigzag is a bijection on 64-bit words that keeps values of small magnitude small. */
  lemma {:induction false} ZigZagBijective(v: nat)
    requires v < TWO_TO_THE_64
    ensures UnZigZag(ZigZag(v)) == v && ZigZag(UnZigZag(v)) == v
    ensures forall m: nat :: v < m || v >= TWO_TO_THE_64 - m ==> ZigZag(v) < 2 * m
  {
    if v >= TWO_TO_THE_64 / 2 {
      assert 2 * v % TWO_TO_THE_64 == 2 * v - TWO_TO_THE_64;
    }
  }

  function SignedVarInt(v: nat): (bs: bytes)
    requires v < TWO_TO_THE_64
    ensures |bs| >= 1
  {
    VarInt(ZigZag(v))
  }

  function ReadSignedVarInt(bs: bytes): (r: Parsed<nat>)
    ensures !r.Missing?
    ensures r.Got? ==> |r.rest| < |bs| && r.value < TWO_TO_THE_64
  {
    var (z, rest) :- ReadVarInt(bs);
    Got(UnZigZag(z), rest)
  }

  lemma {:induction false} SignedVarIntRoundTrip(v: nat, rest: bytes)
    requires v < TWO_TO_THE_64
    ensures ReadSignedVarInt(SignedVarInt(v) + rest) == Got(v, rest)
  {
    ZigZagBijective(v);
    VarIntRoundTrip(ZigZag(v), rest);
  }
}
