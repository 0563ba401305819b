/**
  Dense attributes of one-bit elements. From version 13.4 on eight elements share a byte;
  before that an attribute with equal elements is a single byte, 0xff or 0x00.
  */
module DenseI1 {
  import opened Base
  import opened BitFields
  import opened VarInts
  import opened Streams

  function PackedSize(n: nat): nat {
    (n + 7) / 8
  }

  /** The word with exactly the given bits, the first one lowest. */
  function Word(bits: seq<bool>): (w: nat)
    ensures w < Pow2(|bits|)
  {
    if bits == [] then 0 else (if bits[0] then 1 else 0) + 2 * Word(bits[1..])
  }

  function Chunk(values: seq<bool>, k: nat): (bits: seq<bool>)
    requires k < PackedSize(|values|)
    ensures 1 <= |bits| <= 8
  {
    values[8 * k..if 8 * k + 8 <= |values| then 8 * k + 8 else |values|]
  }

  function ChunkByte(values: seq<bool>, k: nat): byte
    requires k < PackedSize(|values|)
  {
    SmallPow2Values();
    Pow2Monotone(|Chunk(values, k)|, 8);
    Word(Chunk(values, k))
  }

  function Packed(values: seq<bool>): (bs: bytes)
    ensures |bs| == PackedSize(|values|)
  {
    seq(PackedSize(|values|), (k: nat) requires k < PackedSize(|values|) => ChunkByte(values, k))
  }

  predicate BitAt(bs: bytes, i: nat)
    requires i < 8 * |bs|
  {
    HasBit(bs[i / 8], i % 8)
  }

  lemma {:induction false} WordBits(bits: seq<bool>, j: nat)
    ensures HasBit(Word(bits), j) <==> j < |bits| && bits[j]
  {
    if bits == [] {
      ZeroHasNoBits(j);
    } else if j > 0 {
      WordBits(bits[1..], j - 1);
    }
  }

  /** After packing, bit i is element i; the bits behind the last element are clear. */
  lemma {:induction false} PackedBits(values: seq<bool>, i: nat)
    requires i < 8 * PackedSize(|values|)
    ensures BitAt(Packed(values), i) <==> i < |values| && values[i]
  {
    hide HasBit, Word;
    WordBits(Chunk(values, i / 8), i % 8);
  }

  lemma {:induction false} WordIsItsBits(a: nat, b: nat, n: nat)
    requires a < Pow2(n) && b < Pow2(n) && forall j :: 0 <= j < n ==> (HasBit(a, j) <==> HasBit(b, j))
    ensures a == b
  {
    if n > 0 {
      assert HasBit(a, 0) <==> HasBit(b, 0);
      forall j | 0 <= j < n - 1 ensures HasBit(a / 2, j) <==> HasBit(b / 2, j) {
        assert HasBit(a, j + 1) <==> HasBit(b, j + 1);
      }
      WordIsItsBits(a / 2, b / 2, n - 1);
    }
  }

  /** Bytes are determined by their bits. */
  lemma {:induction false} BytesAreTheirBits(a: bytes, b: bytes)
    requires |a| == |b| && forall i :: 0 <= i < 8 * |a| ==> (BitAt(a, i) <==> BitAt(b, i))
    ensures a == b
  {
    SmallPow2Values();
    hide HasBit, Pow2;
    forall k | 0 <= k < |a| ensures a[k] == b[k] {
      forall j | 0 <= j < 8 ensures HasBit(a[k], j) <==> HasBit(b[k], j) {
        assert (8 * k + j) / 8 == k && (8 * k + j) % 8 == j;
        assert BitAt(a, 8 * k + j) <==> BitAt(b, 8 * k + j);
      }
      WordIsItsBits(a[k], b[k], 8);
    }
  }

  // ---------------------------------------------------------------- writer

  predicate Splat(values: seq<bool>) {
    forall i :: 0 <= i < |values| ==> values[i] == values[0]
  }

  /** The payload behind the size. */
  function Payload(values: seq<bool>, v: Version): (bs: bytes)
    requires values != []
    ensures |bs| >= 1
  {
    if v.Before(CANONICAL_I1_VERSION) && Splat(values) then [if values[0] then 0xff else 0x00]
    else Packed(values)
  }

  function Write(values: seq<bool>, v: Version): bytes
    requires values != []
  {
    VarInt(|Payload(values, v)|) + Payload(values, v)
  }

  /** The loop of the writer: every set element sets its bit in a zeroed buffer. */
  method Pack(values: seq<bool>) returns (bs: bytes)
    ensures bs == Packed(values)
  {
    SmallPow2Values();
    hide HasBit, SetBit, Packed, Pow2;
    var packed := new byte[PackedSize(|values|)](_ => 0);
    forall j: nat ensures !HasBit(0, j) {
      ZeroHasNoBits(j);
    }
    for i := 0 to |values|
      invariant forall j :: 0 <= j < 8 * packed.Length ==> (BitAt(packed[..], j) <==> j < i && values[j])
    {
      ghost var before := packed[..];
      if values[i] {
        SetBitBelow(packed[i / 8], i % 8, 8);
        packed[i / 8] := SetBit(packed[i / 8], i % 8);
        OneBitMore(before, packed[..], i);
      }
    }
    bs := packed[..];
    forall j | 0 <= j < 8 * |bs| ensures BitAt(bs, j) <==> BitAt(Packed(values), j) {
      PackedBits(values, j);
    }
    BytesAreTheirBits(bs, Packed(values));
  }

  lemma {:induction false} OneBitMore(before: bytes, after: bytes, i: nat)
    requires i < 8 * |before| && SetBit(before[i / 8], i % 8) < 256
    requires after == before[i / 8 := SetBit(before[i / 8], i % 8)]
    ensures forall j :: 0 <= j < 8 * |before| ==> (BitAt(after, j) <==> j == i || BitAt(before, j))
  {
    hide HasBit, SetBit;
    forall j | 0 <= j < 8 * |before| ensures BitAt(after, j) <==> j == i || BitAt(before, j) {
      SetBitSets(before[i / 8], i % 8, j % 8);
    }
  }

  method WriteI1(values: seq<bool>, v: Version, writer: EncodingWriter)
    requires 0 < |values| < TWO_TO_THE_64
    modifies writer
    ensures writer.stream == old(writer.stream) + Write(values, v)
  {
    hide VarInt, Packed;
    ghost var before := writer.stream;
    if v.Before(CANONICAL_I1_VERSION) && Splat(values) {
      writer.WriteVarInt(1);
      writer.WriteBytes([if values[0] then 0xff else 0x00]);
      Assoc(before, VarInt(1), Payload(values, v));
    } else {
      var packed := Pack(values);
      writer.WriteVarInt(|packed|);
      writer.WriteBytes(packed);
      Assoc(before, VarInt(|packed|), packed);
    }
  }

  // ---------------------------------------------------------------- reader

  /** The first `n` bits. */
  function Unpacked(bs: bytes, n: nat): (values: seq<bool>)
    requires |bs| == PackedSize(n)
    ensures |values| == n
  {
    seq(n, (i: nat) requires i < n => BitAt(bs, i))
  }

  function Repeated(b: bool, n: nat): (values: seq<bool>)
    ensures |values| == n && forall i :: 0 <= i < n ==> values[i] == b
  {
    seq(n, _ => b)
  }

  /** The payload of an attribute with `n` elements. */
  function FromPayload(payload: bytes, n: nat): (r: Option<seq<bool>>)
    ensures r.Some? ==> |r.value| == n
    ensures r.Some? <==> |payload| == PackedSize(n) || (|payload| == 1 && n > 8)
  {
    if |payload| == PackedSize(n) then Some(Unpacked(payload, n))
    else if |payload| == 1 && n > 8 then Some(Repeated(HasBit(payload[0], 0), n))
    else None
  }

  function Read(bs: bytes, n: nat): Parsed<seq<bool>> {
    var (size, rest) :- ReadVarInt(bs);
    if size > |rest| then Fail else
    var values := FromPayload(rest[..size], n);
    if values.None? then Fail else Got(values.value, rest[size..])
  }

  /** The loop of the reader. */
  method Unpack(payload: bytes, n: nat) returns (r: Option<seq<bool>>)
    ensures r == FromPayload(payload, n)
  {
    if |payload| == PackedSize(n) {
      var values := [];
      for i := 0 to n
        invariant |values| == i && values == Unpacked(payload, n)[..i]
      {
        values := values + [HasBit(payload[i / 8], i % 8)];
      }
      assert Unpacked(payload, n)[..n] == Unpacked(payload, n);
      r := Some(values);
    } else if |payload| == 1 && n > 8 {
      var splat := payload[0] % 2 == 1;
      r := Some(Repeated(splat, n));
    } else {
      r := None;
    }
  }

  // ---------------------------------------------------------------- round trip

  lemma {:induction false} UnpackedPacked(values: seq<bool>)
    ensures Unpacked(Packed(values), |values|) == values
  {
    hide Packed;
    forall i | 0 <= i < |values| ensures Unpacked(Packed(values), |values|)[i] == values[i] {
      PackedBits(values, i);
    }
  }

  lemma {:induction false} SplatBits(b: bool, j: nat)
    requires j < 8
    ensures HasBit(if b then 0xff else 0x00, j) == b
  {
    WordBits(Repeated(b, 8), j);
    SplatWord(b, 8);
    assert Pow2(8) == 256 by {
      SmallPow2Values();
    }
  }

  lemma {:induction false} SplatWord(b: bool, n: nat)
    ensures Word(Repeated(b, n)) == if b then Pow2(n) - 1 else 0
  {
    if n > 0 {
      SplatWord(b, n - 1);
      assert Repeated(b, n)[1..] == Repeated(b, n - 1);
    }
  }

  /**
    Every payload is read as the elements it was written for. A splat byte stands for up
    to eight packed elements as well; above that its size is not that of packed elements.
    */
  lemma {:induction false} PayloadReadBack(values: seq<bool>, v: Version)
    requires values != []
    ensures FromPayload(Payload(values, v), |values|) == Some(values)
  {
    hide HasBit, Packed, Word;
    if v.Before(CANONICAL_I1_VERSION) && Splat(values) {
      var payload := Payload(values, v);
      forall i | 0 <= i < |values| ensures FromPayload(payload, |values|).value[i] == values[i] {
        SplatBits(values[0], if |values| <= 8 then i else 0);
      }
      assert FromPayload(payload, |values|).value == values;
    } else {
      UnpackedPacked(values);
    }
  }

  lemma {:induction false} I1RoundTrip(values: seq<bool>, v: Version, rest: bytes)
    requires 0 < |values| < TWO_TO_THE_64
    ensures Read(Write(values, v) + rest, |values|) == Got(values, rest)
  {
    hide VarInt, ReadVarInt, FromPayload;
    var payload := Payload(values, v);
    Assoc(VarInt(|payload|), payload, rest);
    VarIntRoundTrip(|payload|, payload + rest);
    PayloadReadBack(values, v);
    assert (payload + rest)[..|payload|] == payload && (payload + rest)[|payload|..] == rest;
  }

  /** A reader that ignores the number of elements is lost: one byte, two meanings. */
  lemma {:induction false} OneByteTwoMeanings()
    ensures FromPayload([1], 8) == Some([true] + Repeated(false, 7))
    ensures FromPayload([1], 9) == Some(Repeated(true, 9))
  {
    forall i | 0 <= i < 8 ensures BitAt([1], i) == (i == 0) {
      if i > 0 {
        ZeroHasNoBits(i - 1);
      }
    }
    assert Unpacked([1], 8) == [true] + Repeated(false, 7);
  }
}
