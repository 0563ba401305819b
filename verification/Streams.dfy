/**
  The stream classes. `EncodingWriter` appends to a byte stream; `EncodingReader`
  moves an offset through a fixed buffer. Every method is specified by the pure
  encodings of modules VarInts and Encoding.
  */
module Streams {
  import opened Base
  import opened VarInts
  import opened Encoding

  class EncodingWriter {
    var stream: bytes
    var requiredAlignment: nat

    constructor (alignment: nat := 1)
      ensures stream == [] && requiredAlignment == alignment
    {
      stream, requiredAlignment := [], alignment;
    }

    method WriteBytes(data: bytes)
      modifies this`stream
      ensures stream == old(stream) + data
    {
      stream := stream + data;
    }

    method WriteVarInt(v: u64)
      modifies this`stream
      ensures stream == old(stream) + VarInt(v)
    {
      hide VarInt;
      VarIntAtMostTenBytes(v);
      var buffer := new byte[10];
      var index, value: nat, more := 0, v, true;
      while more
        invariant 0 <= index <= 10 && stream == old(stream)
        invariant more ==> index < 10 && buffer[..index] + VarInt(value) == VarInt(v)
        invariant !more ==> buffer[..index] == VarInt(v)
        decreases more, 10 - index
      {
        VarIntDigit(value);
        var digit: byte := value % 128;
        ghost var written := buffer[..index];
        value := value / 128;
        if value != 0 {
          digit := digit + 128;
        }
        buffer[index] := digit;
        index := index + 1;
        assert buffer[..index] == written + [digit];
        if value != 0 {
          Assoc(written, [digit], VarInt(value));
        }
        more := value != 0 && index < 10;
      }
      stream := stream + buffer[..index];
    }

    method WriteSignedVarInt(v: u64)
      modifies this`stream
      ensures stream == old(stream) + SignedVarInt(v)
    {
      WriteVarInt(ZigZag(v));
    }

    method WriteLE(v: nat, size: nat)
      requires v < Pow2(8 * size)
      modifies this`stream
      ensures stream == old(stream) + LE(v, size)
    {
      var value: nat := v;
      for i := 0 to size
        invariant stream + LE(value, size - i) == old(stream) + LE(v, size)
      {
        assert LE(value, size - i) == [value % 256] + LE(value / 256, size - i - 1);
        stream := stream + [value % 256];
        value := value / 256;
      }
    }

    method WriteLEVarSize(xs: seq<int>, size: nat)
      requires size >= 1 && AllFit(xs, size) && |xs| < TWO_TO_THE_64
      modifies this`stream
      ensures stream == old(stream) + LEVarSize(xs, size)
    {
      hide LE, Pow2, VarInt;
      WriteVarInt(|xs|);
      for i := 0 to |xs|
        invariant stream + LEArray(xs[i..], size) == old(stream) + LEVarSize(xs, size)
      {
        assert xs[i..][1..] == xs[i + 1..];
        WriteLE(ToWord(xs[i], 8 * size), size);
      }
    }

    method WriteAPInt(v: nat, width: nat)
      requires v < Pow2(width) && (width + 63) / 64 < TWO_TO_THE_64
      modifies this`stream
      ensures stream == old(stream) + APInt(v, width)
    {
      if width <= 8 {
        assert v < 256 by { Pow2Monotone(width, 8); Pow2Values(); }
        WriteBytes([v]);
      } else if width <= 64 {
        assert v < TWO_TO_THE_64 by { Pow2Monotone(width, 64); Pow2Values(); }
        WriteSignedVarInt(v);
      } else {
        ActiveWordsRestore(v, width);
        WriteWords(ActiveWords(v));
      }
    }

    method WriteWords(words: seq<u64>)
      requires |words| < TWO_TO_THE_64
      modifies this`stream
      ensures stream == old(stream) + (VarInt(|words|) + SignedVarInts(words))
    {
      WriteVarInt(|words|);
      for i := 0 to |words|
        invariant stream + SignedVarInts(words[i..]) == old(stream) + (VarInt(|words|) + SignedVarInts(words))
      {
        assert words[i..][1..] == words[i + 1..];
        WriteSignedVarInt(words[i]);
      }
    }

    method AlignTo(alignment: nat)
      modifies this
      ensures stream == old(stream) + Padding(|old(stream)|, alignment)
      ensures requiredAlignment ==
              if alignment < 2 || alignment <= old(requiredAlignment) then old(requiredAlignment) else alignment
    {
      if alignment < 2 {
        return;
      }
      var padding := (alignment - |stream| % alignment) % alignment;
      for i := 0 to padding
        invariant stream == old(stream) + seq(i, _ => ALIGNMENT_BYTE)
        invariant requiredAlignment == old(requiredAlignment)
      {
        stream := stream + [ALIGNMENT_BYTE];
      }
      requiredAlignment := if requiredAlignment < alignment then alignment else requiredAlignment;
    }
  }

  class EncodingReader {
    const data: bytes
    var offset: nat

    constructor (data: bytes)
      ensures this.data == data && offset == 0
    {
      this.data, offset := data, 0;
    }

    ghost predicate Valid()
      reads this`offset
    {
      offset <= |data|
    }

    function Remaining(): bytes
      requires Valid()
      reads this`offset
    {
      data[offset..]
    }

    /** `max` zero means no limit. The offset moves forward even when reading fails. */
    method ReadVarInt(max: nat := 0) returns (r: Option<nat>)
      requires Valid()
      modifies this`offset
      ensures Valid() && offset >= old(offset)
      ensures r == match VarInts.ReadVarInt(old(Remaining()))
                   case Got(v, _) => if max != 0 && v > max then None else Some(v)
                   case _ => None
      ensures r.Some? ==> Remaining() == VarInts.ReadVarInt(old(Remaining())).rest
    {
      r := ReadDigits();
      if r.Some? && max != 0 && r.value > max {
        r := None;
      }
    }

    method ReadDigits() returns (r: Option<nat>)
      requires Valid()
      modifies this`offset
      ensures Valid() && offset >= old(offset)
      ensures r.Some? ==> VarInts.ReadVarInt(old(Remaining())) == Got(r.value, Remaining())
      ensures r.None? ==> VarInts.ReadVarInt(old(Remaining())).IsFailure()
    {
      hide Shl, Pow2, ReadVarIntFrom;
      ghost var whole := VarInts.ReadVarInt(Remaining());
      PlacedFirst(whole);
      var result: nat, shift: nat := 0, 0;
      ghost var n := 0;
      while offset < |data| && shift <= 63
        invariant Valid() && offset >= old(offset) && shift == 7 * n && n <= 10
        invariant whole == Placed(result, shift, ReadVarIntFrom(data[offset..], n))
        decreases |data| - offset
      {
        var b := data[offset];
        assert data[offset..][1..] == data[offset + 1..];
        var result', shift' := result + Shl(b % 128, shift) % TWO_TO_THE_64, shift + 7;
        DigitStep(data[offset..], n, shift, result, shift', result');
        result, shift, offset := result', shift', offset + 1;
        n := n + 1;
        if b < 128 {
          return Some(result);
        }
      }
      NoMoreDigits(data[offset..], n);
      return None;
    }

    method ReadSignedVarInt() returns (r: Option<nat>)
      requires Valid()
      modifies this`offset
      ensures Valid() && offset >= old(offset)
      ensures match VarInts.ReadSignedVarInt(old(Remaining()))
              case Got(v, rest) => r == Some(v) && Remaining() == rest
              case _ => r == None
    {
      var z := ReadVarInt();
      if z.None? {
        return None;
      }
      return Some(UnZigZag(z.value));
    }

    method ReadLE(size: nat) returns (r: Option<nat>)
      requires Valid()
      modifies this`offset
      ensures Valid() && offset >= old(offset)
      ensures match Encoding.ReadLE(old(Remaining()), size)
              case Got(v, rest) => r == Some(v) && Remaining() == rest
              case _ => r == None && offset == old(offset)
    {
      hide Shl, Pow2;
      if offset + size > |data| {
        return None;
      }
      ghost var whole := Encoding.ReadLE(Remaining(), size);
      PlacedFirst(whole);
      var value: nat := 0;
      for i := 0 to size
        invariant Valid() && offset == old(offset) + i && offset + size - i <= |data|
        invariant whole == Placed(value, 8 * i, Encoding.ReadLE(Remaining(), size - i))
      {
        assert Remaining()[0] == data[offset] && Remaining()[1..] == data[offset + 1..];
        PlaceByte(value, data[offset], i, Encoding.ReadLE(data[offset + 1..], size - i - 1));
        value := value + Shl(data[offset], 8 * i);
        offset := offset + 1;
      }
      ShlIsProduct(0, 8 * size);
      return Some(value);
    }

    method ReadBytes(length: nat) returns (r: Option<bytes>)
      requires Valid()
      modifies this`offset
      ensures Valid()
      ensures r.Some? <==> length <= |old(Remaining())|
      ensures r.Some? ==> r.value == old(Remaining())[..length] && Remaining() == old(Remaining())[length..]
      ensures r.None? ==> offset == old(offset)
    {
      if length > |data| - offset {
        return None;
      }
      r := Some(data[offset..offset + length]);
      offset := offset + length;
    }

    method SkipPadding(alignment: nat) returns (ok: bool)
      requires Valid()
      modifies this`offset
      ensures Valid()
      ensures ok <==> Encoding.SkipPadding(data, old(offset), alignment).Some?
      ensures offset == if ok then Encoding.SkipPadding(data, old(offset), alignment).value else old(offset)
    {
      if alignment < 2 {
        return true;
      }
      if |data| - offset == 0 {
        return false;
      }
      var padding := (alignment - offset % alignment) % alignment;
      if |data| - offset < padding {
        return false;
      }
      offset := offset + padding;
      return true;
    }
  }

  // ---------------------------------------------------------------- the readers' loops

  /** x << n, not yet cut to a word. */
  function Shl(x: nat, n: nat): nat {
    if n == 0 then x else 2 * Shl(x, n - 1)
  }

  lemma {:induction false} ShlSum(x: nat, y: nat, k: nat, n: nat)
    ensures Shl(x + Pow2(k) * y, n) == Shl(x, n) + Shl(y, n + k)
  {
    if n > 0 {
      ShlSum(x, y, k, n - 1);
    } else {
      ShlIsProduct(y, k);
    }
  }

  lemma {:induction false} ShlIsProduct(y: nat, k: nat)
    ensures Shl(y, k) == Pow2(k) * y
  {
    if k > 0 {
      ShlIsProduct(y, k - 1);
      assert 2 * (Pow2(k - 1) * y) == (2 * Pow2(k - 1)) * y;
    }
  }

  lemma {:induction false} ShlBelow(x: nat, k: nat, n: nat)
    requires x < Pow2(k)
    ensures Shl(x, n) < Pow2(n + k)
  {
    if n > 0 {
      ShlBelow(x, k, n - 1);
    }
  }

  ghost function Placed(result: nat, shift: nat, tail: Parsed<nat>): Parsed<nat> {
    match tail
    case Fail => Fail
    case Missing(index) => Missing(index)
    case Got(v, rest) => Got(result + Shl(v, shift), rest)
  }

  lemma {:induction false} PlacedFirst(tail: Parsed<nat>)
    ensures Placed(0, 0, tail) == tail
  {
  }

  /** Shifting a digit left inside a 64-bit word drops what falls off its end. */
  lemma {:induction false} PlaceDigit(digit: nat, n: nat)
    requires digit < 128 && n <= 9
    ensures Shl(digit, 7 * n) % TWO_TO_THE_64 == Shl(if n == 9 then digit % 2 else digit, 7 * n)
  {
    hide Shl, Pow2;
    Pow2Values();
    if n == 9 {
      ShlIsProduct(digit, 63);
      ShlIsProduct(digit % 2, 63);
      assert digit == 2 * (digit / 2) + digit % 2;
    } else {
      ShlBelow(digit, 7, 7 * n);
      Pow2Monotone(7 * n + 7, 63);
    }
  }

  lemma {:induction false} NoMoreDigits(bs: bytes, n: nat)
    requires bs == [] || n > 9
    ensures ReadVarIntFrom(bs, n) == Fail
  {
  }

  lemma {:induction false} PlaceRest(result: nat, b: byte, n: nat, tail: Parsed<nat>)
    requires b >= 128
    ensures Placed(result, 7 * n, if !tail.Got? then tail else Got(b - 128 + 128 * tail.value, tail.rest)) ==
            Placed(result + Shl(b - 128, 7 * n), 7 * (n + 1), tail)
  {
    if tail.Got? {
      Pow2Values();
      ShlSum(b - 128, tail.value, 7, 7 * n);
    }
  }

  /** One turn of the varint loop. */
  lemma {:induction false} DigitStep(bs: bytes, n: nat, shift: nat, result: nat, shift': nat, result': nat)
    requires bs != [] && n <= 9 && shift == 7 * n && shift' == shift + 7
    requires result' == result + Shl(bs[0] % 128, shift) % TWO_TO_THE_64
    ensures bs[0] >= 128 ==> Placed(result, shift, ReadVarIntFrom(bs, n)) ==
                             Placed(result', shift', ReadVarIntFrom(bs[1..], n + 1))
    ensures bs[0] < 128 ==> Placed(result, shift, ReadVarIntFrom(bs, n)) == Got(result', bs[1..])
  {
    PlaceDigit(bs[0] % 128, n);
    if bs[0] >= 128 {
      PlaceRest(result, bs[0], n, ReadVarIntFrom(bs[1..], n + 1));
    }
  }

  lemma {:induction false} PlaceByte(value: nat, b: byte, i: nat, tail: Parsed<nat>)
    ensures Placed(value, 8 * i, if !tail.Got? then tail else Got(b + 256 * tail.value, tail.rest)) ==
            Placed(value + Shl(b, 8 * i), 8 * (i + 1), tail)
  {
    if tail.Got? {
      Pow2Values();
      ShlSum(b, tail.value, 8, 8 * i);
    }
  }
}
