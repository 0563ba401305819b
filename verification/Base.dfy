/**
  Vocabulary shared by every module: bytes, optional values, the result of a
  partial parse, and the lexicographic order on bytecode versions.
  */
module Base {

  type byte = b: int | 0 <= b < 256
  type bytes = seq<byte>

  const TWO_TO_THE_64: int := 0x1_0000_0000_0000_0000
  const TWO_TO_THE_32: int := 0x1_0000_0000
  const MAX_COUNT: int := TWO_TO_THE_32 - 2

  type u64 = x: int | 0 <= x < TWO_TO_THE_64
  type u32 = x: int | 0 <= x < TWO_TO_THE_32

  datatype Option<+T> = None | Some(value: T) {
    predicate IsFailure() {
      None?
    }

    function PropagateFailure<U>(): Option<U>
      requires None?
    {
      None
    }

    function Extract(): T
      requires Some?
    {
      value
    }
  }

  /**
    What a reader returns: an error, the index of a table entry it stopped at because the
    entry is not known yet, or a value and the bytes it left unread.
    */
  datatype Parsed<+T> = Fail | Missing(index: nat) | Got(value: T, rest: bytes) {
    predicate IsFailure() {
      !Got?
    }

    function PropagateFailure<U>(): Parsed<U>
      requires !Got?
    {
      if Fail? then Fail else Missing(index)
    }

    function Extract(): (T, bytes)
      requires Got?
    {
      (value, rest)
    }
  }

  /** A bytecode version; `tag` orders builds of one major.minor release. */
  datatype Version = Version(major: nat, minor: nat, tag: nat) {
    predicate Before(other: Version) {
      if major != other.major then major < other.major
      else if minor != other.minor then minor < other.minor
      else tag < other.tag
    }

    predicate AtLeast(other: Version) {
      !Before(other)
    }
  }

  const V13_3 := Version(13, 3, 0)
  const V13_4 := Version(13, 4, 0)
  const UNIFIED_BITFIELD_VERSION := V13_3
  const CANONICAL_I1_VERSION := V13_4
  const MIN_SUPPORTED_VERSION := Version(13, 1, 0)

  function MaxVersion(a: Version, b: Version): (m: Version)
    ensures m.AtLeast(a) && m.AtLeast(b) && (m == a || m == b)
  {
    if a.Before(b) then b else a
  }

  /** A table all of whose entries are known. */
  function Full<T>(xs: seq<T>): (r: seq<Option<T>>)
    ensures |r| == |xs|
  {
    seq(|xs|, i requires 0 <= i < |xs| => Some(xs[i]))
  }

  /** The first position of `x` in `s`. */
  function IndexOf<T(==)>(s: seq<T>, x: T): (r: Option<nat>)
    ensures r.Some? <==> x in s
    ensures r.Some? ==> r.value < |s| && s[r.value] == x && x !in s[..r.value]
  {
    if s == [] then None
    else if s[0] == x then Some(0)
    else
      var tail := IndexOf(s[1..], x);
      assert s == [s[0]] + s[1..];
      if tail.None? then None
      else
        assert s[..tail.value + 1] == [s[0]] + s[1..][..tail.value];
        Some(tail.value + 1)
  }

  lemma {:induction false} IndexOfIsFirst<T>(s: seq<T>, x: T, i: nat)
    requires i < |s| && s[i] == x && x !in s[..i]
    ensures IndexOf(s, x) == Some(i)
  {
    if i > 0 {
      assert s[0] in s[..i];
      assert s[1..][..i - 1] == s[..i][1..];
      IndexOfIsFirst(s[1..], x, i - 1);
    }
  }

  /** A position found in a table is found again, unchanged, in every longer table. */
  lemma {:induction false} IndexOfStable<T>(s: seq<T>, t: seq<T>, x: T)
    requires s <= t && x in s
    ensures IndexOf(t, x) == IndexOf(s, x)
  {
    var i := IndexOf(s, x).value;
    assert t[..i] == s[..i];
    IndexOfIsFirst(t, x, i);
  }

  lemma {:induction false} Assoc(a: bytes, b: bytes, c: bytes)
    ensures a + b + c == a + (b + c)
  {
  }

  function Pow2(n: nat): (p: nat)
    ensures p >= 1
  {
    if n == 0 then 1 else 2 * Pow2(n - 1)
  }

  lemma {:induction false} Pow2Add(a: nat, b: nat)
    ensures Pow2(a + b) == Pow2(a) * Pow2(b)
  {
    if a > 0 {
      Pow2Add(a - 1, b);
      assert 2 * (Pow2(a - 1) * Pow2(b)) == (2 * Pow2(a - 1)) * Pow2(b);
    }
  }

  lemma {:induction false} Pow2Monotone(a: nat, b: nat)
    requires a <= b
    ensures Pow2(a) <= Pow2(b)
    decreases b
  {
    if a < b {
      Pow2Monotone(a, b - 1);
    }
  }

  lemma {:induction false} Pow2Values()
    ensures Pow2(3) == 8 && Pow2(7) == 128 && Pow2(8) == 256
    ensures Pow2(32) == TWO_TO_THE_32 && Pow2(64) == TWO_TO_THE_64
    ensures Pow2(63) == TWO_TO_THE_64 / 2
  {
    SmallPow2Values();
    hide Pow2;
    Pow2Add(8, 8);
    Pow2Add(16, 16);
    Pow2Add(32, 32);
    Pow2Add(1, 63);
  }

  lemma {:induction false} SmallPow2Values()
    ensures Pow2(1) == 2 && Pow2(3) == 8 && Pow2(7) == 128 && Pow2(8) == 256
  {
    assert Pow2(4) == 16;
    assert Pow2(8) == 2 * Pow2(7) == 4 * Pow2(6) == 8 * Pow2(5) == 16 * Pow2(4);
  }
}
