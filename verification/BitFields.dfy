/**
  Flag words for optional fields. Bits are handed out in version order (and in
  declaration order within one version), so that the fields a later version adds
  take the bits above all older ones. A field is given by the version it dates from.
  */
module BitFields {
  import opened Base

  // ---------------------------------------------------------------- bits of a word

  /** w | (1 << i). */
  function SetBit(w: nat, i: nat): nat
    decreases i
  {
    if i == 0 then (if w % 2 == 1 then w else w + 1) else w % 2 + 2 * SetBit(w / 2, i - 1)
  }

  /** (w & (1 << i)) != 0. */
  predicate HasBit(w: nat, i: nat)
    decreases i
  {
    if i == 0 then w % 2 == 1 else HasBit(w / 2, i - 1)
  }

  lemma {:induction false} SetBitSets(w: nat, i: nat, j: nat)
    ensures HasBit(SetBit(w, i), j) <==> i == j || HasBit(w, j)
    decreases i
  {
    if i > 0 && j > 0 {
      SetBitSets(w / 2, i - 1, j - 1);
    } else if j > 0 {
      assert SetBit(w, i) / 2 == w / 2;
    }
  }

  lemma {:induction false} SetBitBelow(w: nat, i: nat, n: nat)
    requires w < Pow2(n) && i < n
    ensures SetBit(w, i) < Pow2(n)
    decreases i
  {
    if i > 0 {
      SetBitBelow(w / 2, i - 1, n - 1);
    } else {
      assert Pow2(n) == 2 * Pow2(n - 1);
    }
  }

  lemma {:induction false} ZeroHasNoBits(i: nat)
    ensures !HasBit(0, i)
  {
    if i > 0 {
      ZeroHasNoBits(i - 1);
    }
  }

  // ---------------------------------------------------------------- bit positions

  /** How many fields are older than `v`. */
  function Older(fs: seq<Version>, v: Version): nat {
    if fs == [] then 0
    else Older(fs[..|fs| - 1], v) + if fs[|fs| - 1].Before(v) then 1 else 0
  }

  /** How many fields date from `v`. */
  function Same(fs: seq<Version>, v: Version): nat {
    if fs == [] then 0
    else Same(fs[..|fs| - 1], v) + if fs[|fs| - 1] == v then 1 else 0
  }

  /** The bit of field `i`: how many fields come before it in version order. */
  function BitOf(fs: seq<Version>, i: nat): nat
    requires i < |fs|
  {
    Older(fs, fs[i]) + Same(fs[..i], fs[i])
  }

  lemma {:induction false} OlderAndSame(fs: seq<Version>, u: Version)
    ensures Older(fs, u) + Same(fs, u) <= |fs|
    ensures forall w: Version :: u.Before(w) ==> Older(fs, u) + Same(fs, u) <= Older(fs, w)
  {
    if fs != [] {
      OlderAndSame(fs[..|fs| - 1], u);
    }
  }

  lemma {:induction false} SameGrows(fs: seq<Version>, v: Version, i: nat)
    requires i < |fs|
    ensures Same(fs[..i], v) <= Same(fs, v)
    ensures fs[i] == v ==> Same(fs[..i], v) < Same(fs, v)
  {
    var init := fs[..|fs| - 1];
    if i < |fs| - 1 {
      assert init[..i] == fs[..i];
      SameGrows(init, v, i);
    }
  }

  lemma {:induction false} BitOfBelow(fs: seq<Version>, i: nat)
    requires i < |fs|
    ensures BitOf(fs, i) < |fs|
    ensures forall w: Version :: fs[i].Before(w) ==> BitOf(fs, i) < Older(fs, w)
  {
    OlderAndSame(fs, fs[i]);
    SameGrows(fs, fs[i], i);
  }

  /** Bits follow the version order, and the declaration order within one version. */
  lemma {:induction false} BitsFollowVersions(fs: seq<Version>, i: nat, j: nat)
    requires i < |fs| && j < |fs|
    ensures BitOf(fs, i) < BitOf(fs, j) <==> fs[i].Before(fs[j]) || (fs[i] == fs[j] && i < j)
  {
    BitOfBelow(fs, i);
    BitOfBelow(fs, j);
    SameInOrder(fs, i, j);
    SameInOrder(fs, j, i);
  }

  lemma {:induction false} SameInOrder(fs: seq<Version>, i: nat, j: nat)
    requires i < |fs| && j < |fs|
    ensures fs[i] == fs[j] && i < j ==> BitOf(fs, i) < BitOf(fs, j)
  {
    if i < j {
      assert fs[..j][..i] == fs[..i];
      SameGrows(fs[..j], fs[j], i);
    }
  }

  lemma {:induction false} BitsDiffer(fs: seq<Version>, i: nat, j: nat)
    requires i < |fs| && j < |fs|
    ensures BitOf(fs, i) == BitOf(fs, j) <==> i == j
  {
    BitsFollowVersions(fs, i, j);
    BitsFollowVersions(fs, j, i);
  }

  function Numbers(n: nat): (r: set<nat>)
    ensures |r| == n && forall b: nat :: b in r <==> b < n
  {
    if n == 0 then {} else Numbers(n - 1) + {n - 1}
  }

  /** The bits of the first `n` fields. */
  ghost function BitsUsed(fs: seq<Version>, n: nat): set<nat>
    requires n <= |fs|
  {
    if n == 0 then {} else BitsUsed(fs, n - 1) + {BitOf(fs, n - 1)}
  }

  lemma {:induction false} BitsUsedCount(fs: seq<Version>, n: nat)
    requires n <= |fs|
    ensures |BitsUsed(fs, n)| == n && BitsUsed(fs, n) <= Numbers(|fs|)
    ensures forall b :: b in BitsUsed(fs, n) ==> exists i: nat :: i < n && BitOf(fs, i) == b
  {
    if n > 0 {
      BitsUsedCount(fs, n - 1);
      BitOfBelow(fs, n - 1);
      if BitOf(fs, n - 1) in BitsUsed(fs, n - 1) {
        var i: nat :| i < n - 1 && BitOf(fs, i) == BitOf(fs, n - 1);
        BitsDiffer(fs, i, n - 1);
      }
    }
  }

  /** The bit positions are exactly 0..n-1, one for each field. */
  lemma {:induction false} BitsAreABijection(fs: seq<Version>, i: nat, j: nat, b: nat)
    requires i < |fs| && j < |fs| && b < |fs|
    ensures BitOf(fs, i) < |fs|
    ensures BitOf(fs, i) == BitOf(fs, j) ==> i == j
    ensures exists k: nat :: k < |fs| && BitOf(fs, k) == b
  {
    BitOfBelow(fs, i);
    BitsDiffer(fs, i, j);
    BitsUsedCount(fs, |fs|);
    var used, all := BitsUsed(fs, |fs|), Numbers(|fs|);
    assert all == used + (all - used);
    assert b in used;
  }

  // ---------------------------------------------------------------- schema evolution

  /** The fields that exist at version `v`. */
  function Cut(fs: seq<Version>, v: Version): (r: seq<Version>)
    ensures |r| <= |fs|
  {
    if fs == [] then []
    else Cut(fs[..|fs| - 1], v) + if v.AtLeast(fs[|fs| - 1]) then [fs[|fs| - 1]] else []
  }

  lemma {:induction false} CutCounts(fs: seq<Version>, v: Version, u: Version)
    requires v.AtLeast(u)
    ensures Older(Cut(fs, v), u) == Older(fs, u) && Same(Cut(fs, v), u) == Same(fs, u)
  {
    if fs != [] {
      var init, last := fs[..|fs| - 1], fs[|fs| - 1];
      CutCounts(init, v, u);
      assert v.AtLeast(last) ==> Cut(fs, v)[..|Cut(fs, v)| - 1] == Cut(init, v);
      assert v.Before(last) ==> Cut(fs, v) == Cut(init, v);
    }
  }

  lemma {:induction false} CutPosition(fs: seq<Version>, v: Version, i: nat)
    requires i < |fs| && v.AtLeast(fs[i])
    ensures |Cut(fs[..i], v)| < |Cut(fs, v)|
    ensures Cut(fs, v)[|Cut(fs[..i], v)|] == fs[i]
    ensures Cut(fs, v)[..|Cut(fs[..i], v)|] == Cut(fs[..i], v)
  {
    var init := fs[..|fs| - 1];
    if i < |fs| - 1 {
      assert init[..i] == fs[..i];
      CutPosition(init, v, i);
    }
  }

  /**
    A reader whose schema stops at `v`, and one that knows later fields as well, look for
    a field of `v` or older at the same bit.
    */
  lemma {:induction false} CutMovesNoBit(fs: seq<Version>, v: Version, i: nat)
    requires i < |fs| && v.AtLeast(fs[i])
    ensures var k := |Cut(fs[..i], v)|;
            k < |Cut(fs, v)| && BitOf(Cut(fs, v), k) == BitOf(fs, i)
  {
    CutPosition(fs, v, i);
    CutCounts(fs, v, fs[i]);
    CutCounts(fs[..i], v, fs[i]);
  }

  /** The bits of the fields a version lacks lie above the bits of all fields it has. */
  lemma {:induction false} LaterBitsAreHigher(fs: seq<Version>, v: Version, i: nat)
    requires i < |fs|
    ensures BitOf(fs, i) < |Cut(fs, v)| <==> v.AtLeast(fs[i])
  {
    if v.AtLeast(fs[i]) {
      CutMovesNoBit(fs, v, i);
      BitOfBelow(Cut(fs, v), |Cut(fs[..i], v)|);
    } else {
      CutBelowOlder(fs, v, fs[i]);
    }
  }

  lemma {:induction false} CutBelowOlder(fs: seq<Version>, v: Version, u: Version)
    requires v.Before(u)
    ensures |Cut(fs, v)| <= Older(fs, u)
  {
    if fs != [] {
      CutBelowOlder(fs[..|fs| - 1], v, u);
    }
  }

  // ---------------------------------------------------------------- the assignment

  /** The positions of the fields of version `v`. */
  function Positions(fs: seq<Version>, v: Version): (r: seq<nat>)
    ensures |r| == Same(fs, v)
    ensures forall k :: 0 <= k < |r| ==> r[k] < |fs| && fs[r[k]] == v
  {
    if fs == [] then []
    else Positions(fs[..|fs| - 1], v) + if fs[|fs| - 1] == v then [|fs| - 1] else []
  }

  lemma {:induction false} PositionsCount(fs: seq<Version>, v: Version, i: nat)
    requires i < |fs| && fs[i] == v
    ensures Same(fs[..i], v) < |Positions(fs, v)| && Positions(fs, v)[Same(fs[..i], v)] == i
  {
    var init := fs[..|fs| - 1];
    if i < |fs| - 1 {
      assert init[..i] == fs[..i];
      PositionsCount(init, v, i);
    }
  }

  lemma {:induction false} PositionsRank(fs: seq<Version>, v: Version, k: nat)
    requires k < |Positions(fs, v)|
    ensures var i := Positions(fs, v)[k]; Same(fs[..i], v) == k
  {
    var init := fs[..|fs| - 1];
    if k < |Positions(init, v)| {
      var i := Positions(init, v)[k];
      assert init[..i] == fs[..i];
      PositionsRank(init, v, k);
    }
  }

  function CountIn(fs: seq<Version>, done: set<Version>): nat {
    if fs == [] then 0
    else CountIn(fs[..|fs| - 1], done) + if fs[|fs| - 1] in done then 1 else 0
  }

  lemma {:induction false} NoneIn(fs: seq<Version>)
    ensures CountIn(fs, {}) == 0
  {
    if fs != [] {
      NoneIn(fs[..|fs| - 1]);
    }
  }

  lemma {:induction false} CountInIsOlder(fs: seq<Version>, done: set<Version>, v: Version)
    requires forall j :: 0 <= j < |fs| ==> (fs[j] in done <==> fs[j].Before(v))
    ensures CountIn(fs, done) == Older(fs, v)
  {
    if fs != [] {
      CountInIsOlder(fs[..|fs| - 1], done, v);
    }
  }

  lemma {:induction false} CountInGrows(fs: seq<Version>, done: set<Version>, v: Version)
    requires v !in done
    ensures CountIn(fs, done + {v}) == CountIn(fs, done) + Same(fs, v)
  {
    if fs != [] {
      CountInGrows(fs[..|fs| - 1], done, v);
    }
  }

  predicate IsOldest(fs: seq<Version>, v: Version) {
    v in fs && forall u :: u in fs ==> u == v || v.Before(u)
  }

  function Oldest(fs: seq<Version>): (v: Version)
    requires fs != []
    ensures IsOldest(fs, v)
  {
    if |fs| == 1 then fs[0]
    else
      var tail := Oldest(fs[1..]);
      assert fs == [fs[0]] + fs[1..];
      if tail.Before(fs[0]) then tail else fs[0]
  }

  /** The first key of an ordered map. */
  method LeastVersion(vs: set<Version>) returns (least: Version)
    requires vs != {}
    ensures least in vs && forall v :: v in vs ==> v == least || least.Before(v)
  {
    least :| least in vs;
    var rest := vs - {least};
    while rest != {}
      invariant rest <= vs && least in vs
      invariant forall v :: v in vs && v !in rest ==> v == least || least.Before(v)
    {
      var v :| v in rest;
      if v.Before(least) {
        least := v;
      }
      rest := rest - {v};
    }
  }

  lemma {:induction false} PositionsStep(fs: seq<Version>, i: nat, v: Version)
    requires i < |fs|
    ensures Positions(fs[..i + 1], v) == Positions(fs[..i], v) + if fs[i] == v then [i] else []
  {
    assert fs[..i + 1][..i] == fs[..i];
  }

  method GroupByVersion(fs: seq<Version>) returns (groups: map<Version, seq<nat>>)
    ensures forall v :: v in groups <==> v in fs
    ensures forall v :: v in groups ==> groups[v] == Positions(fs, v)
  {
    groups := map[];
    for i := 0 to |fs|
      invariant forall v :: v in groups <==> v in fs[..i]
      invariant forall v :: Positions(fs[..i], v) == if v in groups then groups[v] else []
    {
      forall v ensures Positions(fs[..i + 1], v) == Positions(fs[..i], v) + if fs[i] == v then [i] else [] {
        PositionsStep(fs, i, v);
      }
      assert fs[..i + 1] == fs[..i] + [fs[i]];
      groups := groups[fs[i] := (if fs[i] in groups then groups[fs[i]] else []) + [i]];
    }
    assert fs[..|fs|] == fs;
  }

  /** `bits` gives exactly the fields of the versions in `done` their bit. */
  ghost predicate Assigned(fs: seq<Version>, bits: map<nat, nat>, done: set<Version>) {
    forall i: nat :: (i in bits <==> i < |fs| && fs[i] in done) && (i in bits ==> bits[i] == BitOf(fs, i))
  }

  /** Groups the fields by version and numbers them group by group, oldest version first. */
  method AssignBits(fs: seq<Version>) returns (bits: map<nat, nat>, minVersion: Option<Version>)
    ensures forall i: nat :: i in bits <==> i < |fs|
    ensures forall i :: i in bits ==> bits[i] == BitOf(fs, i)
    ensures minVersion == if fs == [] then None else Some(Oldest(fs))
  {
    var groups := GroupByVersion(fs);
    bits := NumberGroups(fs, groups);
    minVersion := OldestGroup(fs, groups);
  }

  method OldestGroup(fs: seq<Version>, groups: map<Version, seq<nat>>) returns (minVersion: Option<Version>)
    requires forall v :: v in groups <==> v in fs
    ensures minVersion == if fs == [] then None else Some(Oldest(fs))
  {
    assert fs != [] ==> fs[0] in groups.Keys;
    if groups.Keys == {} {
      return None;
    }
    var first := LeastVersion(groups.Keys);
    minVersion := Some(first);
  }

  method NumberGroups(fs: seq<Version>, groups: map<Version, seq<nat>>) returns (bits: map<nat, nat>)
    requires forall v :: v in groups <==> v in fs
    requires forall v :: v in groups ==> groups[v] == Positions(fs, v)
    ensures Assigned(fs, bits, groups.Keys)
  {
    hide BitOf, Older, CountIn, Same, Positions;
    bits := map[];
    var rest, bitIndex: nat := groups.Keys, 0;
    ghost var done: set<Version> := {};
    NoneIn(fs);
    while rest != {}
      invariant done + rest == groups.Keys
      invariant forall u, v :: u in done && v in rest ==> u.Before(v)
      invariant bitIndex == CountIn(fs, done)
      invariant Assigned(fs, bits, done)
    {
      var v := LeastVersion(rest);
      assert v !in done;
      DoneIsOlder(fs, done, rest, v);
      CountInGrows(fs, done, v);
      bits, bitIndex := AssignGroup(fs, v, groups[v], bits, bitIndex, done);
      rest, done := rest - {v}, done + {v};
    }
  }

  lemma {:induction false} DoneIsOlder(fs: seq<Version>, done: set<Version>, rest: set<Version>, v: Version)
    requires forall u :: u in fs ==> u in done || u in rest
    requires v in rest && forall u :: u in rest ==> u == v || v.Before(u)
    requires forall u :: u in done ==> u.Before(v)
    ensures CountIn(fs, done) == Older(fs, v)
  {
    CountInIsOlder(fs, done, v);
  }

  method AssignGroup(fs: seq<Version>, v: Version, group: seq<nat>, bits: map<nat, nat>, bitIndex: nat,
                     ghost done: set<Version>)
    returns (bits': map<nat, nat>, bitIndex': nat)
    requires group == Positions(fs, v) && bitIndex == Older(fs, v)
    requires v !in done && Assigned(fs, bits, done)
    ensures Assigned(fs, bits', done + {v})
    ensures bitIndex' == bitIndex + Same(fs, v)
  {
    bits', bitIndex' := bits, bitIndex;
    for k := 0 to |group|
      invariant bitIndex' == bitIndex + k
      invariant forall i: nat :: i in bits' <==> i in bits || i in group[..k]
      invariant forall i :: i in bits' ==> bits'[i] == BitOf(fs, i)
    {
      PositionsRank(fs, v, k);
      bits' := bits'[group[k] := bitIndex'];
      bitIndex' := bitIndex' + 1;
    }
    forall i: nat | i < |fs| && fs[i] == v ensures i in group {
      PositionsCount(fs, v, i);
    }
  }

  // ---------------------------------------------------------------- the flag word

  /** The flag word after the first `n` fields; `present` says which ones are there. */
  function FlagsUpTo(fs: seq<Version>, present: seq<bool>, n: nat): nat
    requires |present| == |fs| && n <= |fs|
  {
    if n == 0 then 0
    else if present[n - 1] then SetBit(FlagsUpTo(fs, present, n - 1), BitOf(fs, n - 1))
    else FlagsUpTo(fs, present, n - 1)
  }

  function Flags(fs: seq<Version>, present: seq<bool>): nat
    requires |present| == |fs|
  {
    FlagsUpTo(fs, present, |fs|)
  }

  lemma {:induction false} FlagsUpToHas(fs: seq<Version>, present: seq<bool>, n: nat, i: nat)
    requires |present| == |fs| && n <= |fs| && i < |fs|
    ensures HasBit(FlagsUpTo(fs, present, n), BitOf(fs, i)) <==> i < n && present[i]
  {
    ZeroHasNoBits(BitOf(fs, i));
    if n > 0 {
      FlagsUpToHas(fs, present, n - 1, i);
      SetBitSets(FlagsUpTo(fs, present, n - 1), BitOf(fs, n - 1), BitOf(fs, i));
      BitsDiffer(fs, n - 1, i);
    }
  }

  lemma {:induction false} FlagsUpToBelow(fs: seq<Version>, present: seq<bool>, n: nat)
    requires |present| == |fs| && n <= |fs|
    ensures FlagsUpTo(fs, present, n) < Pow2(|fs|)
  {
    if n > 0 {
      FlagsUpToBelow(fs, present, n - 1);
      BitOfBelow(fs, n - 1);
      SetBitBelow(FlagsUpTo(fs, present, n - 1), BitOf(fs, n - 1), |fs|);
    }
  }

  /** Every field's presence can be read off its own bit, and at most 64 fields fit one word. */
  lemma {:induction false} FlagsRoundTrip(fs: seq<Version>, present: seq<bool>, i: nat)
    requires |present| == |fs| && i < |fs|
    ensures HasBit(Flags(fs, present), BitOf(fs, i)) <==> present[i]
    ensures |fs| <= 64 ==> Flags(fs, present) < TWO_TO_THE_64
  {
    FlagsUpToHas(fs, present, |fs|, i);
    FlagsUpToBelow(fs, present, |fs|);
    Pow2Values();
    if |fs| <= 64 {
      Pow2Monotone(|fs|, 64);
    }
  }
}
