/**
  Tile, tensor view and view types, and their verifiers. The verifiers are loops over the
  shape; each is proved to decide the mathematical property it stands for.
  */
module Views {
  import opened Base

  /** A size that is only known when the program runs. */
  const DYNAMIC := -0x8000_0000_0000_0000

  const MAX_INT32 := 0x7fff_ffff

  const MAX_TILE_ELEMENTS := 16777216

  datatype Padding = Zero | NegZero | Nan | PosInf | NegInf

  /** `Named` stands for the types without parameters; F4 packs two elements into a byte. */
  datatype Type =
    | Named(name: string)
    | Pointer(pointee: Type, ptrAttr: Option<nat>)
    | Tile(shape: seq<int>, elem: Type)
    | TensorView(elem: Type, shape: seq<int>, strides: seq<int>, ptrAttr: Option<nat>)
    | PartitionView(tile: seq<int>, view: Type, dimMap: seq<int>, padding: Option<Padding>)
    | StridedView(tile: seq<int>, traversal: seq<int>, view: Type, dimMap: seq<int>, padding: Option<Padding>)
    | GatherScatterView(tile: seq<int>, view: Type, sparseDim: nat, padding: Option<Padding>)

  const F4 := Named("f4E2M1FN")

  const FLOATS := {"f16", "bf16", "f32", "tf32", "f64", "f8E4M3FN", "f8E5M2", "f8E8M0FNU", "f8E5M3FNU", "f4E2M1FN"}

  predicate Floating(ty: Type) {
    ty.Named? && ty.name in FLOATS
  }

  predicate AllPositive(xs: seq<int>) {
    forall i :: 0 <= i < |xs| ==> xs[i] > 0
  }

  function Product(shape: seq<int>): int {
    if shape == [] then 1 else Product(shape[..|shape| - 1]) * shape[|shape| - 1]
  }

  ghost predicate IsPowerOfTwo(n: int) {
    exists k: nat :: n == Pow2(k)
  }

  // ---------------------------------------------------------------- powers of two

  /** a & b. */
  function And(a: nat, b: nat): nat
    decreases a + b
  {
    if a == 0 || b == 0 then 0 else (if a % 2 == 1 && b % 2 == 1 then 1 else 0) + 2 * And(a / 2, b / 2)
  }

  lemma {:induction false} AndSame(a: nat)
    ensures And(a, a) == a
  {
    if a > 0 {
      AndSame(a / 2);
    }
  }

  lemma {:induction false} DoubleIsPower(n: int)
    requires n >= 1
    ensures IsPowerOfTwo(2 * n) <==> IsPowerOfTwo(n)
  {
    if IsPowerOfTwo(n) {
      var k: nat :| n == Pow2(k);
      assert 2 * n == Pow2(k + 1);
    }
    if IsPowerOfTwo(2 * n) {
      var k: nat :| 2 * n == Pow2(k);
      assert k > 0 && n == Pow2(k - 1);
    }
  }

  lemma {:induction false} OddPower(k: nat)
    requires Pow2(k) % 2 == 1
    ensures Pow2(k) == 1
  {
  }

  /** The mask test of the verifier. */
  lemma {:induction false} MaskTest(d: int)
    requires d > 0
    ensures And(d, d - 1) == 0 <==> IsPowerOfTwo(d)
  {
    if d % 2 == 0 {
      var m := d / 2;
      MaskTest(m);
      DoubleIsPower(m);
      assert And(d, d - 1) == 2 * And(m, m - 1);
    } else if d == 1 {
      assert d == Pow2(0);
    } else {
      AndSame(d / 2);
      assert And(d, d - 1) == 2 * And(d / 2, d / 2);
      forall k: nat | d == Pow2(k) ensures false {
        OddPower(k);
      }
    }
  }

  // ---------------------------------------------------------------- element counts

  lemma {:induction false} ProductParity(shape: seq<int>)
    ensures Product(shape) % 2 == 0 <==> exists i :: 0 <= i < |shape| && shape[i] % 2 == 0
  {
    if shape != [] {
      var init, last := shape[..|shape| - 1], shape[|shape| - 1];
      ProductParity(init);
      Parity(Product(init), last);
      if i :| 0 <= i < |shape| && shape[i] % 2 == 0 {
        assert i < |init| ==> init[i] % 2 == 0;
      }
    }
  }

  lemma {:induction false} Parity(a: int, b: int)
    ensures a * b % 2 == 0 <==> a % 2 == 0 || b % 2 == 0
  {
    if a % 2 == 0 {
      assert a * b == 2 * (a / 2 * b);
    } else if b % 2 == 0 {
      assert a * b == 2 * (a * (b / 2));
    } else {
      var m, n := a / 2, b / 2;
      assert a == 2 * m + 1 && b == 2 * n + 1;
      assert a * b == 2 * (2 * (m * n) + m + n) + 1;
    }
  }

  /** The test for packed elements: some dimension is even. */
  method HasEvenDim(shape: seq<int>) returns (ok: bool)
    ensures ok <==> Product(shape) % 2 == 0
  {
    ProductParity(shape);
    ok := false;
    for i := 0 to |shape|
      invariant ok <==> exists j :: 0 <= j < i && shape[j] % 2 == 0
    {
      ok := ok || shape[i] % 2 == 0;
    }
  }

  ghost predicate SizeOk(shape: seq<int>) {
    (forall i :: 0 <= i < |shape| ==> shape[i] > 0 && IsPowerOfTwo(shape[i])) && Product(shape) <= MAX_TILE_ELEMENTS
  }

  lemma {:induction false} ProductPositive(shape: seq<int>)
    requires AllPositive(shape)
    ensures Product(shape) >= 1
  {
    if shape != [] {
      ProductPositive(shape[..|shape| - 1]);
      MulAtLeast(Product(shape[..|shape| - 1]), shape[|shape| - 1]);
    }
  }

  lemma {:induction false} MulAtLeast(a: int, b: int)
    requires a >= 1 && b >= 1
    ensures a * b >= a && a * b >= 1
  {
    assert a * b == a * (b - 1) + a;
    assert a * (b - 1) >= 0;
  }

  /** Products only grow: a prefix that is too large is too large for good. */
  lemma {:induction false} PrefixBelow(shape: seq<int>, i: nat)
    requires i <= |shape| && AllPositive(shape)
    ensures Product(shape[..i]) <= Product(shape)
  {
    if i == |shape| {
      assert shape[..i] == shape;
    } else {
      var init := shape[..|shape| - 1];
      PrefixBelow(init, i);
      assert init[..i] == shape[..i];
      ProductPositive(init);
      MulAtLeast(Product(init), shape[|shape| - 1]);
    }
  }

  /** The guard in front of the multiplication never overflows and is exact. */
  lemma {:induction false} GuardIsExact(n: nat, max: nat, dim: nat)
    requires dim > 0
    ensures n > max / dim <==> n * dim > max
  {
    var q, r := max / dim, max % dim;
    assert max == dim * q + r;
    if n > q {
      MulMono(dim, q + 1, n);
      assert dim * (q + 1) == dim * q + dim;
    } else {
      MulMono(dim, n, q);
    }
  }

  lemma {:induction false} MulMono(d: nat, a: int, b: int)
    requires a <= b
    ensures d * a <= d * b
  {
    assert d * (b - a) >= 0;
  }

  lemma {:induction false} ProductStep(shape: seq<int>, i: nat)
    requires i < |shape|
    ensures Product(shape[..i + 1]) == Product(shape[..i]) * shape[i]
  {
    assert shape[..i + 1][..i] == shape[..i];
  }

  method VerifyTileSize(shape: seq<int>) returns (ok: bool)
    ensures ok <==> SizeOk(shape)
  {
    hide Product, IsPowerOfTwo;
    NoDims();
    var elements := 1;
    for i := 0 to |shape|
      invariant forall j :: 0 <= j < i ==> shape[j] > 0 && IsPowerOfTwo(shape[j])
      invariant elements == Product(shape[..i]) && 1 <= elements <= MAX_TILE_ELEMENTS
    {
      var dim := shape[i];
      if dim <= 0 {
        return false;
      }
      MaskTest(dim);
      if And(dim, dim - 1) != 0 {
        return false;
      }
      GuardIsExact(elements, MAX_TILE_ELEMENTS, dim);
      ProductStep(shape, i);
      MulAtLeast(elements, dim);
      if elements > MAX_TILE_ELEMENTS / dim {
        if SizeOk(shape) {
          PrefixBelow(shape, i + 1);
        }
        return false;
      }
      elements := elements * dim;
    }
    assert shape[..|shape|] == shape;
    ok := true;
  }

  lemma {:induction false} NoDims()
    ensures Product([]) == 1
  {
  }

  /** A tile: packed elements come in pairs, and the size is bounded. */
  ghost predicate TileOk(shape: seq<int>, elem: Type) {
    (elem == F4 ==> Product(shape) % 2 == 0) && SizeOk(shape)
  }

  method VerifyTile(shape: seq<int>, elem: Type) returns (ok: bool)
    ensures ok <==> TileOk(shape, elem)
  {
    if elem == F4 {
      var even := HasEvenDim(shape);
      if !even {
        return false;
      }
    }
    ok := VerifyTileSize(shape);
  }

  // ---------------------------------------------------------------- permutations

  function Iota(n: nat): (r: seq<int>)
    ensures |r| == n && forall i :: 0 <= i < n ==> r[i] == i
  {
    seq(n, (i: nat) => i)
  }

  /** Every tile dimension has its own dimension of the tensor view. */
  ghost predicate IsPermutation(xs: seq<int>) {
    multiset(xs) == multiset(Iota(|xs|))
  }

  predicate InRange(xs: seq<int>, n: nat) {
    forall i :: 0 <= i < |xs| ==> 0 <= xs[i] < n
  }

  predicate NoRepetition(xs: seq<int>) {
    forall i, j :: 0 <= i < j < |xs| ==> xs[i] != xs[j]
  }

  lemma {:induction false} CountedOnce(xs: seq<int>, x: int)
    requires NoRepetition(xs)
    ensures multiset(xs)[x] == if x in xs then 1 else 0
  {
    if xs != [] {
      var init, last := xs[..|xs| - 1], xs[|xs| - 1];
      CountedOnce(init, x);
      assert xs == init + [last];
      assert last !in init;
    }
  }

  lemma {:induction false} CountedTwice(xs: seq<int>, i: nat, j: nat)
    requires i < j < |xs| && xs[i] == xs[j]
    ensures multiset(xs)[xs[i]] >= 2
  {
    assert xs == xs[..j] + [xs[j]] + xs[j + 1..];
    assert xs[j] in xs[..j] by {
      assert xs[..j][i] == xs[j];
    }
  }

  /** Distinct numbers below n: as many as there are, they are all of them. */
  lemma {:induction false} AllAreHit(xs: seq<int>, s: set<int>)
    requires NoRepetition(xs) && (forall i :: 0 <= i < |xs| ==> xs[i] in s) && |xs| == |s|
    ensures forall x :: x in s ==> x in xs
  {
    if xs != [] {
      var init, last := xs[..|xs| - 1], xs[|xs| - 1];
      forall i | 0 <= i < |init| ensures init[i] in s - {last} {
        assert init[i] == xs[i];
      }
      AllAreHit(init, s - {last});
      forall x | x in s ensures x in xs {
        assert x == last || x in init;
      }
    }
  }

  function Below(n: nat): (s: set<int>)
    ensures |s| == n && forall x :: x in s <==> 0 <= x < n
  {
    if n == 0 then {} else Below(n - 1) + {n - 1}
  }

  /** The two tests of the loop characterise the permutations. */
  lemma {:induction false} PermutationIff(xs: seq<int>)
    ensures InRange(xs, |xs|) && NoRepetition(xs) <==> IsPermutation(xs)
  {
    var all := Iota(|xs|);
    if InRange(xs, |xs|) && NoRepetition(xs) {
      AllAreHit(xs, Below(|xs|));
      forall x ensures multiset(xs)[x] == multiset(all)[x] {
        CountedOnce(xs, x);
        CountedOnce(all, x);
        assert x in all <==> 0 <= x < |xs| by {
          if 0 <= x < |xs| { assert all[x] == x; }
        }
      }
      assert multiset(xs) == multiset(all);
    }
    if IsPermutation(xs) {
      forall i | 0 <= i < |xs| ensures 0 <= xs[i] < |xs| {
        assert xs[i] in multiset(xs);
        assert xs[i] in all;
      }
      forall i, j | 0 <= i < j < |xs| ensures xs[i] != xs[j] {
        if xs[i] == xs[j] {
          CountedTwice(xs, i, j);
          CountedOnce(all, xs[i]);
        }
      }
    }
  }

  /** The loop over the dimension map, with the tile dimension each target was used by. */
  method VerifyDimMap(dimMap: seq<int>, rank: nat) returns (ok: bool)
    requires |dimMap| == rank
    ensures ok <==> IsPermutation(dimMap)
  {
    PermutationIff(dimMap);
    var used := new Option<nat>[rank](_ => None);
    for i := 0 to rank
      invariant InRange(dimMap[..i], rank) && NoRepetition(dimMap[..i])
      invariant forall d :: 0 <= d < rank ==> (used[d].Some? <==> d in dimMap[..i])
    {
      var target := dimMap[i];
      if target < 0 || target >= rank {
        return false;
      }
      if used[target].Some? {
        assert target in dimMap[..i];
        return false;
      }
      used[target] := Some(i);
      assert dimMap[..i + 1] == dimMap[..i] + [target];
    }
    assert dimMap[..rank] == dimMap;
    ok := true;
  }

  // ---------------------------------------------------------------- views

  predicate StaticOrDynamic(xs: seq<int>) {
    forall i :: 0 <= i < |xs| ==> xs[i] > 0 || xs[i] == DYNAMIC
  }

  predicate TensorViewOk(shape: seq<int>, strides: seq<int>, ptrAttr: Option<nat>) {
    (ptrAttr.Some? ==> ptrAttr.value == 0) && |shape| == |strides| && StaticOrDynamic(shape) && StaticOrDynamic(strides)
  }

  /** Infinities, NaN and negative zero need floating point elements. */
  predicate PaddingOk(padding: Option<Padding>, elem: Type) {
    padding.Some? && !padding.value.Zero? ==> Floating(elem)
  }

  /** What a view asks of its tile. */
  ghost predicate ViewTileOk(tile: seq<int>, view: Type, padding: Option<Padding>) {
    && view.TensorView? && 0 < |tile| <= MAX_INT32 && |tile| == |view.shape|
    && TileOk(tile, view.elem) && PaddingOk(padding, view.elem)
  }

  ghost predicate GridViewOk(tile: seq<int>, view: Type, dimMap: seq<int>, padding: Option<Padding>) {
    ViewTileOk(tile, view, padding) && |dimMap| == |tile| && IsPermutation(dimMap)
  }

  /** The verifier of every type; a type is verified when it is made from its parts. */
  ghost predicate Accepted(ty: Type) {
    match ty
    case Named(_) => true
    case Pointer(_, _) => true
    case Tile(shape, elem) => TileOk(shape, elem)
    case TensorView(_, shape, strides, ptrAttr) => TensorViewOk(shape, strides, ptrAttr)
    case PartitionView(tile, view, dimMap, padding) => GridViewOk(tile, view, dimMap, padding)
    case StridedView(tile, traversal, view, dimMap, padding) =>
      GridViewOk(tile, view, dimMap, padding) && |traversal| == |tile| && AllPositive(traversal)
    case GatherScatterView(tile, view, sparseDim, padding) => ViewTileOk(tile, view, padding) && sparseDim < |tile|
  }

  /** The checks all grid-like views share, in the order of the verifier. */
  method VerifyPartitionViewLike(tile: seq<int>, view: Type, dimMap: seq<int>, padding: Option<Padding>) returns (ok: bool)
    requires view.TensorView?
    ensures ok <==> GridViewOk(tile, view, dimMap, padding)
  {
    hide IsPowerOfTwo, IsPermutation, Product;
    if tile == [] || |tile| != |view.shape| || |tile| > MAX_INT32 || |dimMap| != |tile| {
      return false;
    }
    for i := 0 to |tile|
      invariant forall j :: 0 <= j < i ==> tile[j] > 0
    {
      if tile[i] <= 0 {
        return false;
      }
    }
    for i := 0 to |tile|
      invariant forall j :: 0 <= j < i ==> IsPowerOfTwo(tile[j])
    {
      MaskTest(tile[i]);
      if And(tile[i], tile[i] - 1) != 0 {
        return false;
      }
    }
    var permuted := VerifyDimMap(dimMap, |view.shape|);
    if !permuted {
      return false;
    }
    var tileOk := VerifyTile(tile, view.elem);
    ok := tileOk && !(padding.Some? && !padding.value.Zero? && !Floating(view.elem));
  }

  method VerifyStridedView(tile: seq<int>, traversal: seq<int>, view: Type, dimMap: seq<int>, padding: Option<Padding>)
    returns (ok: bool)
    requires view.TensorView?
    ensures ok <==> Accepted(StridedView(tile, traversal, view, dimMap, padding))
  {
    ok := VerifyPartitionViewLike(tile, view, dimMap, padding);
    if !ok || |tile| != |traversal| {
      return false;
    }
    for i := 0 to |traversal|
      invariant AllPositive(traversal[..i])
    {
      if traversal[i] <= 0 {
        return false;
      }
    }
  }

  /** The checks of gather/scatter views: no dimension map, but one sparse dimension. */
  method VerifyGatherScatterView(tile: seq<int>, view: Type, sparseDim: nat, padding: Option<Padding>) returns (ok: bool)
    requires view.TensorView?
    ensures ok <==> Accepted(GatherScatterView(tile, view, sparseDim, padding))
  {
    hide IsPowerOfTwo, Product;
    if tile == [] || |tile| != |view.shape| || |tile| > MAX_INT32 {
      return false;
    }
    for i := 0 to |tile|
      invariant forall j :: 0 <= j < i ==> tile[j] > 0
    {
      if tile[i] <= 0 {
        return false;
      }
    }
    for i := 0 to |tile|
      invariant forall j :: 0 <= j < i ==> IsPowerOfTwo(tile[j])
    {
      MaskTest(tile[i]);
      if And(tile[i], tile[i] - 1) != 0 {
        return false;
      }
    }
    if sparseDim >= |view.shape| {
      return false;
    }
    var tileOk := VerifyTile(tile, view.elem);
    ok := tileOk && !(padding.Some? && !padding.value.Zero? && !Floating(view.elem));
  }

  /** The dimensions of an accepted tile are far below the limits of 32 bits. */
  lemma {:induction false} DimBelow(shape: seq<int>, i: nat)
    requires SizeOk(shape) && i < |shape|
    ensures 0 < shape[i] <= MAX_TILE_ELEMENTS
  {
    hide Product;
    PrefixBelow(shape, i + 1);
    ProductStep(shape, i);
    ProductPositive(shape[..i]);
    MulAtLeast(shape[i], Product(shape[..i]));
  }
}
