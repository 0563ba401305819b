/**
  The text of types, as tokens: printing, the recursive-descent parser, and the proof that
  a verified type is read back from its printed form with nothing left over.
  */
module TypeText {
  import opened Base
  import opened Views

  datatype Token =
    | Less | Greater | LeftSquare | RightSquare | LeftParen | RightParen
    | Comma | Equal | Question | Times | Number(n: nat) | Word(text: string) | Attribute(value: nat)

  type Tokens = seq<Token>

  const MAX_INT64 := 0x7fff_ffff_ffff_ffff

  const MNEMONICS := {"ptr", "tile", "tensor_view", "partition_view", "strided_view", "gather_scatter_view"}

  function PaddingName(p: Padding): string {
    match p
    case Zero => "zero"
    case NegZero => "neg_zero"
    case Nan => "nan"
    case PosInf => "pos_inf"
    case NegInf => "neg_inf"
  }

  function PaddingOf(name: string): (p: Option<Padding>)
    ensures p.Some? ==> PaddingName(p.value) == name
  {
    match name
    case "zero" => Some(Zero)
    case "neg_zero" => Some(NegZero)
    case "nan" => Some(Nan)
    case "pos_inf" => Some(PosInf)
    case "neg_inf" => Some(NegInf)
    case _ => None
  }

  // ---------------------------------------------------------------- printing

  function PrintSize(d: int): Token {
    if d < 0 then Question else Number(d)
  }

  /** Every dimension is followed by an x. */
  function PrintShape(shape: seq<int>): Tokens {
    if shape == [] then [] else [PrintSize(shape[0]), Times] + PrintShape(shape[1..])
  }

  /** Items with a separator between them. */
  function PrintList(xs: seq<int>, separator: Token): Tokens {
    if xs == [] then []
    else if |xs| == 1 then [PrintSize(xs[0])]
    else [PrintSize(xs[0]), separator] + PrintList(xs[1..], separator)
  }

  function PrintPadding(p: Option<Padding>): Tokens {
    if p.None? then [] else [Word("padding_value"), Equal, Word(PaddingName(p.value)), Comma]
  }

  function PrintAttr(a: Option<nat>): Tokens {
    if a.None? then [] else [Comma, Attribute(a.value)]
  }

  function PrintSquares(key: string, xs: seq<int>): Tokens {
    [Word(key), Equal, LeftSquare] + PrintList(xs, Comma) + [RightSquare]
  }

  function PrintTileShape(tile: seq<int>): Tokens {
    [Word("tile"), Equal, LeftParen] + PrintList(tile, Times) + [RightParen, Comma]
  }

  /** The identity is not printed. */
  function PrintDimMap(dimMap: seq<int>): Tokens {
    if dimMap == Iota(|dimMap|) then [] else [Comma] + PrintSquares("dim_map", dimMap)
  }

  function PrintSparseDim(d: nat): Tokens {
    [Comma, Word("sparse_dim"), Equal, Number(d)]
  }

  function PrintStrides(shape: seq<int>, strides: seq<int>): Tokens {
    if shape == [] then [] else [Comma] + PrintSquares("strides", strides)
  }

  function Print(ty: Type): Tokens {
    match ty
    case Named(name) => [Word(name)]
    case Pointer(pointee, ptrAttr) => [Word("ptr"), Less] + (Print(pointee) + (PrintAttr(ptrAttr) + [Greater]))
    case Tile(shape, elem) => [Word("tile"), Less] + (PrintShape(shape) + (Print(elem) + [Greater]))
    case TensorView(elem, shape, strides, ptrAttr) =>
      [Word("tensor_view"), Less] + (PrintShape(shape) + (Print(elem) +
        (PrintStrides(shape, strides) + (PrintAttr(ptrAttr) + [Greater]))))
    case PartitionView(tile, view, dimMap, padding) =>
      [Word("partition_view"), Less] + (PrintTileShape(tile) + (PrintPadding(padding) + (Print(view) +
        (PrintDimMap(dimMap) + [Greater]))))
    case StridedView(tile, traversal, view, dimMap, padding) =>
      [Word("strided_view"), Less] + (PrintTileShape(tile) + (PrintSquares("traversal_strides", traversal) + ([Comma] +
        (PrintPadding(padding) + (Print(view) + (PrintDimMap(dimMap) + [Greater]))))))
    case GatherScatterView(tile, view, sparseDim, padding) =>
      [Word("gather_scatter_view"), Less] + (PrintTileShape(tile) + (PrintPadding(padding) + (Print(view) +
        (PrintSparseDim(sparseDim) + [Greater]))))
  }

  // ---------------------------------------------------------------- parsing

  datatype Item = Static | Stride | Index32

  function Eat(prefix: Tokens, ts: Tokens): (r: Option<Tokens>)
    ensures r.Some? ==> |r.value| == |ts| - |prefix|
  {
    if prefix <= ts then Some(ts[|prefix|..]) else None
  }

  predicate StartsItem(ts: Tokens) {
    ts != [] && (ts[0].Number? || ts[0].Question?)
  }

  predicate StartsWith(t: Token, ts: Tokens) {
    ts != [] && ts[0] == t
  }

  function ParseItem(item: Item, ts: Tokens): (r: Option<(int, Tokens)>)
    ensures r.Some? ==> |r.value.1| < |ts|
  {
    if !StartsItem(ts) then None
    else if ts[0].Question? then (if item.Stride? then Some((DYNAMIC, ts[1..])) else None)
    else
      var n := ts[0].n;
      if n > (if item.Index32? then MAX_INT32 else MAX_INT64) || (item.Stride? && n == 0) then None
      else Some((n, ts[1..]))
  }

  /** A dimension list with a trailing x; question marks where `item` is a stride. */
  function ParseShape(dynamic: bool, ts: Tokens): (r: Option<(seq<int>, Tokens)>)
    ensures r.Some? ==> |r.value.1| <= |ts|
    decreases |ts|
  {
    if !StartsItem(ts) then Some(([], ts))
    else if ts[0].Question? && !dynamic then None
    else if ts[0].Number? && ts[0].n > MAX_INT64 then None
    else
      var rest :- Eat([Times], ts[1..]);
      var (tail, rest') :- ParseShape(dynamic, rest);
      Some(([if ts[0].Question? then DYNAMIC else ts[0].n] + tail, rest'))
  }

  function ParseList(item: Item, separator: Token, ts: Tokens): (r: Option<(seq<int>, Tokens)>)
    ensures r.Some? ==> |r.value.1| < |ts|
    decreases |ts|
  {
    var (x, rest) :- ParseItem(item, ts);
    if StartsWith(separator, rest) then
      var (tail, rest') :- ParseList(item, separator, rest[1..]);
      Some(([x] + tail, rest'))
    else Some(([x], rest))
  }

  function ParseSquares(key: string, item: Item, ts: Tokens): (r: Option<(seq<int>, Tokens)>)
    ensures r.Some? ==> |r.value.1| < |ts|
  {
    var rest :- Eat([Word(key), Equal, LeftSquare], ts);
    if StartsWith(RightSquare, rest) then Some(([], rest[1..]))
    else
      var (xs, rest') :- ParseList(item, Comma, rest);
      var rest'' :- Eat([RightSquare], rest');
      Some((xs, rest''))
  }

  predicate TileDims(tile: seq<int>) {
    forall i :: 0 <= i < |tile| ==> 0 < tile[i] <= MAX_INT32
  }

  function ParseTileShape(ts: Tokens): (r: Option<(seq<int>, Tokens)>)
    ensures r.Some? ==> |r.value.1| < |ts|
  {
    var rest :- Eat([Word("tile"), Equal, LeftParen], ts);
    var (tile, rest') :- if StartsItem(rest) then ParseList(Static, Times, rest) else Some(([], rest));
    var rest'' :- Eat([RightParen, Comma], rest');
    if TileDims(tile) then Some((tile, rest'')) else None
  }

  function ParsePadding(ts: Tokens): (r: Option<(Option<Padding>, Tokens)>)
    ensures r.Some? ==> |r.value.1| <= |ts|
  {
    if !StartsWith(Word("padding_value"), ts) then Some((None, ts))
    else
      var rest :- Eat([Equal], ts[1..]);
      if rest == [] || !rest[0].Word? then None else
      var p :- PaddingOf(rest[0].text);
      var rest' :- Eat([Comma], rest[1..]);
      Some((Some(p), rest'))
  }

  function ParseAttr(ts: Tokens): (r: Option<(Option<nat>, Tokens)>)
    ensures r.Some? ==> |r.value.1| <= |ts|
  {
    if !StartsWith(Comma, ts) then Some((None, ts))
    else if |ts| < 2 || !ts[1].Attribute? then None
    else Some((Some(ts[1].value), ts[2..]))
  }

  function ParseDimMap(rank: nat, ts: Tokens): (r: Option<(seq<int>, Tokens)>)
    ensures r.Some? ==> |r.value.1| <= |ts|
  {
    if StartsWith(Comma, ts) then ParseSquares("dim_map", Index32, ts[1..]) else Some((Iota(rank), ts))
  }

  /** Strides follow the element type unless there are no dimensions. */
  function ParseStrides(shape: seq<int>, ts: Tokens): (r: Option<(seq<int>, Tokens)>)
    ensures r.Some? ==> |r.value.1| <= |ts|
  {
    if shape == [] then Some(([], ts))
    else
      var rest :- Eat([Comma], ts);
      ParseSquares("strides", Stride, rest)
  }

  ghost function Close(ty: Type, ts: Tokens): (r: Option<(Type, Tokens)>)
    ensures r.Some? ==> |r.value.1| < |ts|
  {
    var rest :- Eat([Greater], ts);
    if Accepted(ty) then Some((ty, rest)) else None
  }

  ghost function Parse(ts: Tokens): (r: Option<(Type, Tokens)>)
    ensures r.Some? ==> |r.value.1| < |ts|
    decreases |ts|, 1
  {
    if ts == [] || !ts[0].Word? then None
    else if ts[0].text !in MNEMONICS then Some((Named(ts[0].text), ts[1..]))
    else
      var rest :- Eat([Less], ts[1..]);
      match ts[0].text
      case "ptr" => ParsePointer(rest)
      case "tile" => ParseTile(rest)
      case "tensor_view" => ParseTensorView(rest)
      case "partition_view" => ParsePartitionView(rest)
      case "strided_view" => ParseStridedView(rest)
      case _ => ParseGatherScatterView(rest)
  }

  ghost function ParsePointer(ts: Tokens): (r: Option<(Type, Tokens)>)
    ensures r.Some? ==> |r.value.1| < |ts|
    decreases |ts|, 2
  {
    var (pointee, rest) :- Parse(ts);
    var (ptrAttr, rest') :- ParseAttr(rest);
    Close(Pointer(pointee, ptrAttr), rest')
  }

  ghost function ParseTile(ts: Tokens): (r: Option<(Type, Tokens)>)
    ensures r.Some? ==> |r.value.1| < |ts|
    decreases |ts|, 2
  {
    var (shape, rest) :- ParseShape(false, ts);
    var (elem, rest') :- Parse(rest);
    Close(Tile(shape, elem), rest')
  }

  ghost function ParseTensorView(ts: Tokens): (r: Option<(Type, Tokens)>)
    ensures r.Some? ==> |r.value.1| < |ts|
    decreases |ts|, 2
  {
    var (shape, rest) :- ParseShape(true, ts);
    var (elem, rest1) :- Parse(rest);
    var (strides, rest2) :- ParseStrides(shape, rest1);
    var (ptrAttr, rest3) :- ParseAttr(rest2);
    Close(TensorView(elem, shape, strides, ptrAttr), rest3)
  }

  ghost function ParseView(ts: Tokens): (r: Option<(Type, Tokens)>)
    ensures r.Some? ==> |r.value.1| < |ts|
    decreases |ts|, 2
  {
    var (view, rest) :- Parse(ts);
    if view.TensorView? then Some((view, rest)) else None
  }

  ghost function ParsePartitionView(ts: Tokens): (r: Option<(Type, Tokens)>)
    ensures r.Some? ==> |r.value.1| < |ts|
    decreases |ts|, 3
  {
    var (tile, rest) :- ParseTileShape(ts);
    var (padding, rest1) :- ParsePadding(rest);
    var (view, rest2) :- ParseView(rest1);
    var (dimMap, rest3) :- ParseDimMap(|tile|, rest2);
    Close(PartitionView(tile, view, dimMap, padding), rest3)
  }

  ghost function ParseStridedView(ts: Tokens): (r: Option<(Type, Tokens)>)
    ensures r.Some? ==> |r.value.1| < |ts|
    decreases |ts|, 3
  {
    var (tile, rest) :- ParseTileShape(ts);
    var (traversal, rest1) :- ParseSquares("traversal_strides", Index32, rest);
    var rest2 :- Eat([Comma], rest1);
    var (padding, rest3) :- ParsePadding(rest2);
    var (view, rest4) :- ParseView(rest3);
    var (dimMap, rest5) :- ParseDimMap(|tile|, rest4);
    Close(StridedView(tile, traversal, view, dimMap, padding), rest5)
  }

  function ParseSparseDim(ts: Tokens): (r: Option<(nat, Tokens)>)
    ensures r.Some? ==> |r.value.1| <= |ts|
  {
    var rest :- Eat([Comma, Word("sparse_dim"), Equal], ts);
    if rest == [] || !rest[0].Number? || rest[0].n >= TWO_TO_THE_32 then None else Some((rest[0].n, rest[1..]))
  }

  ghost function ParseGatherScatterView(ts: Tokens): (r: Option<(Type, Tokens)>)
    ensures r.Some? ==> |r.value.1| < |ts|
    decreases |ts|, 3
  {
    var (tile, rest) :- ParseTileShape(ts);
    var (padding, rest1) :- ParsePadding(rest);
    var (view, rest2) :- ParseView(rest1);
    var (sparseDim, rest3) :- ParseSparseDim(rest2);
    Close(GatherScatterView(tile, view, sparseDim, padding), rest3)
  }

  // ---------------------------------------------------------------- round trip

  /** What the fields of a type can hold, and that every part of it was verified. */
  ghost predicate Verified(ty: Type) {
    && Accepted(ty)
    && match ty
       case Named(name) => name !in MNEMONICS && name != "padding_value"
       case Pointer(pointee, _) => Verified(pointee)
       case Tile(_, elem) => Verified(elem)
       case TensorView(elem, shape, strides, _) => Verified(elem) && Words(shape) && Words(strides)
       case PartitionView(_, view, _, _) => Verified(view)
       case StridedView(_, traversal, view, _, _) => Verified(view) && Int32s(traversal)
       case GatherScatterView(_, view, _, _) => Verified(view)
  }

  predicate Words(xs: seq<int>) {
    forall i :: 0 <= i < |xs| ==> xs[i] <= MAX_INT64
  }

  predicate Int32s(xs: seq<int>) {
    forall i :: 0 <= i < |xs| ==> 0 <= xs[i] <= MAX_INT32
  }

  predicate Readable(item: Item, x: int) {
    match item
    case Static => 0 <= x <= MAX_INT64
    case Stride => x == DYNAMIC || 0 < x <= MAX_INT64
    case Index32 => 0 <= x <= MAX_INT32
  }

  predicate AllReadable(item: Item, xs: seq<int>) {
    forall i :: 0 <= i < |xs| ==> Readable(item, xs[i])
  }

  lemma {:induction false} Assoc3(a: Tokens, b: Tokens, c: Tokens)
    ensures a + b + c == a + (b + c)
  {
  }

  lemma {:induction false} EatPrefix(prefix: Tokens, rest: Tokens)
    ensures Eat(prefix, prefix + rest) == Some(rest)
  {
  }

  lemma {:induction false} EatOne(t: Token, rest: Tokens)
    ensures ([t] + rest)[0] == t && ([t] + rest)[1..] == rest && Eat([t], [t] + rest) == Some(rest)
  {
  }

  lemma {:induction false} ShapeRoundTrip(dynamic: bool, shape: seq<int>, rest: Tokens)
    requires AllReadable(if dynamic then Stride else Static, shape) && !StartsItem(rest)
    ensures ParseShape(dynamic, PrintShape(shape) + rest) == Some((shape, rest))
  {
    if shape == [] {
      assert PrintShape(shape) + rest == rest;
    } else {
      var d, tail := PrintSize(shape[0]), PrintShape(shape[1..]);
      var ts := PrintShape(shape) + rest;
      assert ts == [d] + ([Times] + (tail + rest));
      EatOne(d, [Times] + (tail + rest));
      EatOne(Times, tail + rest);
      ShapeRoundTrip(dynamic, shape[1..], rest);
      assert Readable(if dynamic then Stride else Static, shape[0]);
      assert [shape[0]] + shape[1..] == shape;
    }
  }

  lemma {:induction false} ItemRoundTrip(item: Item, x: int, rest: Tokens)
    requires Readable(item, x)
    ensures ParseItem(item, [PrintSize(x)] + rest) == Some((x, rest))
  {
    EatOne(PrintSize(x), rest);
  }

  lemma {:induction false} ListRoundTrip(item: Item, separator: Token, xs: seq<int>, rest: Tokens)
    requires xs != [] && AllReadable(item, xs) && !StartsWith(separator, rest)
    ensures ParseList(item, separator, PrintList(xs, separator) + rest) == Some((xs, rest))
    decreases |xs|
  {
    hide ParseItem, PrintSize;
    assert Readable(item, xs[0]);
    if |xs| == 1 {
      ItemRoundTrip(item, xs[0], rest);
      assert [xs[0]] == xs;
    } else {
      var tail := PrintList(xs[1..], separator) + rest;
      assert PrintList(xs, separator) + rest == [PrintSize(xs[0])] + ([separator] + tail);
      ItemRoundTrip(item, xs[0], [separator] + tail);
      EatOne(separator, tail);
      ListRoundTrip(item, separator, xs[1..], rest);
      assert [xs[0]] + xs[1..] == xs;
    }
  }

  lemma {:induction false} ListStarts(xs: seq<int>, separator: Token, rest: Tokens)
    requires xs != []
    ensures StartsItem(PrintList(xs, separator) + rest)
  {
  }

  lemma {:induction false} SquaresRoundTrip(key: string, item: Item, xs: seq<int>, rest: Tokens)
    requires AllReadable(item, xs)
    ensures ParseSquares(key, item, PrintSquares(key, xs) + rest) == Some((xs, rest))
  {
    hide ParseList, PrintList;
    var front, list := [Word(key), Equal, LeftSquare], PrintList(xs, Comma);
    assert PrintSquares(key, xs) + rest == front + (list + ([RightSquare] + rest));
    EatPrefix(front, list + ([RightSquare] + rest));
    EatOne(RightSquare, rest);
    if xs == [] {
      EmptyList(Comma);
      assert list + ([RightSquare] + rest) == [RightSquare] + rest;
    } else {
      ListStarts(xs, Comma, [RightSquare] + rest);
      ListRoundTrip(item, Comma, xs, [RightSquare] + rest);
    }
  }

  lemma {:induction false} EmptyList(separator: Token)
    ensures PrintList([], separator) == []
  {
  }

  lemma {:induction false} TileShapeRoundTrip(tile: seq<int>, rest: Tokens)
    requires tile != [] && TileDims(tile)
    ensures ParseTileShape(PrintTileShape(tile) + rest) == Some((tile, rest))
  {
    hide ParseList, PrintList;
    var front, list, back := [Word("tile"), Equal, LeftParen], PrintList(tile, Times), [RightParen, Comma] + rest;
    assert PrintTileShape(tile) + rest == front + (list + back);
    EatPrefix(front, list + back);
    ListStarts(tile, Times, back);
    ListRoundTrip(Static, Times, tile, back);
    EatPrefix([RightParen, Comma], rest);
  }

  lemma {:induction false} PaddingRoundTrip(p: Option<Padding>, rest: Tokens)
    requires !StartsWith(Word("padding_value"), rest)
    ensures ParsePadding(PrintPadding(p) + rest) == Some((p, rest))
  {
    if p.None? {
      assert PrintPadding(p) + rest == rest;
    } else {
      var name := Word(PaddingName(p.value));
      assert PrintPadding(p) + rest == [Word("padding_value")] + ([Equal] + ([name] + ([Comma] + rest)));
      EatOne(Word("padding_value"), [Equal] + ([name] + ([Comma] + rest)));
      EatOne(Equal, [name] + ([Comma] + rest));
      EatOne(name, [Comma] + rest);
      EatOne(Comma, rest);
    }
  }

  lemma {:induction false} AttrRoundTrip(a: Option<nat>, rest: Tokens)
    ensures ParseAttr(PrintAttr(a) + ([Greater] + rest)) == Some((a, [Greater] + rest))
  {
    if a.None? {
      assert PrintAttr(a) + ([Greater] + rest) == [Greater] + rest;
    }
  }

  /** An elided map is the identity again. */
  lemma {:induction false} DimMapRoundTrip(dimMap: seq<int>, rest: Tokens)
    requires AllReadable(Index32, dimMap)
    ensures ParseDimMap(|dimMap|, PrintDimMap(dimMap) + ([Greater] + rest)) == Some((dimMap, [Greater] + rest))
  {
    hide ParseSquares, PrintSquares;
    var back := [Greater] + rest;
    if dimMap == Iota(|dimMap|) {
      assert PrintDimMap(dimMap) + back == back;
    } else {
      Assoc3([Comma], PrintSquares("dim_map", dimMap), back);
      EatOne(Comma, PrintSquares("dim_map", dimMap) + back);
      SquaresRoundTrip("dim_map", Index32, dimMap, back);
    }
  }

  lemma {:induction false} PrintStarts(ty: Type, rest: Tokens)
    ensures var ts := Print(ty) + rest; !StartsItem(ts) && !StartsWith(Comma, ts) && ts != [] && ts[0].Word?
    ensures ty.TensorView? ==> !StartsWith(Word("padding_value"), Print(ty) + rest)
  {
  }

  /** Everything inside the angle brackets, by the parser the mnemonic selects. */
  lemma {:induction false} Opened(name: string, body: Tokens)
    requires name in MNEMONICS
    ensures var ts := [Word(name), Less] + body;
            && ts[0] == Word(name) && Eat([Less], ts[1..]) == Some(body)
  {
    var ts := [Word(name), Less] + body;
    assert ts[1..] == [Less] + body;
    EatOne(Less, body);
  }

  lemma {:induction false} Closed(ty: Type, rest: Tokens)
    requires Accepted(ty)
    ensures Close(ty, [Greater] + rest) == Some((ty, rest))
  {
    hide Accepted;
    EatOne(Greater, rest);
  }

  lemma {:induction false} ViewRoundTrip(view: Type, rest: Tokens)
    requires view.TensorView? && Parse(Print(view) + rest) == Some((view, rest))
    ensures ParseView(Print(view) + rest) == Some((view, rest))
  {
  }

  lemma {:induction false} TileIsReadable(tile: seq<int>, view: Type, padding: Option<Padding>)
    requires ViewTileOk(tile, view, padding)
    ensures tile != [] && TileDims(tile)
  {
    hide IsPowerOfTwo, Product;
    forall i | 0 <= i < |tile| ensures 0 < tile[i] <= MAX_INT32 {
      DimBelow(tile, i);
    }
  }

  lemma {:induction false} DimMapIsReadable(dimMap: seq<int>)
    requires IsPermutation(dimMap) && |dimMap| <= MAX_INT32
    ensures AllReadable(Index32, dimMap)
  {
    PermutationIff(dimMap);
  }

  lemma {:induction false} ShapeIsReadable(xs: seq<int>)
    requires StaticOrDynamic(xs) && Words(xs)
    ensures AllReadable(Stride, xs)
  {
  }

  lemma {:induction false} TileElemsReadable(shape: seq<int>, elem: Type)
    requires TileOk(shape, elem)
    ensures AllReadable(Static, shape)
  {
    hide IsPowerOfTwo, Product;
    forall i | 0 <= i < |shape| ensures Readable(Static, shape[i]) {
      DimBelow(shape, i);
    }
  }

  /** Printing a verified type and parsing the text gives the type back and stops right behind it. */
  lemma {:induction false} TextRoundTrip(ty: Type, rest: Tokens)
    requires Verified(ty)
    ensures Parse(Print(ty) + rest) == Some((ty, rest))
    decreases ty
  {
    hide ParsePointer, ParseTile, ParseTensorView, ParsePartitionView, ParseStridedView, ParseGatherScatterView,
         Accepted;
    match ty
    case Named(name) => EatOne(Word(name), rest);
    case Pointer(pointee, ptrAttr) =>
      var back := PrintAttr(ptrAttr) + ([Greater] + rest);
      TextRoundTrip(pointee, back);
      PointerRoundTrip(ty, rest);
    case Tile(shape, elem) =>
      TextRoundTrip(elem, [Greater] + rest);
      TileRoundTrip(ty, rest);
    case TensorView(elem, shape, strides, ptrAttr) =>
      TextRoundTrip(elem, AfterElem(ty, rest));
      TensorViewRoundTrip(ty, rest);
    case PartitionView(tile, view, dimMap, padding) =>
      TextRoundTrip(view, PrintDimMap(dimMap) + ([Greater] + rest));
      PartitionViewRoundTrip(ty, rest);
    case StridedView(tile, traversal, view, dimMap, padding) =>
      TextRoundTrip(view, PrintDimMap(dimMap) + ([Greater] + rest));
      StridedViewRoundTrip(ty, rest);
    case GatherScatterView(tile, view, sparseDim, padding) =>
      TextRoundTrip(view, PrintSparseDim(sparseDim) + ([Greater] + rest));
      GatherScatterViewRoundTrip(ty, rest);
  }

  function AfterElem(ty: Type, rest: Tokens): Tokens
    requires ty.TensorView?
  {
    PrintStrides(ty.shape, ty.strides) + (PrintAttr(ty.ptrAttr) + ([Greater] + rest))
  }

  lemma {:induction false} PointerRoundTrip(ty: Type, rest: Tokens)
    requires ty.Pointer? && Accepted(ty)
    requires var back := PrintAttr(ty.ptrAttr) + ([Greater] + rest); Parse(Print(ty.pointee) + back) == Some((ty.pointee, back))
    ensures Parse(Print(ty) + rest) == Some((ty, rest))
  {
    hide Accepted, ParseAttr, PrintAttr, Close, Parse;
    var back := PrintAttr(ty.ptrAttr) + ([Greater] + rest);
    var body := Print(ty.pointee) + back;
    assert Print(ty) + rest == [Word("ptr"), Less] + body;
    Opened("ptr", body);
    AttrRoundTrip(ty.ptrAttr, rest);
    Closed(ty, rest);
    ParseIs("ptr", body);
  }

  lemma {:induction false} ParseIs(name: string, body: Tokens)
    requires name in MNEMONICS
    ensures Parse([Word(name), Less] + body) ==
            match name
            case "ptr" => ParsePointer(body)
            case "tile" => ParseTile(body)
            case "tensor_view" => ParseTensorView(body)
            case "partition_view" => ParsePartitionView(body)
            case "strided_view" => ParseStridedView(body)
            case _ => ParseGatherScatterView(body)
  {
    hide ParsePointer, ParseTile, ParseTensorView, ParsePartitionView, ParseStridedView, ParseGatherScatterView;
    Opened(name, body);
  }

  lemma {:induction false} TileRoundTrip(ty: Type, rest: Tokens)
    requires ty.Tile? && Accepted(ty) && Parse(Print(ty.elem) + ([Greater] + rest)) == Some((ty.elem, [Greater] + rest))
    ensures Parse(Print(ty) + rest) == Some((ty, rest))
  {
    TileElemsReadable(ty.shape, ty.elem);
    hide Accepted, PrintShape, ParseShape, Close, Parse;
    var inner := Print(ty.elem) + ([Greater] + rest);
    var body := PrintShape(ty.shape) + inner;
    assert Print(ty) + rest == [Word("tile"), Less] + body;
    ParseIs("tile", body);
    PrintStarts(ty.elem, [Greater] + rest);
    ShapeRoundTrip(false, ty.shape, inner);
    Closed(ty, rest);
  }

  lemma {:induction false} StridesRoundTrip(shape: seq<int>, strides: seq<int>, back: Tokens)
    requires |shape| == |strides| && AllReadable(Stride, strides)
    ensures ParseStrides(shape, PrintStrides(shape, strides) + back) == Some((strides, back))
  {
    hide ParseSquares, PrintSquares;
    if shape == [] {
      assert PrintStrides(shape, strides) + back == back;
    } else {
      Assoc3([Comma], PrintSquares("strides", strides), back);
      EatOne(Comma, PrintSquares("strides", strides) + back);
      SquaresRoundTrip("strides", Stride, strides, back);
    }
  }

  lemma {:induction false} Regroup2(head: Tokens, a: Tokens, b: Tokens, rest: Tokens)
    ensures head + (a + b) + rest == head + (a + (b + rest))
  {
  }

  lemma {:induction false} Regroup4(head: Tokens, a: Tokens, b: Tokens, c: Tokens, d: Tokens, rest: Tokens)
    ensures head + (a + (b + (c + d))) + rest == head + (a + (b + (c + (d + rest))))
  {
    Regroup2(head, a, b + (c + d), rest);
    Regroup2(b, c, d, rest);
  }

  lemma {:induction false} TensorViewText(ty: Type, rest: Tokens)
    requires ty.TensorView?
    ensures Print(ty) + rest == [Word("tensor_view"), Less] + (PrintShape(ty.shape) + (Print(ty.elem) + AfterElem(ty, rest)))
  {
    hide PrintShape, PrintStrides, PrintAttr;
    Regroup4([Word("tensor_view"), Less], PrintShape(ty.shape), Print(ty.elem), PrintStrides(ty.shape, ty.strides),
             PrintAttr(ty.ptrAttr) + [Greater], rest);
    Assoc3(PrintAttr(ty.ptrAttr), [Greater], rest);
  }

  lemma {:induction false} GatherScatterViewText(ty: Type, rest: Tokens)
    requires ty.GatherScatterView?
    ensures Print(ty) + rest == [Word("gather_scatter_view"), Less] + (PrintTileShape(ty.tile) + (PrintPadding(ty.padding) +
            (Print(ty.view) + (PrintSparseDim(ty.sparseDim) + ([Greater] + rest)))))
  {
    hide PrintTileShape, PrintPadding;
    var sparse := PrintSparseDim(ty.sparseDim);
    Regroup4([Word("gather_scatter_view"), Less], PrintTileShape(ty.tile), PrintPadding(ty.padding), Print(ty.view),
             sparse + [Greater], rest);
    Assoc3(sparse, [Greater], rest);
  }

  lemma {:induction false} PartitionViewText(ty: Type, rest: Tokens)
    requires ty.PartitionView?
    ensures Print(ty) + rest == [Word("partition_view"), Less] + (PrintTileShape(ty.tile) + (PrintPadding(ty.padding) +
            (Print(ty.view) + (PrintDimMap(ty.dimMap) + ([Greater] + rest)))))
  {
    hide PrintTileShape, PrintPadding, PrintDimMap;
    Regroup4([Word("partition_view"), Less], PrintTileShape(ty.tile), PrintPadding(ty.padding), Print(ty.view),
             PrintDimMap(ty.dimMap) + [Greater], rest);
    Assoc3(PrintDimMap(ty.dimMap), [Greater], rest);
  }

  lemma {:induction false} StridedViewText(ty: Type, rest: Tokens)
    requires ty.StridedView?
    ensures Print(ty) + rest == [Word("strided_view"), Less] + (PrintTileShape(ty.tile) +
            (PrintSquares("traversal_strides", ty.traversal) + ([Comma] + (PrintPadding(ty.padding) +
            (Print(ty.view) + (PrintDimMap(ty.dimMap) + ([Greater] + rest)))))))
  {
    hide PrintTileShape, PrintPadding, PrintDimMap, PrintSquares;
    var back := PrintDimMap(ty.dimMap) + [Greater];
    Regroup4([Word("strided_view"), Less], PrintTileShape(ty.tile), PrintSquares("traversal_strides", ty.traversal), [Comma],
             PrintPadding(ty.padding) + (Print(ty.view) + back), rest);
    Regroup2(PrintPadding(ty.padding), Print(ty.view), back, rest);
    Assoc3(PrintDimMap(ty.dimMap), [Greater], rest);
  }

  lemma {:induction false} TensorViewRoundTrip(ty: Type, rest: Tokens)
    requires ty.TensorView? && Accepted(ty) && Words(ty.shape) && Words(ty.strides)
    requires Parse(Print(ty.elem) + AfterElem(ty, rest)) == Some((ty.elem, AfterElem(ty, rest)))
    ensures Parse(Print(ty) + rest) == Some((ty, rest))
  {
    ShapeIsReadable(ty.shape);
    ShapeIsReadable(ty.strides);
    assert |ty.shape| == |ty.strides|;
    hide Accepted, PrintShape, ParseShape, Close, Parse, ParseStrides, PrintStrides, ParseAttr, PrintAttr, Print;
    var inner := Print(ty.elem) + AfterElem(ty, rest);
    var body := PrintShape(ty.shape) + inner;
    TensorViewText(ty, rest);
    ParseIs("tensor_view", body);
    PrintStarts(ty.elem, AfterElem(ty, rest));
    ShapeRoundTrip(true, ty.shape, inner);
    StridesRoundTrip(ty.shape, ty.strides, PrintAttr(ty.ptrAttr) + ([Greater] + rest));
    AttrRoundTrip(ty.ptrAttr, rest);
    Closed(ty, rest);
  }

  lemma {:induction false} PartitionViewRoundTrip(ty: Type, rest: Tokens)
    requires ty.PartitionView? && Accepted(ty)
    requires var back := PrintDimMap(ty.dimMap) + ([Greater] + rest); Parse(Print(ty.view) + back) == Some((ty.view, back))
    ensures Parse(Print(ty) + rest) == Some((ty, rest))
  {
    TileIsReadable(ty.tile, ty.view, ty.padding);
    DimMapIsReadable(ty.dimMap);
    assert ty.view.TensorView? && |ty.dimMap| == |ty.tile|;
    hide Accepted, Close, Parse, ParseTileShape, PrintTileShape, PrintPadding, ParsePadding, PrintDimMap,
         ParseDimMap, ParseView, Print;
    var back := PrintDimMap(ty.dimMap) + ([Greater] + rest);
    var inner := PrintPadding(ty.padding) + (Print(ty.view) + back);
    var body := PrintTileShape(ty.tile) + inner;
    PartitionViewText(ty, rest);
    ParseIs("partition_view", body);
    TileShapeRoundTrip(ty.tile, inner);
    PrintStarts(ty.view, back);
    PaddingRoundTrip(ty.padding, Print(ty.view) + back);
    ViewRoundTrip(ty.view, back);
    DimMapRoundTrip(ty.dimMap, rest);
    Closed(ty, rest);
  }

  lemma {:induction false} StridedViewRoundTrip(ty: Type, rest: Tokens)
    requires ty.StridedView? && Accepted(ty) && Int32s(ty.traversal)
    requires var back := PrintDimMap(ty.dimMap) + ([Greater] + rest); Parse(Print(ty.view) + back) == Some((ty.view, back))
    ensures Parse(Print(ty) + rest) == Some((ty, rest))
  {
    TileIsReadable(ty.tile, ty.view, ty.padding);
    DimMapIsReadable(ty.dimMap);
    assert ty.view.TensorView? && |ty.dimMap| == |ty.tile|;
    hide Accepted, Close, Parse, ParseTileShape, PrintTileShape, PrintPadding, ParsePadding, PrintDimMap,
         ParseDimMap, ParseView, Print;
    hide PrintSquares, ParseSquares;
    var back := PrintDimMap(ty.dimMap) + ([Greater] + rest);
    var inner := PrintPadding(ty.padding) + (Print(ty.view) + back);
    var body := PrintTileShape(ty.tile) + (PrintSquares("traversal_strides", ty.traversal) + ([Comma] + inner));
    StridedViewText(ty, rest);
    ParseIs("strided_view", body);
    TileShapeRoundTrip(ty.tile, PrintSquares("traversal_strides", ty.traversal) + ([Comma] + inner));
    SquaresRoundTrip("traversal_strides", Index32, ty.traversal, [Comma] + inner);
    EatOne(Comma, inner);
    PrintStarts(ty.view, back);
    PaddingRoundTrip(ty.padding, Print(ty.view) + back);
    ViewRoundTrip(ty.view, back);
    DimMapRoundTrip(ty.dimMap, rest);
    Closed(ty, rest);
  }

  lemma {:induction false} SparseDimRoundTrip(d: nat, rest: Tokens)
    requires d < TWO_TO_THE_32
    ensures ParseSparseDim(PrintSparseDim(d) + rest) == Some((d, rest))
  {
    var front := [Comma, Word("sparse_dim"), Equal];
    assert PrintSparseDim(d) + rest == front + ([Number(d)] + rest);
    EatPrefix(front, [Number(d)] + rest);
    EatOne(Number(d), rest);
  }

  lemma {:induction false} GatherScatterViewRoundTrip(ty: Type, rest: Tokens)
    requires ty.GatherScatterView? && Accepted(ty)
    requires var back := PrintSparseDim(ty.sparseDim) + ([Greater] + rest);
             Parse(Print(ty.view) + back) == Some((ty.view, back))
    ensures Parse(Print(ty) + rest) == Some((ty, rest))
  {
    TileIsReadable(ty.tile, ty.view, ty.padding);
    assert ty.view.TensorView? && ty.sparseDim < |ty.tile| <= MAX_INT32;
    hide Accepted, Close, Parse, ParseTileShape, PrintTileShape, PrintPadding, ParsePadding, ParseView, Print;
    hide PrintSparseDim, ParseSparseDim;
    var back := PrintSparseDim(ty.sparseDim) + ([Greater] + rest);
    var inner := PrintPadding(ty.padding) + (Print(ty.view) + back);
    var body := PrintTileShape(ty.tile) + inner;
    GatherScatterViewText(ty, rest);
    ParseIs("gather_scatter_view", body);
    TileShapeRoundTrip(ty.tile, inner);
    PrintStarts(ty.view, back);
    PaddingRoundTrip(ty.padding, Print(ty.view) + back);
    ViewRoundTrip(ty.view, back);
    SparseDimRoundTrip(ty.sparseDim, [Greater] + rest);
    Closed(ty, rest);
  }

  /** Different types have different texts. */
  lemma {:induction false} TextIsInjective(a: Type, b: Type)
    requires Verified(a) && Verified(b) && Print(a) == Print(b)
    ensures a == b
  {
    hide Print, Parse, Verified;
    TextRoundTrip(a, []);
    TextRoundTrip(b, []);
  }
}
