/**
  The debug section: where each function's list of indices starts, the indices, and the
  table of debug attributes; and the stream of locations a function index selects.
  */
module DebugSections {
  import opened Base
  import opened VarInts
  import opened Encoding
  import opened DebugIr
  import opened Tables
  import opened DebugInfos

  /** A count, padding to the width of a word, and the words; `pos` is the position in the section. */
  function WriteArray(pos: nat, ws: seq<nat>, width: nat): bytes {
    VarInt(|ws|) + (Padding(pos + |VarInt(|ws|)|, width) + Words(ws, width))
  }

  /** The words and the offset behind them. */
  function ReadArray(payload: bytes, offset: nat, width: nat): (r: Option<(seq<nat>, nat)>)
    requires offset <= |payload|
    ensures r.Some? ==> r.value.1 <= |payload|
  {
    var count := ReadVarInt(payload[offset..]);
    if !count.Got? then None else
    var start :- SkipPadding(payload, |payload| - |count.rest|, width);
    if start == |payload| || count.value * width > |payload| - start then None else
    var words := ReadWords(payload[start..], count.value, width);
    if words.Got? then Some((words.value, |payload| - |words.rest|)) else None
  }

  predicate Fit(ws: seq<nat>, width: nat) {
    forall i :: 0 <= i < |ws| ==> ws[i] < Pow2(8 * width)
  }

  lemma {:induction false} ArrayReadBack(before: bytes, ws: seq<nat>, width: nat, after: bytes)
    requires |ws| < TWO_TO_THE_64 && Fit(ws, width) && width >= 2 && (ws != [] || after != [])
    ensures var written := WriteArray(|before|, ws, width);
            ReadArray(before + written + after, |before|, width) == Some((ws, |before| + |written|))
  {
    hide VarInt, ReadVarInt, Words, ReadWords, Fit, SkipPadding, Padding, PaddingSize;
    var count := VarInt(|ws|);
    var padding, words := Padding(|before| + |count|, width), Words(ws, width);
    var payload := before + (count + (padding + words)) + after;
    var start := |before| + |count| + |padding|;
    ArrayParts(before, count, padding, words, after);
    VarIntRoundTrip(|ws|, padding + (words + after));
    PaddingIsSkipped(payload, |before| + |count|, width);
    NotAtEnd(|ws|, width);
    assert Fit(ws, width);
    FitWords(ws, width);
    WordsRoundTrip(ws, width, after);
  }

  lemma {:induction false} FitWords(ws: seq<nat>, width: nat)
    requires Fit(ws, width)
    ensures forall i :: 0 <= i < |ws| ==> ws[i] < Pow2(8 * width)
  {
  }

  lemma {:induction false} NotAtEnd(n: nat, width: nat)
    requires width >= 1
    ensures n > 0 ==> n * width > 0
  {
    if n > 0 {
      MulMonotone(width, 1, n);
    }
  }

  lemma {:induction false} ArrayParts(before: bytes, count: bytes, padding: bytes, words: bytes, after: bytes)
    ensures var payload := before + (count + (padding + words)) + after;
            && payload[|before|..] == count + (padding + (words + after))
            && payload[|before| + |count| + |padding|..] == words + after
            && |payload| == |before| + |count| + |padding| + |words| + |after|
  {
    var payload := before + (count + (padding + words)) + after;
    assert payload == (before + count + padding) + (words + after);
    assert payload == before + (count + (padding + (words + after)));
  }

  lemma {:induction false} PaddingIsSkipped(data: bytes, offset: nat, alignment: nat)
    requires offset + PaddingSize(offset, alignment) <= |data| && offset < |data|
    ensures SkipPadding(data, offset, alignment) == Some(offset + PaddingSize(offset, alignment))
  {
  }

  // ---------------------------------------------------------------- the section

  /** `entries` are the serialized attributes; without any there is no section. */
  function DebugPayload(lists: seq<seq<nat>>, entries: seq<bytes>): bytes {
    var offsets := WriteArray(0, Offsets(lists, 0), 4);
    var indices := WriteArray(|offsets|, Concat(lists), 8);
    offsets + indices + WriteArray(|offsets + indices|, Offsets(entries, 0), 4) + Concat(entries)
  }

  datatype DebugData = DebugData(indexOffsets: seq<nat>, indices: seq<nat>, entries: seq<Option<bytes>>)

  function ReadDebugSection(payload: bytes): Option<DebugData> {
    var (indexOffsets, at1) :- ReadArray(payload, 0, 4);
    var (indices, at2) :- ReadArray(payload, at1, 8);
    var (starts, at3) :- ReadArray(payload, at2, 4);
    Some(DebugData(indexOffsets, indices, LazySlices(starts, payload[at3..])))
  }

  predicate AllBelow(ws: seq<nat>, max: nat) {
    forall i :: 0 <= i < |ws| ==> ws[i] < max
  }

  /** Offsets have four bytes, indices eight; the reader takes no more indices than a count may be. */
  predicate DebugFits(lists: seq<seq<nat>>, entries: seq<bytes>) {
    && |lists| < TWO_TO_THE_32 && |Concat(lists)| <= MAX_COUNT
    && |entries| < TWO_TO_THE_32 && |Concat(entries)| < TWO_TO_THE_32
    && AllBelow(Concat(lists), TWO_TO_THE_64)
  }

  lemma {:induction false} OffsetsFit<T>(xs: seq<seq<T>>, running: nat)
    requires running + |Concat(xs)| < TWO_TO_THE_32
    ensures Fit(Offsets(xs, running), 4)
  {
    Pow2Values();
    hide Pow2;
    if xs != [] {
      OffsetsFit(xs[1..], running + |xs[0]|);
    }
  }

  lemma {:induction false} WordsFit(ws: seq<nat>)
    requires AllBelow(ws, TWO_TO_THE_64)
    ensures Fit(ws, 8)
  {
    Pow2Values();
  }

  lemma {:induction false} NotEmpty(pos: nat, ws: seq<nat>, width: nat)
    ensures WriteArray(pos, ws, width) != []
  {
  }

  /** Three arrays in a row, each aligned where it stands. */
  lemma {:induction false} ArraysReadBack(us: seq<nat>, vs: seq<nat>, ws: seq<nat>, data: bytes)
    requires |us| < TWO_TO_THE_64 && |vs| < TWO_TO_THE_64 && |ws| < TWO_TO_THE_64
    requires Fit(us, 4) && Fit(vs, 8) && Fit(ws, 4) && ws != []
    ensures var a := WriteArray(0, us, 4);
            var b := WriteArray(|a|, vs, 8);
            var c := WriteArray(|a + b|, ws, 4);
            var payload := a + b + c + data;
            && ReadArray(payload, 0, 4) == Some((us, |a|)) && ReadArray(payload, |a|, 8) == Some((vs, |a + b|))
            && ReadArray(payload, |a + b|, 4) == Some((ws, |a + b + c|)) && payload[|a + b + c|..] == data
  {
    hide ReadArray, WriteArray, Fit;
    var a := WriteArray(0, us, 4);
    var b := WriteArray(|a|, vs, 8);
    var c := WriteArray(|a + b|, ws, 4);
    Assoc(a, b, c + data);
    Assoc(a + b, c, data);
    NotEmpty(|a|, vs, 8);
    NotEmpty(|a + b|, ws, 4);
    assert [] + a + (b + (c + data)) == a + (b + (c + data));
    ArrayReadBack([], us, 4, b + (c + data));
    ArrayReadBack(a, vs, 8, c + data);
    ArrayReadBack(a + b, ws, 4, data);
  }

  lemma {:induction false} DebugSectionRoundTrip(lists: seq<seq<nat>>, entries: seq<bytes>)
    requires DebugFits(lists, entries) && entries != []
    ensures ReadDebugSection(DebugPayload(lists, entries)) == Some(DebugData(Offsets(lists, 0), Concat(lists), Full(entries)))
  {
    OffsetsFit(lists, 0);
    OffsetsFit(entries, 0);
    WordsFit(Concat(lists));
    hide ReadArray, WriteArray, Concat, Offsets, Fit, LazySlices;
    ArraysReadBack(Offsets(lists, 0), Concat(lists), Offsets(entries, 0), Concat(entries));
    LazySlicesAre(entries);
  }

  // ---------------------------------------------------------------- streams

  /** The stream behind the index of a function; index 0 hides all locations. */
  function StreamAt(d: DebugData, table: seq<Option<Debug>>, index: nat): LocStream {
    StreamFrom(d.indices, d.indexOffsets, table, index, 0)
  }

  /** The stream of a function starts with the locations recorded for it. */
  lemma {:induction false} StreamIsRecorded(list: seq<Debug>, recorded: seq<seq<Debug>>, lists: seq<seq<nat>>,
                                            entries: seq<Option<bytes>>, table: seq<Option<Debug>>, f: nat)
    requires Resolves(list, |list|, table) && Indexed(list, recorded, lists) && f < |recorded|
    ensures var s := StreamAt(DebugData(Offsets(lists, 0), Concat(lists), entries), table, f + 1);
            s.Listed? && (|Concat(lists)| <= MAX_COUNT ==> PlainAll(recorded[f]) <= s.locs)
  {
    hide Resolves, Indexed, Resolve, Concat, Offsets, Found;
    StreamsRoundTrip(list, recorded, lists, table, f);
    CountOfLists(list, recorded, lists);
    OffsetsBelow(lists, 0, f);
  }

  lemma {:induction false} CountOfLists(list: seq<Debug>, recorded: seq<seq<Debug>>, lists: seq<seq<nat>>)
    requires Indexed(list, recorded, lists)
    ensures |lists| == |recorded|
  {
  }
}
