/**
  Tables of byte strings: interning hands out positions, and a written table is a count,
  running-sum offsets and the concatenated data, from which the reader slices every entry.
  */
module Tables {
  import opened Base
  import opened VarInts
  import opened Encoding

  // ---------------------------------------------------------------- interning

  /** A map that remembers the order of insertion; an entry keeps its first value. */
  class MapVector<K(==, !new), V> {
    var keys: seq<K>
    var values: seq<V>
    var indices: map<K, nat>

    constructor ()
      ensures Valid() && keys == [] && values == []
    {
      keys, values, indices := [], [], map[];
    }

    ghost predicate Valid()
      reads this
    {
      && |values| == |keys|
      && (forall i, j :: 0 <= i < j < |keys| ==> keys[i] != keys[j])
      && (forall k :: k in indices <==> k in keys)
      && (forall i :: 0 <= i < |keys| ==> indices[keys[i]] == i)
    }

    /** Indices are stable and distinct for distinct keys; a known key changes nothing. */
    method GetIndex(key: K, value: V) returns (index: nat)
      requires Valid()
      modifies this
      ensures Valid() && index < |keys| && keys[index] == key
      ensures old(keys) <= keys && old(values) <= values
      ensures key in old(keys) ==> keys == old(keys) && values == old(values)
      ensures key !in old(keys) ==> keys == old(keys) + [key] && values == old(values) + [value]
      ensures Some(index) == IndexOf(keys, key)
    {
      if key in indices {
        index := indices[key];
      } else {
        index := |keys|;
        indices := indices[key := index];
        keys, values := keys + [key], values + [value];
      }
      IndexOfIsFirst(keys, key, index);
    }
  }

  // ---------------------------------------------------------------- running sums

  function Concat<T>(xs: seq<seq<T>>): seq<T> {
    if xs == [] then [] else xs[0] + Concat(xs[1..])
  }

  /** Where each entry starts in the concatenation, counted from `running`. */
  function Offsets<T>(xs: seq<seq<T>>, running: nat): (r: seq<nat>)
    ensures |r| == |xs|
  {
    if xs == [] then [] else [running] + Offsets(xs[1..], running + |xs[0]|)
  }

  /** The end of entry `i`: the next start, or the end of the data. */
  function EndOf(offsets: seq<nat>, i: nat, size: nat): nat
    requires i < |offsets|
  {
    if i + 1 < |offsets| then offsets[i + 1] else size
  }

  lemma {:induction false} SliceBetween<T>(before: seq<T>, xs: seq<seq<T>>, i: nat)
    requires i < |xs|
    ensures var offsets, data := Offsets(xs, |before|), before + Concat(xs);
            |before| <= offsets[i] <= EndOf(offsets, i, |data|) <= |data| &&
            data[offsets[i]..EndOf(offsets, i, |data|)] == xs[i]
    decreases |xs|
  {
    var data := before + Concat(xs);
    var before', tail := before + xs[0], Offsets(xs[1..], |before + xs[0]|);
    assert before' + Concat(xs[1..]) == data;
    assert Offsets(xs, |before|) == [|before|] + tail;
    if i == 0 {
      if |xs| > 1 {
        assert tail[0] == |before'|;
      } else {
        assert Concat(xs[1..]) == [];
      }
      assert data[|before|..|before'|] == xs[0];
    } else {
      SliceBetween(before', xs[1..], i - 1);
    }
  }

  /** Slicing by the offsets gives every entry, the empty ones included. */
  lemma {:induction false} SliceIsEntry<T>(xs: seq<seq<T>>, i: nat)
    requires i < |xs|
    ensures var offsets, data := Offsets(xs, 0), Concat(xs);
            offsets[i] <= EndOf(offsets, i, |data|) <= |data| && data[offsets[i]..EndOf(offsets, i, |data|)] == xs[i]
  {
    SliceBetween([], xs, i);
    assert [] + Concat(xs) == Concat(xs);
  }

  /** The k-th item of list `i` lies k positions after the start of the list. */
  lemma {:induction false} ItemAtOffset<T>(xs: seq<seq<T>>, i: nat, k: nat)
    requires i < |xs| && k < |xs[i]|
    ensures Offsets(xs, 0)[i] + k < |Concat(xs)| && Concat(xs)[Offsets(xs, 0)[i] + k] == xs[i][k]
  {
    SliceIsEntry(xs, i);
    var start, end := Offsets(xs, 0)[i], EndOf(Offsets(xs, 0), i, |Concat(xs)|);
    assert Concat(xs)[start..end][k] == Concat(xs)[start + k];
  }

  // ---------------------------------------------------------------- the table in a section

  /** Fixed-width little-endian words. */
  function Words(ws: seq<nat>, width: nat): (bs: bytes)
    ensures |bs| == |ws| * width
  {
    if ws == [] then [] else LE(ws[0], width) + Words(ws[1..], width)
  }

  function ReadWords(bs: bytes, count: nat, width: nat): (r: Parsed<seq<nat>>)
    ensures r.Got? ==> |r.value| == count && |r.rest| <= |bs|
    decreases count
  {
    if count == 0 then Got([], bs)
    else
      var (w, rest) :- ReadLE(bs, width);
      var (ws, rest') :- ReadWords(rest, count - 1, width);
      Got([w] + ws, rest')
  }

  lemma {:induction false} WordsRoundTrip(ws: seq<nat>, width: nat, rest: bytes)
    requires forall i :: 0 <= i < |ws| ==> ws[i] < Pow2(8 * width)
    ensures ReadWords(Words(ws, width) + rest, |ws|, width) == Got(ws, rest)
  {
    hide LE, ReadLE, Pow2;
    if ws == [] {
      assert [] + rest == rest;
    } else {
      Assoc(LE(ws[0], width), Words(ws[1..], width), rest);
      LERoundTrip(ws[0], width, Words(ws[1..], width) + rest);
      WordsRoundTrip(ws[1..], width, rest);
      assert [ws[0]] + ws[1..] == ws;
    }
  }

  /** Count, padding to the width of an offset, offsets, data. */
  function TablePayload(entries: seq<bytes>, width: nat): bytes {
    var count := VarInt(|entries|);
    count + (Padding(|count|, width) + (Words(Offsets(entries, 0), width) + Concat(entries)))
  }

  /** One entry; None when its offsets are out of order or out of range. The last one ends at `size`. */
  function SliceOf(offsets: seq<nat>, data: bytes, i: nat, size: nat): Option<bytes>
    requires i < |offsets|
  {
    var end := EndOf(offsets, i, size);
    if end < offsets[i] || end > |data| then None else Some(data[offsets[i]..end])
  }

  /** The constant table is sliced at once: one bad entry is an error. */
  function Slices(offsets: seq<nat>, data: bytes, i: nat): Option<seq<bytes>>
    requires i <= |offsets|
    decreases |offsets| - i
  {
    if i == |offsets| then Some([])
    else
      var head :- SliceOf(offsets, data, i, |data|);
      var tail :- Slices(offsets, data, i + 1);
      Some([head] + tail)
  }

  /** Types and debug attributes are sliced when they are asked for; their size is cut to 32 bits. */
  function LazySlices(offsets: seq<nat>, data: bytes): (r: seq<Option<bytes>>)
    ensures |r| == |offsets|
  {
    seq(|offsets|, i requires 0 <= i < |offsets| => SliceOf(offsets, data, i, |data| % TWO_TO_THE_32))
  }

  /** Strings are cut to what there is; a length that comes out negative wraps around. */
  function StringOf(offsets: seq<nat>, data: bytes, i: nat): bytes
    requires i < |offsets|
  {
    var end := if i + 1 < |offsets| then offsets[i + 1] else |data| % TWO_TO_THE_32;
    var start := if offsets[i] < |data| then offsets[i] else |data|;
    var length := (end - offsets[i]) % TWO_TO_THE_32;
    if length < |data| - start then data[start..start + length] else data[start..]
  }

  function Strings(offsets: seq<nat>, data: bytes): (r: seq<bytes>)
    ensures |r| == |offsets|
  {
    seq(|offsets|, i requires 0 <= i < |offsets| => StringOf(offsets, data, i))
  }

  /**
    The offsets and the data behind them. The readers of strings and types look at the size
    before the padding, that of constants after it; that one also bounds the count.
    */
  function ReadOffsets(payload: bytes, width: nat): Option<(seq<nat>, bytes)>
    requires width >= 1
  {
    var count := ReadVarInt(payload);
    if !count.Got? || (width == 8 && count.value > MAX_COUNT) then None
    else if count.value == 0 then Some(([], []))
    else
      var offset := |payload| - |count.rest|;
      if width < 8 && count.value > |count.rest| / width then None else
      var start :- SkipPadding(payload, offset, width);
      if start == |payload| || count.value * width > |payload| - start then None else
      var words := ReadWords(payload[start..], count.value, width);
      if words.Got? then Some((words.value, words.rest)) else None
  }

  function ReadTable(payload: bytes, width: nat): Option<seq<bytes>>
    requires width >= 1
  {
    var (offsets, data) :- ReadOffsets(payload, width);
    Slices(offsets, data, 0)
  }

  function ReadLazyTable(payload: bytes, width: nat): Option<seq<Option<bytes>>>
    requires width >= 1
  {
    var (offsets, data) :- ReadOffsets(payload, width);
    Some(LazySlices(offsets, data))
  }

  function ReadStrings(payload: bytes): Option<seq<bytes>> {
    var (offsets, data) :- ReadOffsets(payload, 4);
    Some(Strings(offsets, data))
  }

  lemma {:induction false} OffsetsBelow<T>(entries: seq<seq<T>>, running: nat, i: nat)
    requires i < |entries|
    ensures Offsets(entries, running)[i] <= running + |Concat(entries)|
  {
    if i > 0 {
      OffsetsBelow(entries[1..], running + |entries[0]|, i - 1);
    }
  }

  lemma {:induction false} SlicesAre(entries: seq<bytes>, i: nat)
    requires i <= |entries|
    ensures Slices(Offsets(entries, 0), Concat(entries), i) == Some(entries[i..])
    decreases |entries| - i
  {
    if i == |entries| {
      assert entries[i..] == [];
    } else {
      SliceIsEntry(entries, i);
      SlicesAre(entries, i + 1);
      assert entries[i..] == [entries[i]] + entries[i + 1..];
    }
  }

  /** Room for all offsets, checked by division as the reader does. */
  lemma {:induction false} EnoughRoom(n: nat, width: nat, more: nat)
    requires width >= 1
    ensures n <= (n * width + more) / width
  {
    assert n * width + more == width * n + more;
    assert (width * n + more) / width >= n by { QuotientAtLeast(width * n + more, width, n); }
  }

  lemma {:induction false} QuotientAtLeast(x: nat, w: nat, n: nat)
    requires w >= 1 && x >= w * n
    ensures x / w >= n
  {
    var q, r := x / w, x % w;
    assert x == w * q + r && r < w;
    assert w * (q + 1) == w * q + w;
    assert q + 1 <= n ==> w * (q + 1) <= w * n by {
      if q + 1 <= n {
        MulMonotone(w, q + 1, n);
      }
    }
  }

  lemma {:induction false} MulMonotone(w: nat, a: int, b: int)
    requires a <= b
    ensures w * a <= w * b
  {
  }

  lemma {:induction false} TableParts(entries: seq<bytes>, width: nat)
    requires 1 <= width && 0 < |entries| < TWO_TO_THE_64
    ensures var count := VarInt(|entries|);
            var padding := Padding(|count|, width);
            var body := Words(Offsets(entries, 0), width) + Concat(entries);
            var payload := TablePayload(entries, width);
            && ReadVarInt(payload) == Got(|entries|, padding + body)
            && |payload| == |count| + |padding| + |body|
            && SkipPadding(payload, |count|, width) == Some(|count| + |padding|)
            && payload[|count| + |padding|..] == body
            && |body| == |entries| * width + |Concat(entries)|
  {
    hide Words, Offsets, Concat, VarInt;
    var count := VarInt(|entries|);
    var padding := Padding(|count|, width);
    var body := Words(Offsets(entries, 0), width) + Concat(entries);
    VarIntRoundTrip(|entries|, padding + body);
    assert |entries| * width >= 1 by { MulMonotone(width, 1, |entries|); }
    assert TablePayload(entries, width)[|count| + |padding|..] == body;
  }

  /** The reader's size checks do not reject what was written. Offsets have `width` bytes. */
  lemma {:induction false} OffsetsReadBack(entries: seq<bytes>, width: nat)
    requires 1 <= width && |entries| < TWO_TO_THE_64 && |Concat(entries)| < Pow2(8 * width)
    requires (width == 8 ==> |entries| <= MAX_COUNT)
    ensures ReadOffsets(TablePayload(entries, width), width) == Some((Offsets(entries, 0), Concat(entries)))
  {
    hide Words, ReadWords, SkipPadding, Padding, VarInt, ReadVarInt, Pow2;
    if entries == [] {
      EmptyTable(width);
    } else {
      var offsets := Offsets(entries, 0);
      TableParts(entries, width);
      EnoughRoom(|entries|, width, |Padding(|VarInt(|entries|)|, width)| + |Concat(entries)|);
      assert |entries| * width >= 1 by { MulMonotone(width, 1, |entries|); }
      forall i | 0 <= i < |offsets| ensures offsets[i] < Pow2(8 * width) {
        OffsetsBelow(entries, 0, i);
      }
      WordsRoundTrip(offsets, width, Concat(entries));
    }
  }

  lemma {:induction false} EmptyTable(width: nat)
    requires width >= 1
    ensures ReadOffsets(TablePayload([], width), width) == Some(([], []))
  {
    var rest := Padding(|VarInt(0)|, width) + (Words(Offsets<byte>([], 0), width) + Concat<byte>([]));
    VarIntRoundTrip(0, rest);
  }

  /** Whatever was interned is sliced out again: the constant table at once, */
  lemma {:induction false} TableRoundTrip(entries: seq<bytes>, width: nat)
    requires 1 <= width && |entries| < TWO_TO_THE_64 && |Concat(entries)| < Pow2(8 * width)
    requires (width == 8 ==> |entries| <= MAX_COUNT)
    ensures ReadTable(TablePayload(entries, width), width) == Some(entries)
  {
    hide ReadOffsets, TablePayload, Slices, Offsets, Concat, Pow2;
    OffsetsReadBack(entries, width);
    SlicesAre(entries, 0);
    assert entries[0..] == entries;
  }

  /** the types entry by entry, */
  lemma {:induction false} LazyTableRoundTrip(entries: seq<bytes>, width: nat)
    requires 1 <= width <= 4 && |entries| < TWO_TO_THE_64 && |Concat(entries)| < Pow2(8 * width)
    requires |Concat(entries)| < TWO_TO_THE_32
    ensures ReadLazyTable(TablePayload(entries, width), width) == Some(Full(entries))
  {
    hide ReadOffsets, TablePayload, Offsets, Concat, Pow2, SliceOf;
    OffsetsReadBack(entries, width);
    LazySlicesAre(entries);
  }

  lemma {:induction false} LazySlicesAre(entries: seq<bytes>)
    requires |Concat(entries)| < TWO_TO_THE_32
    ensures LazySlices(Offsets(entries, 0), Concat(entries)) == Full(entries)
  {
    hide Offsets, Concat;
    forall i | 0 <= i < |entries| ensures SliceOf(Offsets(entries, 0), Concat(entries), i, |Concat(entries)|) == Some(entries[i]) {
      SliceIsEntry(entries, i);
    }
  }

  /** and the strings, which are never cut. */
  lemma {:induction false} StringsRoundTrip(strings: seq<bytes>)
    requires |strings| < TWO_TO_THE_64 && |Concat(strings)| < TWO_TO_THE_32
    ensures ReadStrings(TablePayload(strings, 4)) == Some(strings)
  {
    Pow2Values();
    hide ReadOffsets, TablePayload, Offsets, Concat, StringOf, Pow2;
    OffsetsReadBack(strings, 4);
    forall i | 0 <= i < |strings| ensures StringOf(Offsets(strings, 0), Concat(strings), i) == strings[i] {
      StringIsEntry(strings, i);
    }
    assert Strings(Offsets(strings, 0), Concat(strings)) == strings;
  }

  lemma {:induction false} StringIsEntry(strings: seq<bytes>, i: nat)
    requires i < |strings| && |Concat(strings)| < TWO_TO_THE_32
    ensures StringOf(Offsets(strings, 0), Concat(strings), i) == strings[i]
  {
    hide Offsets, Concat;
    SliceIsEntry(strings, i);
  }
}
