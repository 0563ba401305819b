/**
  File framing: a header, sections with a length and an optional alignment, and an end byte.
  Positions are positions in the whole file.
  */
module Sections {
  import opened Base
  import opened VarInts
  import opened Encoding
  import opened Streams

  const MAGIC: bytes := [0x7F, 0x54, 0x69, 0x6C, 0x65, 0x49, 0x52, 0x00]
  const NUM_SECTIONS := 8
  const HEADER_SIZE := 12

  /** Section identifiers; 0 ends the file. */
  const STRING := 1
  const FUNC := 2
  const DEBUG := 3
  const CONSTANT := 4
  const TYPE := 5
  const GLOBAL := 6
  const PRODUCER := 7

  datatype Section = Section(id: nat, payload: bytes, alignment: nat)

  datatype SectionHeader = SectionHeader(id: nat, length: nat, hasAlignment: bool, alignment: nat)

  predicate PowerOfTwo(n: nat) {
    n == 1 || (n > 1 && n % 2 == 0 && PowerOfTwo(n / 2))
  }

  /** The alignment the reader insists on; 0 when it does not care. */
  function RequiredAlignment(id: nat): nat {
    if id == STRING || id == TYPE then 4
    else if id == CONSTANT || id == DEBUG || id == FUNC then 8
    else 0
  }

  // ---------------------------------------------------------------- writing

  /** Identifier, length and alignment. */
  function Front(s: Section): (bs: bytes)
    requires s.id < 128
  {
    [if s.alignment > 1 then s.id + 128 else s.id] + VarInt(|s.payload|) +
    if s.alignment > 1 then VarInt(s.alignment) else []
  }

  function WriteSection(pos: nat, s: Section): bytes
    requires s.id < 128
  {
    Front(s) + Padding(pos + |Front(s)|, s.alignment) + s.payload
  }

  predicate SectionsOk(ss: seq<Section>) {
    && (forall i :: 0 <= i < |ss| ==> SectionOk(ss[i]))
    && forall i, j :: 0 <= i < j < |ss| ==> ss[i].id != ss[j].id
  }

  predicate SectionOk(s: Section) {
    && 0 < s.id < NUM_SECTIONS && |s.payload| < TWO_TO_THE_64
    && PowerOfTwo(s.alignment) && s.alignment < TWO_TO_THE_64
    && (RequiredAlignment(s.id) > 0 ==> s.alignment > 1 && s.alignment % RequiredAlignment(s.id) == 0)
  }

  predicate SmallIds(ss: seq<Section>) {
    forall i :: 0 <= i < |ss| ==> ss[i].id < 128
  }

  function WriteSections(pos: nat, ss: seq<Section>): bytes
    requires SmallIds(ss)
    decreases |ss|
  {
    if ss == [] then []
    else WriteSection(pos, ss[0]) + WriteSections(pos + |WriteSection(pos, ss[0])|, ss[1..])
  }

  function WriteFileHeader(v: Version): (bs: bytes)
    ensures |bs| == HEADER_SIZE
  {
    MAGIC + LE(v.major, 1) + LE(v.minor, 1) + LE(v.tag, 2)
  }

  /** The whole file: refused for versions below the oldest supported one. */
  function WriteFile(v: Version, ss: seq<Section>): Option<bytes>
    requires SmallIds(ss)
  {
    if v.Before(MIN_SUPPORTED_VERSION) then None
    else Some(WriteFileHeader(v) + WriteSections(HEADER_SIZE, ss) + [0])
  }

  /** The header on a stream, as the writer emits it. */
  method WriteSectionHeader(writer: EncodingWriter, s: Section)
    requires s.id < 128 && |s.payload| < TWO_TO_THE_64 && s.alignment < TWO_TO_THE_64
    modifies writer
    ensures writer.stream == old(writer.stream) + Front(s) + Padding(|old(writer.stream)| + |Front(s)|, s.alignment)
  {
    ghost var before := writer.stream;
    writer.WriteBytes([if s.alignment > 1 then s.id + 128 else s.id]);
    writer.WriteVarInt(|s.payload|);
    if s.alignment > 1 {
      writer.WriteVarInt(s.alignment);
      assert writer.stream == before + Front(s);
      writer.AlignTo(s.alignment);
    }
    assert s.alignment <= 1 ==> Padding(|before| + |Front(s)|, s.alignment) == [] && writer.stream == before + Front(s);
  }

  // ---------------------------------------------------------------- reading

  /** The header at `offset`, and the offset of the payload. */
  function ReadSectionHeader(data: bytes, offset: nat): (r: Option<(SectionHeader, nat)>)
    requires offset <= |data|
    ensures r.Some? ==> offset < r.value.1 <= |data| && r.value.0.id < NUM_SECTIONS
  {
    if offset == |data| then None else
    var id, hasAlignment := data[offset] % 128, data[offset] >= 128;
    if id == 0 then (if hasAlignment then None else Some((SectionHeader(0, 0, false, 1), offset + 1)))
    else if id >= NUM_SECTIONS then None
    else
      var length := ReadVarInt(data[offset + 1..]);
      if !length.Got? || length.value > |length.rest| then None
      else if !hasAlignment then Some((SectionHeader(id, length.value, false, 1), |data| - |length.rest|))
      else
        var alignment := ReadVarInt(length.rest);
        if !alignment.Got? || !PowerOfTwo(alignment.value) then None else
        var start :- SkipPadding(data, |data| - |alignment.rest|, alignment.value);
        Some((SectionHeader(id, length.value, true, alignment.value), start))
  }

  predicate AlignmentAccepted(h: SectionHeader) {
    var required := RequiredAlignment(h.id);
    required == 0 || (h.hasAlignment && h.alignment % required == 0)
  }

  /** The reader's discovery of sections, from `offset` to the end byte, which must be the last. */
  function Discover(data: bytes, offset: nat, found: map<nat, bytes>): Option<map<nat, bytes>>
    requires offset <= |data|
    decreases |data| - offset
  {
    var (h, start) :- ReadSectionHeader(data, offset);
    if h.id == 0 then (if start == |data| then Some(found) else None)
    else if !AlignmentAccepted(h) || h.length > |data| - start then None
    else Discover(data, start + h.length, found[h.id := data[start..start + h.length]])
  }

  lemma {:induction false} DiscoverStep(data: bytes, offset: nat, found: map<nat, bytes>)
    requires offset <= |data|
    ensures Discover(data, offset, found) ==
            match ReadSectionHeader(data, offset)
            case None => None
            case Some((h, start)) =>
              if h.id == 0 then (if start == |data| then Some(found) else None)
              else if !AlignmentAccepted(h) || h.length > |data| - start then None
              else Discover(data, start + h.length, found[h.id := data[start..start + h.length]])
  {
    hide ReadSectionHeader, AlignmentAccepted;
  }

  method DiscoverSections(data: bytes, first: nat) returns (r: Option<map<nat, bytes>>)
    requires first <= |data|
    ensures r == Discover(data, first, map[])
  {
    var offset, found: map<nat, bytes> := first, map[];
    while true
      invariant offset <= |data| && Discover(data, first, map[]) == Discover(data, offset, found)
      decreases |data| - offset
    {
      hide Discover, ReadSectionHeader, AlignmentAccepted;
      DiscoverStep(data, offset, found);
      var read := ReadSectionHeader(data, offset);
      if read.None? {
        return None;
      }
      var (h, start) := read.value;
      if h.id == 0 {
        return if start == |data| then Some(found) else None;
      }
      if !AlignmentAccepted(h) || h.length > |data| - start {
        return None;
      }
      found, offset := found[h.id := data[start..start + h.length]], start + h.length;
    }
  }

  /** The offset behind the end byte; a section that occurs twice is an error. */
  function EndOfSections(data: bytes, offset: nat, seen: set<nat>): Option<nat>
    requires offset <= |data|
    decreases |data| - offset
  {
    var (h, start) :- ReadSectionHeader(data, offset);
    if h.length > |data| - start || h.id in seen then None
    else if h.id == 0 then Some(start)
    else EndOfSections(data, start + h.length, seen + {h.id})
  }

  /** `supported` are the versions the build knows. */
  function ReadFileHeader(data: bytes, supported: set<Version>): Option<Version> {
    if |data| < HEADER_SIZE || data[..8] != MAGIC then None else
    var high: nat := data[11];
    var v := Version(data[8], data[9], high * 256 + data[10]);
    if v !in supported || v.Before(MIN_SUPPORTED_VERSION) then None else Some(v)
  }

  /** The buffer may go on behind the file. */
  function BytecodeSize(data: bytes, supported: set<Version>): Option<nat> {
    if |data| < HEADER_SIZE || data[..8] != MAGIC || data[8] == 0 then None else
    var v :- ReadFileHeader(data, supported);
    EndOfSections(data, HEADER_SIZE, {})
  }

  // ---------------------------------------------------------------- round trip

  lemma {:induction false} PaddingSkipped(data: bytes, offset: nat, alignment: nat)
    requires offset < |data| && offset + PaddingSize(offset, alignment) <= |data|
    ensures SkipPadding(data, offset, alignment) == Some(offset + PaddingSize(offset, alignment))
  {
  }

  /** Where the payload of a section written at `pos` starts. */
  function PayloadAt(pos: nat, s: Section): nat
    requires s.id < 128
  {
    pos + |Front(s)| + PaddingSize(pos + |Front(s)|, s.alignment)
  }

  lemma {:induction false} FrontBytes(data: bytes, pos: nat, id: byte, n: bytes, a: bytes, rest: bytes)
    requires pos <= |data| && data[pos..] == [id] + n + a + rest
    ensures pos < |data| && data[pos] == id && data[pos + 1..] == n + (a + rest)
    ensures |data| - |rest| == pos + |[id] + n + a|
  {
    assert data[pos] == data[pos..][0] && data[pos + 1..] == data[pos..][1..];
  }

  lemma {:induction false} AlignedFront(data: bytes, pos: nat, s: Section, rest: bytes)
    requires SectionOk(s) && pos <= |data| && data[pos..] == Front(s) + rest && |rest| >= |s.payload| && rest != []
    requires s.alignment > 1 && PayloadAt(pos, s) <= |data|
    ensures ReadSectionHeader(data, pos) == Some((SectionHeader(s.id, |s.payload|, true, s.alignment), PayloadAt(pos, s)))
  {
    hide VarInt, ReadVarInt, SkipPadding, PaddingSize, PowerOfTwo;
    var n, a := VarInt(|s.payload|), VarInt(s.alignment);
    FrontBytes(data, pos, s.id + 128, n, a, rest);
    VarIntRoundTrip(|s.payload|, a + rest);
    VarIntRoundTrip(s.alignment, rest);
    PaddingSkipped(data, pos + |Front(s)|, s.alignment);
  }

  lemma {:induction false} UnalignedFront(data: bytes, pos: nat, s: Section, rest: bytes)
    requires SectionOk(s) && pos <= |data| && data[pos..] == Front(s) + rest && |rest| >= |s.payload| && rest != []
    requires s.alignment <= 1
    ensures ReadSectionHeader(data, pos) == Some((SectionHeader(s.id, |s.payload|, false, s.alignment), PayloadAt(pos, s)))
  {
    hide VarInt, ReadVarInt, SkipPadding, PaddingSize, PowerOfTwo;
    var n := VarInt(|s.payload|);
    FrontBytes(data, pos, s.id, n, [], rest);
    assert [] + rest == rest;
    VarIntRoundTrip(|s.payload|, rest);
    NoPadding(pos + |Front(s)|, s.alignment);
  }

  lemma {:induction false} FrontReadBack(data: bytes, pos: nat, s: Section, rest: bytes)
    requires SectionOk(s) && pos <= |data| && data[pos..] == Front(s) + rest && |rest| >= |s.payload|
    requires rest != []
    ensures var r := ReadSectionHeader(data, pos);
            var start := PayloadAt(pos, s);
            start <= |data| ==> r == Some((SectionHeader(s.id, |s.payload|, s.alignment > 1, s.alignment), start))
  {
    hide Front, ReadSectionHeader, PowerOfTwo;
    if PayloadAt(pos, s) <= |data| {
      if s.alignment > 1 {
        AlignedFront(data, pos, s, rest);
      } else {
        UnalignedFront(data, pos, s, rest);
      }
    }
  }

  lemma {:induction false} NoPadding(pos: nat, alignment: nat)
    requires PowerOfTwo(alignment) && alignment <= 1
    ensures alignment == 1 && PaddingSize(pos, alignment) == 0
  {
  }

  lemma {:induction false} SectionReadBack(before: bytes, s: Section, after: bytes)
    requires SectionOk(s) && after != []
    ensures var data, pos := before + WriteSection(|before|, s) + after, |before|;
            var start := PayloadAt(pos, s);
            && ReadSectionHeader(data, pos) == Some((SectionHeader(s.id, |s.payload|, s.alignment > 1, s.alignment), start))
            && start + |s.payload| == pos + |WriteSection(pos, s)|
            && data[start..start + |s.payload|] == s.payload
  {
    hide VarInt, ReadSectionHeader, Padding, PaddingSize, PowerOfTwo;
    var pos := |before|;
    var data, padding := before + WriteSection(pos, s) + after, Padding(pos + |Front(s)|, s.alignment);
    assert data[pos..] == Front(s) + (padding + s.payload + after);
    FrontReadBack(data, pos, s, padding + s.payload + after);
    var start := PayloadAt(pos, s);
    assert data == (before + Front(s) + padding) + (s.payload + after);
    assert |before + Front(s) + padding| == start;
    assert data[start..start + |s.payload|] == s.payload;
  }

  /** The sections by identifier. */
  function Payloads(ss: seq<Section>, found: map<nat, bytes>): map<nat, bytes> {
    if ss == [] then found else Payloads(ss[1..], found[ss[0].id := ss[0].payload])
  }

  lemma {:induction false} AlignmentIsAccepted(s: Section)
    requires SectionOk(s)
    ensures AlignmentAccepted(SectionHeader(s.id, |s.payload|, s.alignment > 1, s.alignment))
  {
  }

  lemma {:induction false} EndByte(data: bytes, pos: nat)
    requires pos < |data| && data[pos] == 0
    ensures ReadSectionHeader(data, pos) == Some((SectionHeader(0, 0, false, 1), pos + 1))
  {
  }

  lemma {:induction false} NoSections(before: bytes, found: map<nat, bytes>)
    ensures Discover(before + WriteSections(|before|, []) + [0], |before|, found) == Some(found) == Some(Payloads([], found))
  {
    EndByte(before + WriteSections(|before|, []) + [0], |before|);
  }

  lemma {:induction false} PayloadsStep(ss: seq<Section>, found: map<nat, bytes>)
    requires ss != []
    ensures Payloads(ss, found) == Payloads(ss[1..], found[ss[0].id := ss[0].payload])
  {
  }

  lemma {:induction false} NothingSeen(before: bytes, seen: set<nat>, trailing: bytes)
    requires 0 !in seen
    ensures |WriteSections(|before|, [])| == 0
    ensures EndOfSections(before + WriteSections(|before|, []) + [0] + trailing, |before|, seen) == Some(|before| + 1)
  {
    EndByte(before + WriteSections(|before|, []) + [0] + trailing, |before|);
  }

  /** One more section in the file, seen from the position where it starts. */
  lemma {:induction false} FirstSection(before: bytes, ss: seq<Section>, after: bytes)
    requires SmallIds(ss) && ss != []
    ensures var first := WriteSection(|before|, ss[0]);
            var rest := WriteSections(|before| + |first|, ss[1..]);
            && before + WriteSections(|before|, ss) + after == before + first + (rest + after)
            && before + WriteSections(|before|, ss) + after == (before + first) + rest + after
            && |WriteSections(|before|, ss)| == |first| + |rest|
  {
    hide WriteSection;
    var first := WriteSection(|before|, ss[0]);
    var rest := WriteSections(|before| + |first|, ss[1..]);
    assert WriteSections(|before|, ss) == first + rest;
    assert before + (first + rest) + after == before + first + (rest + after);
    assert before + (first + rest) + after == (before + first) + rest + after;
  }

  lemma {:induction false} OneDiscovered(before: bytes, s: Section, after: bytes, found: map<nat, bytes>)
    requires SectionOk(s) && after != []
    ensures var data, first := before + WriteSection(|before|, s) + after, WriteSection(|before|, s);
            Discover(data, |before|, found) == Discover(data, |before| + |first|, found[s.id := s.payload])
  {
    hide SectionOk, WriteSection, ReadSectionHeader, AlignmentAccepted, PayloadAt, Discover;
    SectionReadBack(before, s, after);
    AlignmentIsAccepted(s);
    DiscoverStep(before + WriteSection(|before|, s) + after, |before|, found);
    SmallId(s);
  }

  lemma {:induction false} OneSeen(before: bytes, s: Section, after: bytes, seen: set<nat>)
    requires SectionOk(s) && after != [] && s.id !in seen
    ensures var data, first := before + WriteSection(|before|, s) + after, WriteSection(|before|, s);
            EndOfSections(data, |before|, seen) == EndOfSections(data, |before| + |first|, seen + {s.id})
  {
    hide SectionOk, WriteSection, ReadSectionHeader, PayloadAt, EndOfSections;
    SectionReadBack(before, s, after);
    EndStep(before + WriteSection(|before|, s) + after, |before|, seen);
    SmallId(s);
  }

  lemma {:induction false} SectionsDiscovered(before: bytes, ss: seq<Section>, found: map<nat, bytes>)
    requires SmallIds(ss) && forall i :: 0 <= i < |ss| ==> SectionOk(ss[i])
    ensures var data := before + WriteSections(|before|, ss) + [0];
            Discover(data, |before|, found) == Some(Payloads(ss, found))
    decreases |ss|
  {
    hide SectionOk, WriteSection, WriteSections, ReadSectionHeader, AlignmentAccepted, PayloadAt, Discover, Payloads;
    var data := before + WriteSections(|before|, ss) + [0];
    if ss == [] {
      NoSections(before, found);
    } else {
      PayloadsStep(ss, found);
      assert SectionOk(ss[0]);
      var first := WriteSection(|before|, ss[0]);
      var rest := WriteSections(|before| + |first|, ss[1..]);
      FirstSection(before, ss, [0]);
      OneDiscovered(before, ss[0], rest + [0], found);
      SectionsDiscovered(before + first, ss[1..], found[ss[0].id := ss[0].payload]);
    }
  }

  lemma {:induction false} SmallId(s: Section)
    requires SectionOk(s)
    ensures 0 < s.id < 128
  {
  }

  lemma {:induction false} EndFound(before: bytes, ss: seq<Section>, seen: set<nat>, trailing: bytes)
    requires SmallIds(ss) && SectionsOk(ss) && 0 !in seen && forall i :: 0 <= i < |ss| ==> ss[i].id !in seen
    ensures var data := before + WriteSections(|before|, ss) + [0] + trailing;
            EndOfSections(data, |before|, seen) == Some(|before| + |WriteSections(|before|, ss)| + 1)
    decreases |ss|
  {
    hide SectionOk, WriteSection, WriteSections, ReadSectionHeader, PayloadAt, EndOfSections;
    var data := before + WriteSections(|before|, ss) + [0] + trailing;
    if ss == [] {
      NothingSeen(before, seen, trailing);
    } else {
      assert SectionOk(ss[0]);
      var first := WriteSection(|before|, ss[0]);
      var rest := WriteSections(|before| + |first|, ss[1..]);
      FirstSection(before, ss, [0] + trailing);
      assert data == before + WriteSections(|before|, ss) + ([0] + trailing);
      SmallId(ss[0]);
      OneSeen(before, ss[0], rest + ([0] + trailing), seen);
      EndFound(before + first, ss[1..], seen + {ss[0].id}, trailing);
      assert (before + first) + rest + [0] + trailing == data;
    }
  }

  lemma {:induction false} EndStep(data: bytes, offset: nat, seen: set<nat>)
    requires offset <= |data|
    ensures EndOfSections(data, offset, seen) ==
            match ReadSectionHeader(data, offset)
            case None => None
            case Some((h, start)) =>
              if h.length > |data| - start || h.id in seen then None
              else if h.id == 0 then Some(start)
              else EndOfSections(data, start + h.length, seen + {h.id})
  {
    hide ReadSectionHeader;
  }

  lemma {:induction false} HeaderReadBack(v: Version, rest: bytes, supported: set<Version>)
    requires v in supported && v.AtLeast(MIN_SUPPORTED_VERSION) && v.major < 256 && v.minor < 256 && v.tag < 0x1_0000
    ensures ReadFileHeader(WriteFileHeader(v) + rest, supported) == Some(v)
    ensures (WriteFileHeader(v) + rest)[8] == v.major && (WriteFileHeader(v) + rest)[..8] == MAGIC
  {
    var data := WriteFileHeader(v) + rest;
    assert LE(v.major, 1) == [v.major] && LE(v.minor, 1) == [v.minor];
    assert LE(v.tag, 2) == [v.tag % 256] + LE(v.tag / 256, 1) == [v.tag % 256, v.tag / 256];
    assert data[..8] == MAGIC;
    assert data[8] == v.major && data[9] == v.minor && data[10] == v.tag % 256 && data[11] == v.tag / 256;
  }

  /** The reader gets the version and every payload back, in a file with any set of distinct sections. */
  lemma {:induction false} FileRoundTrip(v: Version, ss: seq<Section>, supported: set<Version>)
    requires SmallIds(ss) && SectionsOk(ss) && v in supported && v.AtLeast(MIN_SUPPORTED_VERSION)
    requires v.major < 256 && v.minor < 256 && v.tag < 0x1_0000
    ensures WriteFile(v, ss).Some? && |WriteFile(v, ss).value| >= HEADER_SIZE
    ensures ReadFileHeader(WriteFile(v, ss).value, supported) == Some(v)
    ensures Discover(WriteFile(v, ss).value, HEADER_SIZE, map[]) == Some(Payloads(ss, map[]))
  {
    hide WriteSections, Discover, ReadFileHeader, WriteFileHeader;
    var header, body := WriteFileHeader(v), WriteSections(HEADER_SIZE, ss);
    assert header + body + [0] == header + (body + [0]);
    HeaderReadBack(v, body + [0], supported);
    SectionsDiscovered(header, ss, map[]);
  }

  /** The size is exact, whatever bytes follow the file. */
  lemma {:induction false} SizeIsExact(v: Version, ss: seq<Section>, supported: set<Version>, trailing: bytes)
    requires SmallIds(ss) && SectionsOk(ss) && v in supported && v.AtLeast(MIN_SUPPORTED_VERSION)
    requires v.major < 256 && v.minor < 256 && v.tag < 0x1_0000
    ensures WriteFile(v, ss).Some?
    ensures BytecodeSize(WriteFile(v, ss).value + trailing, supported) == Some(|WriteFile(v, ss).value|)
  {
    hide WriteSections, EndOfSections, ReadFileHeader, WriteFileHeader;
    var header, body := WriteFileHeader(v), WriteSections(HEADER_SIZE, ss);
    assert header + body + [0] + trailing == header + (body + [0] + trailing);
    HeaderReadBack(v, body + [0] + trailing, supported);
    EndFound(header, ss, {}, trailing);
  }

  /** The payload found under an identifier is the one written under it. */
  lemma {:induction false} PayloadOf(ss: seq<Section>, found: map<nat, bytes>, i: nat)
    requires SectionsOk(ss) && i < |ss|
    ensures ss[i].id in Payloads(ss, found) && Payloads(ss, found)[ss[i].id] == ss[i].payload
    decreases |ss|
  {
    if i == 0 {
      KeptPayload(ss[1..], found[ss[0].id := ss[0].payload], ss[0].id);
    } else {
      assert SectionsOk(ss[1..]);
      PayloadOf(ss[1..], found[ss[0].id := ss[0].payload], i - 1);
    }
  }

  lemma {:induction false} KeptPayload(ss: seq<Section>, found: map<nat, bytes>, id: nat)
    requires forall i :: 0 <= i < |ss| ==> ss[i].id != id
    ensures id in Payloads(ss, found) <==> id in found
    ensures id in found ==> Payloads(ss, found)[id] == found[id]
  {
    if ss != [] {
      KeptPayload(ss[1..], found[ss[0].id := ss[0].payload], id);
    }
  }

  /** A payload starts at a multiple of its alignment, so a table aligned in it is aligned in the file. */
  lemma {:induction false} InnerTablesAligned(pos: nat, s: Section, inner: nat, width: nat)
    requires s.id < 128 && s.alignment >= 2 && width >= 1 && s.alignment % width == 0 && inner % width == 0
    ensures PayloadAt(pos, s) % s.alignment == 0 && (PayloadAt(pos, s) + inner) % width == 0
  {
    hide Front;
    var start := PayloadAt(pos, s);
    var a, b, c := start / s.alignment, s.alignment / width, inner / width;
    assert start == s.alignment * a && s.alignment == width * b && inner == width * c;
    assert start + inner == width * (b * a + c) by {
      assert width * b * a == width * (b * a);
      assert width * (b * a) + width * c == width * (b * a + c);
    }
    RemainderIs(start + inner, width, b * a + c, 0);
  }
}
