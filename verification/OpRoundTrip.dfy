/**
  The versioned operation codec loses nothing silently: either the writer refuses, or the
  reader of the same version returns the operation, with skipped attributes restored to
  their default and dropped results given their built type.
  */
module OpRoundTrip {
  import opened Base
  import opened VarInts
  import opened BitFields
  import opened Ir
  import opened AttrCodec
  import opened AttrRoundTrip
  import opened OpCodec

  /**
    What the generators enforce when they run, and what the generated code takes for
    granted: unit attributes are optional; a required attribute younger than its operation
    has a fallback; results get versions only when none is variadic; with segments a required
    operand is as old as the operation; one word holds the flags.
    */
  predicate SchemaOk(s: OpSchema) {
    && (forall i :: 0 <= i < |s.attrs| ==> FieldOk(s, s.attrs[i]))
    && (s.segmented ==> forall i :: 0 <= i < |s.operands| ==> RequiredIsOld(s, s.operands[i]))
    && (s.HasVersionedResults() ==> !s.manyResults)
    && |s.OptionalFields()| <= 64
  }

  predicate RequiredIsOld(s: OpSchema, o: OperandSchema) {
    !o.arity.ZeroOrOne? ==> o.since == s.since
  }

  /** Arrays of booleans; only these can be all false. */
  const BOOLS := KInts(1, false)

  predicate FieldOk(s: OpSchema, f: FieldSchema) {
    && KindOk(f.kind, 256)
    && (f.unit ==> f.optional)
    && (!f.optional && f.fallback.NoDefault? ==> f.since == s.since)
    && (f.fallback.AllFalse? ==> !f.optional && f.kind == BOOLS && s.segmented && f.fallback.operand < |s.operands| &&
                                 s.operands[f.fallback.operand].arity.Many?)
  }

  // ---------------------------------------------------------------- what the reader returns

  function RestoredResults(s: OpSchema, v: Version, rs: seq<ResultSchema>, types: seq<Type>): (r: seq<Type>)
    requires |rs| == |types|
    ensures |r| == |types|
  {
    seq(|rs|, i requires 0 <= i < |rs| => if Compatible(s, v, rs[i]) then types[i] else rs[i].built)
  }

  function RestoredField(v: Version, f: FieldSchema, a: Option<Attr>): Option<Attr> {
    if v.AtLeast(f.since) then a else if f.fallback.Default? then Some(f.fallback.value) else None
  }

  function RestoredFields(v: Version, fs: seq<FieldSchema>, attrs: seq<Option<Attr>>): (r: seq<Option<Attr>>)
    requires |fs| == |attrs|
    ensures |r| == |attrs|
  {
    seq(|fs|, i requires 0 <= i < |fs| => RestoredField(v, fs[i], attrs[i]))
  }

  /** The operation after a trip through version `v`. */
  function Restored(s: OpSchema, v: Version, h: Head): Head
    requires Shaped(s, h)
  {
    Head(if s.HasVersionedResults() && |h.results| == |s.results| then
           RestoredResults(s, v, s.results, h.results)
         else h.results,
         FixUp(v, s.attrs, RestoredFields(v, s.attrs, h.attrs), h.operands),
         h.operands)
  }

  // ---------------------------------------------------------------- what the reader accepts

  predicate ReadableField(env: Env, f: FieldSchema, a: Option<Attr>) {
    env.version.AtLeast(f.since) && !f.unit && a.Some? ==> Readable(env, f.kind, a.value)
  }

  predicate ReadableFields(env: Env, fs: seq<FieldSchema>, attrs: seq<Option<Attr>>)
    requires |fs| == |attrs|
  {
    fs == [] || (ReadableField(env, fs[0], attrs[0]) && ReadableFields(env, fs[1..], attrs[1..]))
  }

  predicate KnownIndices(group: seq<nat>, limit: nat) {
    group == [] || (group[0] < limit && KnownIndices(group[1..], limit))
  }

  predicate ReadableGroups(groups: seq<seq<nat>>, before: nat, limit: nat) {
    groups == [] ||
    (before + |groups[0]| <= MAX_COUNT && KnownIndices(groups[0], limit) &&
     ReadableGroups(groups[1..], before + |groups[0]|, limit))
  }

  predicate ReadableOperands(s: OpSchema, groups: seq<seq<nat>>, limit: nat) {
    if s.segmented then ReadableGroups(groups, 0, limit)
    else |groups| == 1 && KnownIndices(groups[0], limit) && (s.HasVariableOperands() ==> |groups[0]| <= MAX_COUNT)
  }

  predicate ReadableHead(env: Env, s: OpSchema, h: Head, limit: nat)
    requires Shaped(s, h)
  {
    && (s.CountsResults() ==> Numbered(s, env.version, |h.results|) <= MAX_COUNT)
    && ReadableFields(env, s.attrs, h.attrs)
    && ReadableOperands(s, h.operands, limit)
  }

  // ---------------------------------------------------------------- results

  lemma {:induction false} KeptRoundTrip(w: Env, r: Env, s: OpSchema, rs: seq<ResultSchema>, types: seq<Type>,
                                         used: seq<bool>, rest: bytes)
    requires KnowsMore(w, r) && |rs| == |types| == |used| && Kept(s, w.version, rs, types, used).Some?
    requires WriteTypes(w, Kept(s, w.version, rs, types, used).value).Some?
    ensures ReadKept(r, s, rs, WriteTypes(w, Kept(s, w.version, rs, types, used).value).value + rest) ==
            Got(RestoredResults(s, w.version, rs, types), rest)
  {
    hide ReadType, Index;
    var kept := Kept(s, w.version, rs, types, used).value;
    if rs == [] {
      assert WriteTypes(w, kept).value + rest == rest;
    } else if Compatible(s, w.version, rs[0]) {
      var head, tail := Index(w.types, Some(kept[0])).value, WriteTypes(w, kept[1..]).value;
      Assoc(head, tail, rest);
      TypeRoundTrip(w, r, types[0], tail + rest);
      KeptRoundTrip(w, r, s, rs[1..], types[1..], used[1..], rest);
      assert RestoredResults(s, w.version, rs, types) == [types[0]] + RestoredResults(s, w.version, rs[1..], types[1..]);
    } else {
      KeptRoundTrip(w, r, s, rs[1..], types[1..], used[1..], rest);
      assert RestoredResults(s, w.version, rs, types) ==
             [rs[0].built] + RestoredResults(s, w.version, rs[1..], types[1..]);
    }
  }

  lemma {:induction false} KeptCount(s: OpSchema, v: Version, rs: seq<ResultSchema>, types: seq<Type>, used: seq<bool>)
    requires |rs| == |types| == |used| && Kept(s, v, rs, types, used).Some?
    ensures |Kept(s, v, rs, types, used).value| == CountKept(s, v, rs)
  {
    if rs != [] {
      KeptCount(s, v, rs[1..], types[1..], used[1..]);
    }
  }

  lemma {:induction false} ResultCountRoundTrip(s: OpSchema, n: nat, rest: bytes)
    requires s.CountsResults() ==> n < TWO_TO_THE_64
    requires !s.CountsResults() ==> n == |s.results| || s.HasVersionedResults()
    ensures var count := if s.CountsResults() then VarInt(n) else [];
            ReadResultCount(s, count + rest) ==
            if !s.CountsResults() then Got(|s.results|, rest) else if n <= MAX_COUNT then Got(n, rest) else Fail
  {
    if s.CountsResults() {
      VarIntRoundTrip(n, rest);
    } else {
      assert [] + rest == rest;
    }
  }

  lemma {:induction false} VersionedResultsRoundTrip(w: Env, r: Env, s: OpSchema, types: seq<Type>,
                                                     used: seq<bool>, rest: bytes)
    requires KnowsMore(w, r) && s.HasVersionedResults() && |used| == |types| == |s.results|
    requires WriteResults(w, s, types, used).Some?
    ensures ReadResults(r, s, WriteResults(w, s, types, used).value + rest) ==
            if s.CountsResults() && Numbered(s, w.version, |types|) > MAX_COUNT then Fail
            else Got(RestoredResults(s, w.version, s.results, types), rest)
  {
    var kept := Kept(s, w.version, s.results, types, used).value;
    var count := if s.CountsResults() then VarInt(|kept|) else [];
    var body := WriteTypes(w, kept).value;
    Assoc(count, body, rest);
    KeptCount(s, w.version, s.results, types, used);
    ResultCountRoundTrip(s, |kept|, body + rest);
    KeptRoundTrip(w, r, s, s.results, types, used, rest);
  }

  lemma {:induction false} PlainResultsRoundTrip(w: Env, r: Env, s: OpSchema, types: seq<Type>, used: seq<bool>,
                                                 rest: bytes)
    requires KnowsMore(w, r) && !s.HasVersionedResults() && |used| == |types|
    requires s.CountsResults() || |types| == |s.results|
    requires WriteResults(w, s, types, used).Some?
    ensures ReadResults(r, s, WriteResults(w, s, types, used).value + rest) ==
            if s.CountsResults() && |types| > MAX_COUNT then Fail else Got(types, rest)
  {
    var count := if s.CountsResults() then VarInt(|types|) else [];
    var body := WriteTypes(w, types).value;
    Assoc(count, body, rest);
    ResultCountRoundTrip(s, |types|, body + rest);
    TypesRoundTrip(w, r, types, rest);
  }

  lemma {:induction false} ResultsRoundTrip(w: Env, r: Env, s: OpSchema, types: seq<Type>, used: seq<bool>, rest: bytes)
    requires KnowsMore(w, r) && SchemaOk(s) && |used| == |types| && (s.manyResults || |types| == |s.results|)
    requires WriteResults(w, s, types, used).Some?
    ensures ReadResults(r, s, WriteResults(w, s, types, used).value + rest) ==
            if s.CountsResults() && Numbered(s, w.version, |types|) > MAX_COUNT then Fail
            else Got(if s.HasVersionedResults() then RestoredResults(s, w.version, s.results, types) else types, rest)
  {
    if s.HasVersionedResults() {
      VersionedResultsRoundTrip(w, r, s, types, used, rest);
    } else {
      PlainResultsRoundTrip(w, r, s, types, used, rest);
    }
  }

  // ---------------------------------------------------------------- flags

  /** Without a flag word in the file no optional field is present. */
  lemma {:induction false} NoFlagsNoFields(s: OpSchema, v: Version, present: seq<bool>, i: nat)
    requires |present| == |s.OptionalFields()| && FieldsAllowed(s, v, present)
    requires v.AtLeast(s.since) && !s.HasFlags(v) && i < |present|
    ensures !present[i]
  {
    var fields := s.OptionalFields();
    assert IsOldest(fields, Oldest(fields));
    assert fields[i] in fields;
  }

  lemma {:induction false} FlagsReadBack(s: OpSchema, v: Version, present: seq<bool>, rest: bytes)
    requires |present| == |s.OptionalFields()| <= 64 && v.AtLeast(s.since)
    requires WriteFlags(s, v, present).Some?
    ensures ReadFlags(s, v, WriteFlags(s, v, present).value + rest) == Got(present, rest)
  {
    var fields := s.OptionalFields();
    if s.HasFlags(v) {
      VarIntRoundTrip(Flags(fields, present), rest);
      forall i | 0 <= i < |fields| ensures Bits(fields, Flags(fields, present))[i] == present[i] {
        FlagsRoundTrip(fields, present, i);
      }
      assert Bits(fields, Flags(fields, present)) == present;
    } else {
      assert [] + rest == rest;
      forall i | 0 <= i < |fields| ensures Bits(fields, 0)[i] == present[i] {
        ZeroHasNoBits(BitOf(fields, i));
        NoFlagsNoFields(s, v, present, i);
      }
      assert Bits(fields, 0) == present;
    }
  }

  predicate Dated(v: Version, fields: seq<Version>, present: seq<bool>)
    requires |present| == |fields|
  {
    forall i :: 0 <= i < |present| && present[i] ==> v.AtLeast(fields[i])
  }

  lemma {:induction false} DatedSplits(v: Version, since: Version, a: seq<Version>, b: seq<Version>,
                                       p: seq<bool>, q: seq<bool>)
    requires |a| == |p| && |b| == |q| && v.AtLeast(since)
    requires forall i :: 0 <= i < |p + q| && (p + q)[i] ==> (a + b)[i] == since || v.AtLeast((a + b)[i])
    ensures Dated(v, a, p) && Dated(v, b, q)
  {
    forall i | 0 <= i < |p| && p[i] ensures v.AtLeast(a[i]) {
      assert (p + q)[i] && (a + b)[i] == a[i];
    }
    forall i | 0 <= i < |q| && q[i] ensures v.AtLeast(b[i]) {
      assert (p + q)[|p| + i] && (a + b)[|p| + i] == b[i];
    }
  }

  lemma {:induction false} PresenceSplits(s: OpSchema, v: Version, h: Head)
    requires Shaped(s, h) && FieldsAllowed(s, v, Presence(s, h)) && v.AtLeast(s.since)
    ensures Dated(v, AttrVersions(s.attrs), AttrPresence(s.attrs, h.attrs))
    ensures s.segmented ==> Dated(v, OperandVersions(s.operands), OperandPresence(s.operands, h.operands))
    ensures Presence(s, h)[..|AttrVersions(s.attrs)|] == AttrPresence(s.attrs, h.attrs)
    ensures s.segmented ==> Presence(s, h)[|AttrVersions(s.attrs)|..] == OperandPresence(s.operands, h.operands)
  {
    var b, q := if s.segmented then OperandVersions(s.operands) else [],
                if s.segmented then OperandPresence(s.operands, h.operands) else [];
    DatedSplits(v, s.since, AttrVersions(s.attrs), b, AttrPresence(s.attrs, h.attrs), q);
  }

  // ---------------------------------------------------------------- attributes

  lemma {:induction false} FieldRoundTrip(w: Env, r: Env, s: OpSchema, f: FieldSchema, a: Option<Attr>, rest: bytes)
    requires Linked(w, r) && FieldOk(s, f) && w.version.AtLeast(s.since)
    requires !f.optional ==> a.Some?
    requires f.unit && a.Some? ==> a == Some(Unit)
    requires f.optional && a.Some? ==> w.version.AtLeast(f.since)
    requires WriteField(w, f, a).Some?
    ensures ReadField(r, f, f.optional && a.Some?, WriteField(w, f, a).value + rest) ==
            if ReadableField(w, f, a) then Got(RestoredField(w.version, f, a), rest) else Fail
  {
    if w.version.AtLeast(f.since) && !f.unit && a.Some? {
      RoundTrip(w, r, f.kind, a.value, rest, 256);
    } else {
      assert WriteField(w, f, a).value + rest == rest;
    }
  }

  lemma {:induction false} FieldsRoundTrip(w: Env, r: Env, s: OpSchema, fs: seq<FieldSchema>, attrs: seq<Option<Attr>>,
                                           rest: bytes)
    requires Linked(w, r) && w.version.AtLeast(s.since) && |fs| == |attrs|
    requires forall i :: 0 <= i < |fs| ==> FieldOk(s, fs[i]) && (!fs[i].optional ==> attrs[i].Some?)
    requires forall i :: 0 <= i < |fs| && fs[i].unit && attrs[i].Some? ==> attrs[i] == Some(Unit)
    requires Dated(w.version, AttrVersions(fs), AttrPresence(fs, attrs))
    requires WriteFields(w, fs, attrs).Some?
    ensures ReadFields(r, fs, AttrPresence(fs, attrs), WriteFields(w, fs, attrs).value + rest) ==
            if ReadableFields(w, fs, attrs) then Got(RestoredFields(w.version, fs, attrs), rest) else Fail
  {
    if fs == [] {
      NoFields(w, r, rest);
    } else {
      hide FieldOk, AttrVersions, AttrPresence, ReadFields, WriteField, ReadableFields, RestoredFields, Dated, Linked;
      var head, tail := WriteField(w, fs[0], attrs[0]).value, WriteFields(w, fs[1..], attrs[1..]).value;
      Assoc(head, tail, rest);
      FieldsTail(w.version, fs, attrs);
      FieldRoundTrip(w, r, s, fs[0], attrs[0], tail + rest);
      FieldsRoundTrip(w, r, s, fs[1..], attrs[1..], rest);
      ReadFieldsStep(w, r, fs, attrs, head + (tail + rest), tail + rest, rest);
    }
  }

  lemma {:induction false} NoFields(w: Env, r: Env, rest: bytes)
    ensures ReadFields(r, [], [], WriteFields(w, [], []).value + rest) == Got([], rest)
    ensures RestoredFields(w.version, [], []) == []
  {
    assert [] + rest == rest;
  }

  lemma {:induction false} ReadFieldsStep(w: Env, r: Env, fs: seq<FieldSchema>, attrs: seq<Option<Attr>>,
                                          bs: bytes, rest: bytes, rest': bytes)
    requires |fs| == |attrs| > 0
    requires ReadField(r, fs[0], fs[0].optional && attrs[0].Some?, bs) ==
             if ReadableField(w, fs[0], attrs[0]) then Got(RestoredField(w.version, fs[0], attrs[0]), rest) else Fail
    requires ReadFields(r, fs[1..], AttrPresence(fs[1..], attrs[1..]), rest) ==
             if ReadableFields(w, fs[1..], attrs[1..]) then Got(RestoredFields(w.version, fs[1..], attrs[1..]), rest') else Fail
    ensures ReadFields(r, fs, AttrPresence(fs, attrs), bs) ==
            if ReadableFields(w, fs, attrs) then Got(RestoredFields(w.version, fs, attrs), rest') else Fail
  {
    hide ReadField, ReadableField, RestoredField;
    var has := AttrPresence(fs, attrs);
    assert (if fs[0].optional then has[1..] else has) == AttrPresence(fs[1..], attrs[1..]);
    assert RestoredFields(w.version, fs, attrs) ==
           [RestoredField(w.version, fs[0], attrs[0])] + RestoredFields(w.version, fs[1..], attrs[1..]);
  }

  lemma {:induction false} FieldsTail(v: Version, fs: seq<FieldSchema>, attrs: seq<Option<Attr>>)
    requires |fs| == |attrs| > 0 && Dated(v, AttrVersions(fs), AttrPresence(fs, attrs))
    ensures Dated(v, AttrVersions(fs[1..]), AttrPresence(fs[1..], attrs[1..]))
    ensures fs[0].optional && attrs[0].Some? ==> v.AtLeast(fs[0].since)
  {
    var present, versions := AttrPresence(fs, attrs), AttrVersions(fs);
    if fs[0].optional {
      assert versions[0] == fs[0].since && present[0] == attrs[0].Some?;
      assert versions[1..] == AttrVersions(fs[1..]) && present[1..] == AttrPresence(fs[1..], attrs[1..]);
    } else {
      assert versions == AttrVersions(fs[1..]) && present == AttrPresence(fs[1..], attrs[1..]);
    }
  }

  // ---------------------------------------------------------------- operands

  lemma {:induction false} NoIndices(limit: nat, rest: bytes)
    ensures ReadIndices(0, limit, WriteIndices([]).value + rest) == Got([], rest) && KnownIndices([], limit)
    ensures WriteIndices([]) == Some([])
  {
    assert [] + rest == rest;
  }

  lemma {:induction false} KnownIndicesStep(group: seq<nat>, limit: nat)
    requires group != []
    ensures KnownIndices(group, limit) <==> group[0] < limit && KnownIndices(group[1..], limit)
  {
  }

  lemma {:induction false} IndicesRoundTrip(group: seq<nat>, limit: nat, rest: bytes)
    requires WriteIndices(group).Some?
    ensures ReadIndices(|group|, limit, WriteIndices(group).value + rest) ==
            if KnownIndices(group, limit) then Got(group, rest) else Fail
  {
    hide VarInt, ReadVarInt, KnownIndices;
    if group == [] {
      NoIndices(limit, rest);
    } else {
      var tail := WriteIndices(group[1..]).value;
      Assoc(VarInt(group[0]), tail, rest);
      VarIntRoundTrip(group[0], tail + rest);
      IndicesRoundTrip(group[1..], limit, rest);
      KnownIndicesStep(group, limit);
      assert [group[0]] + group[1..] == group;
    }
  }

  lemma {:induction false} SizeRoundTrip(s: OpSchema, v: Version, o: OperandSchema, group: seq<nat>, body: bytes)
    requires GroupFits(o, group) && (o.arity.ZeroOrOne? && group != [] ==> v.AtLeast(o.since))
    ensures var size := if o.arity.Many? then VarInt(|group|) else [];
            ReadSize(s, v, o, o.arity.ZeroOrOne? && group != [], size + body) == Got(|group|, body)
  {
    if o.arity.Many? {
      VarIntRoundTrip(|group|, body);
      SmallSize(|group|);
    } else {
      assert [] + body == body;
      assert o.arity.ZeroOrOne? && group != [] ==> s.Reaches(o.since, v);
    }
  }

  lemma {:induction false} SmallSize(n: nat)
    requires n < 0x8000_0000
    ensures n % TWO_TO_THE_32 == n && n < TWO_TO_THE_64
  {
  }

  predicate GroupsFit(v: Version, os: seq<OperandSchema>, groups: seq<seq<nat>>)
    requires |os| == |groups|
  {
    (forall i :: 0 <= i < |os| ==> GroupFits(os[i], groups[i])) &&
    Dated(v, OperandVersions(os), OperandPresence(os, groups))
  }

  lemma {:induction false} GroupsTail(v: Version, os: seq<OperandSchema>, groups: seq<seq<nat>>)
    requires |os| == |groups| > 0 && GroupsFit(v, os, groups)
    ensures GroupFits(os[0], groups[0]) && GroupsFit(v, os[1..], groups[1..])
    ensures os[0].arity.ZeroOrOne? && groups[0] != [] ==> v.AtLeast(os[0].since)
  {
    var present, versions := OperandPresence(os, groups), OperandVersions(os);
    if os[0].arity.ZeroOrOne? {
      assert versions[0] == os[0].since && present[0] == (groups[0] != []);
      assert versions[1..] == OperandVersions(os[1..]) && present[1..] == OperandPresence(os[1..], groups[1..]);
    } else {
      assert versions == OperandVersions(os[1..]) && present == OperandPresence(os[1..], groups[1..]);
    }
  }

  lemma {:induction false} GroupRoundTrip(s: OpSchema, v: Version, o: OperandSchema, group: seq<nat>,
                                          before: nat, limit: nat, rest: bytes)
    requires GroupFits(o, group) && (o.arity.ZeroOrOne? && group != [] ==> v.AtLeast(o.since))
    requires WriteGroup(group, o.arity.Many?).Some?
    ensures ReadGroup(s, v, o, o.arity.ZeroOrOne? && group != [], before, limit,
                      WriteGroup(group, o.arity.Many?).value + rest) ==
            if before + |group| <= MAX_COUNT && KnownIndices(group, limit) then Got(group, rest) else Fail
  {
    var size := if o.arity.Many? then VarInt(|group|) else [];
    var body := WriteIndices(group).value;
    Assoc(size, body, rest);
    SizeRoundTrip(s, v, o, group, body + rest);
    IndicesRoundTrip(group, limit, rest);
  }

  lemma {:induction false} GroupsRoundTrip(s: OpSchema, v: Version, os: seq<OperandSchema>, groups: seq<seq<nat>>,
                                           before: nat, limit: nat, rest: bytes)
    requires |os| == |groups| && WriteGroups(os, groups).Some? && GroupsFit(v, os, groups)
    ensures ReadGroups(s, v, os, OperandPresence(os, groups), before, limit, WriteGroups(os, groups).value + rest) ==
            if ReadableGroups(groups, before, limit) then Got(groups, rest) else Fail
    decreases |os|
  {
    hide GroupsFit, GroupFits, OperandVersions, OperandPresence, KnownIndices, ReadGroups, ReadableGroups,
         WriteGroups;
    if os == [] {
      assert groups == [];
      NoGroups(s, v, before, limit, rest);
    } else {
      GroupsWritten(os, groups);
      GroupsTail(v, os, groups);
      GroupsRoundTrip(s, v, os[1..], groups[1..], before + |groups[0]|, limit, rest);
      GroupsCons(s, v, os, groups, before, limit, rest);
    }
  }

  lemma {:induction false} GroupsWritten(os: seq<OperandSchema>, groups: seq<seq<nat>>)
    requires |os| == |groups| > 0 && WriteGroups(os, groups).Some?
    ensures WriteGroups(os[1..], groups[1..]).Some?
  {
  }

  lemma {:induction false} NoGroups(s: OpSchema, v: Version, before: nat, limit: nat, rest: bytes)
    ensures OperandPresence([], []) == [] && ReadableGroups([], before, limit) && WriteGroups([], []).Some?
    ensures ReadGroups(s, v, [], [], before, limit, WriteGroups([], []).value + rest) == Got([], rest)
  {
    assert [] + rest == rest;
  }

  lemma {:induction false} GroupsCons(s: OpSchema, v: Version, os: seq<OperandSchema>, groups: seq<seq<nat>>,
                                      before: nat, limit: nat, rest: bytes)
    requires |os| == |groups| > 0 && WriteGroups(os, groups).Some?
    requires GroupFits(os[0], groups[0]) && (os[0].arity.ZeroOrOne? && groups[0] != [] ==> v.AtLeast(os[0].since))
    requires ReadGroups(s, v, os[1..], OperandPresence(os[1..], groups[1..]), before + |groups[0]|, limit,
                        WriteGroups(os[1..], groups[1..]).value + rest) ==
             if ReadableGroups(groups[1..], before + |groups[0]|, limit) then Got(groups[1..], rest) else Fail
    ensures ReadGroups(s, v, os, OperandPresence(os, groups), before, limit, WriteGroups(os, groups).value + rest) ==
            if ReadableGroups(groups, before, limit) then Got(groups, rest) else Fail
  {
    hide OperandVersions, OperandPresence, GroupFits, ReadGroup, WriteGroup, KnownIndices, ReadGroups, ReadableGroups;
    var head, tail := WriteGroup(groups[0], os[0].arity.Many?).value, WriteGroups(os[1..], groups[1..]).value;
    Assoc(head, tail, rest);
    GroupRoundTrip(s, v, os[0], groups[0], before, limit, tail + rest);
    ReadGroupsStep(s, v, os, groups, before, limit, head + (tail + rest), tail + rest, rest);
  }

  lemma {:induction false} ReadGroupsStep(s: OpSchema, v: Version, os: seq<OperandSchema>, groups: seq<seq<nat>>,
                                          before: nat, limit: nat, bs: bytes, rest: bytes, rest': bytes)
    requires |groups| == |os| && os != []
    requires ReadGroup(s, v, os[0], os[0].arity.ZeroOrOne? && groups[0] != [], before, limit, bs) ==
             if before + |groups[0]| <= MAX_COUNT && KnownIndices(groups[0], limit) then Got(groups[0], rest) else Fail
    requires ReadGroups(s, v, os[1..], OperandPresence(os[1..], groups[1..]), before + |groups[0]|, limit, rest) ==
             if ReadableGroups(groups[1..], before + |groups[0]|, limit) then Got(groups[1..], rest') else Fail
    ensures ReadGroups(s, v, os, OperandPresence(os, groups), before, limit, bs) ==
            if ReadableGroups(groups, before, limit) then Got(groups, rest') else Fail
  {
    hide ReadGroup, KnownIndices, OperandPresence, OperandVersions;
    PresenceStep(os, groups);
    assert [groups[0]] + groups[1..] == groups;
  }

  lemma {:induction false} PresenceStep(os: seq<OperandSchema>, groups: seq<seq<nat>>)
    requires |groups| == |os| && os != []
    ensures var has, opt := OperandPresence(os, groups), os[0].arity.ZeroOrOne?;
            && (opt ==> |has| > 0 && has[0] == (groups[0] != []))
            && (if opt then has[1..] else has) == OperandPresence(os[1..], groups[1..])
  {
  }

  lemma {:induction false} SingleGroupRoundTrip(s: OpSchema, v: Version, group: seq<nat>, limit: nat,
                                                has: seq<bool>, rest: bytes)
    requires !s.segmented && (s.HasVariableOperands() || |group| == |s.operands|)
    requires WriteOperands(s, [group]).Some?
    ensures ReadOperands(s, v, has, limit, WriteOperands(s, [group]).value + rest) ==
            if ReadableOperands(s, [group], limit) then Got([group], rest) else Fail
  {
    hide KnownIndices, ReadIndices, WriteIndices, VarInt, ReadVarInt, ReadCount;
    if s.operands == [] {
      assert group == [];
      NoIndices(limit, rest);
      assert [] + rest == rest;
    } else {
      var size := if s.HasVariableOperands() then VarInt(|group|) else [];
      var body := WriteIndices(group).value;
      Assoc(size, body, rest);
      IndicesRoundTrip(group, limit, rest);
      SingleSize(s, |group|, body + rest);
    }
  }

  lemma {:induction false} SingleSize(s: OpSchema, n: nat, rest: bytes)
    requires s.HasVariableOperands() ==> n < TWO_TO_THE_64
    ensures s.HasVariableOperands() ==> ReadCount(VarInt(n) + rest) == if n <= MAX_COUNT then Got(n, rest) else Fail
    ensures [] + rest == rest
  {
    if s.HasVariableOperands() {
      VarIntRoundTrip(n, rest);
    }
  }

  lemma {:induction false} OperandsRoundTrip(s: OpSchema, v: Version, h: Head, limit: nat, has: seq<bool>, rest: bytes)
    requires Shaped(s, h) && WriteOperands(s, h.operands).Some?
    requires s.segmented ==> has == OperandPresence(s.operands, h.operands) && Dated(v, OperandVersions(s.operands), has)
    ensures ReadOperands(s, v, has, limit, WriteOperands(s, h.operands).value + rest) ==
            if ReadableOperands(s, h.operands, limit) then Got(h.operands, rest) else Fail
  {
    if s.segmented {
      assert GroupsFit(v, s.operands, h.operands);
      GroupsRoundTrip(s, v, s.operands, h.operands, 0, limit, rest);
    } else {
      assert h.operands == [h.operands[0]];
      SingleGroupRoundTrip(s, v, h.operands[0], limit, has, rest);
    }
  }

  // ---------------------------------------------------------------- the operation

  lemma {:induction false} HeadBytes(w: Env, s: OpSchema, h: Head, used: seq<bool>, rest: bytes)
    requires Shaped(s, h) && |used| == |h.results| && WriteHead(w, s, h, used).Some?
    ensures WriteHead(w, s, h, used).value + rest ==
            WriteResults(w, s, h.results, used).value +
            (WriteFlags(s, w.version, Presence(s, h)).value +
             (WriteFields(w, s.attrs, h.attrs).value + (WriteOperands(s, h.operands).value + rest)))
  {
    hide WriteResults, WriteFlags, WriteFields, WriteOperands;
  }

  /** Flags, attributes and operands: the parts that depend on which fields are present. */
  lemma {:induction false} FieldsAndOperandsRoundTrip(w: Env, r: Env, s: OpSchema, h: Head, limit: nat, rest: bytes)
    requires Linked(w, r) && SchemaOk(s) && w.version.AtLeast(s.since) && Shaped(s, h)
    requires WriteFlags(s, w.version, Presence(s, h)).Some? && WriteFields(w, s.attrs, h.attrs).Some?
    requires WriteOperands(s, h.operands).Some?
    ensures var present, n := Presence(s, h), |AttrVersions(s.attrs)|;
            var operands := WriteOperands(s, h.operands).value + rest;
            && ReadFields(r, s.attrs, present[..n], WriteFields(w, s.attrs, h.attrs).value + operands) ==
               (if ReadableFields(w, s.attrs, h.attrs) then
                  Got(RestoredFields(w.version, s.attrs, h.attrs), operands)
                else Fail)
            && ReadOperands(s, w.version, present[n..], limit, operands) ==
               if ReadableOperands(s, h.operands, limit) then Got(h.operands, rest) else Fail
  {
    hide ReadFields, ReadOperands, WriteFields, WriteOperands, ReadableFields, ReadableOperands, RestoredFields,
         Linked;
    PresenceSplits(s, w.version, h);
    FieldsRoundTrip(w, r, s, s.attrs, h.attrs, WriteOperands(s, h.operands).value + rest);
    OperandsRoundTrip(s, w.version, h, limit, Presence(s, h)[|AttrVersions(s.attrs)|..], rest);
  }

  /**
    For every schema, operation and version that has the operation: what the writer accepts,
    the reader returns as `Restored` (consuming the operation's own bytes only), or it
    reports an error, and it does so exactly when the operation is not readable.
    */
  lemma {:induction false} HeadRoundTrip(w: Env, r: Env, s: OpSchema, h: Head, used: seq<bool>, limit: nat, rest: bytes)
    requires Linked(w, r) && SchemaOk(s) && w.version.AtLeast(s.since)
    requires Shaped(s, h) && |used| == |h.results| && WriteHead(w, s, h, used).Some?
    ensures ReadHead(r, s, limit, WriteHead(w, s, h, used).value + rest) ==
            if ReadableHead(w, s, h, limit) then Got(Restored(s, w.version, h), rest) else Fail
  {
    hide ReadResults, ReadFlags, ReadFields, ReadOperands, WriteResults, WriteFlags, WriteFields, WriteOperands,
         ReadableFields, ReadableOperands, RestoredFields, RestoredResults, FixUp, Presence, AttrVersions;
    var operands := WriteOperands(s, h.operands).value + rest;
    var attrs := WriteFields(w, s.attrs, h.attrs).value + operands;
    HeadBytes(w, s, h, used, rest);
    ResultsRoundTrip(w, r, s, h.results, used, WriteFlags(s, w.version, Presence(s, h)).value + attrs);
    FlagsReadBack(s, w.version, Presence(s, h), attrs);
    FieldsAndOperandsRoundTrip(w, r, s, h, limit, rest);
  }

  // ---------------------------------------------------------------- when nothing is changed

  /** Dropped results have the type the reader builds. */
  predicate BuiltResults(s: OpSchema, v: Version, h: Head) {
    s.HasVersionedResults() && |h.results| == |s.results| ==>
      forall i :: 0 <= i < |s.results| && !Compatible(s, v, s.results[i]) ==> h.results[i] == s.results[i].built
  }

  /**
    Attributes the version lacks: an optional one has no default that would be put in its
    place, and an all-false vector is as long as its operand group.
    */
  predicate FieldRestorable(v: Version, f: FieldSchema, a: Option<Attr>, groups: seq<seq<nat>>) {
    v.Before(f.since) ==>
      && (f.optional ==> !f.fallback.Default?)
      && (f.fallback.AllFalse? && f.fallback.operand < |groups| && a.Some? && a.value.Ints? ==>
            |a.value.xs| == |groups[f.fallback.operand]|)
  }

  predicate HeadKept(s: OpSchema, v: Version, h: Head)
    requires Shaped(s, h)
  {
    BuiltResults(s, v, h) && forall i :: 0 <= i < |s.attrs| ==> FieldRestorable(v, s.attrs[i], h.attrs[i], h.operands)
  }

  lemma {:induction false} FieldUnchanged(env: Env, s: OpSchema, f: FieldSchema, a: Option<Attr>, groups: seq<seq<nat>>)
    requires FieldOk(s, f) && env.version.AtLeast(s.since) && |groups| == (if s.segmented then |s.operands| else 1)
    requires !f.optional ==> a.Some?
    requires f.optional && a.Some? ==> env.version.AtLeast(f.since)
    requires WriteField(env, f, a).Some?
    ensures var v := env.version;
            (if f.fallback.AllFalse? && v.Before(f.since) then Some(Zeros(|groups[f.fallback.operand]|)) == a
             else RestoredField(v, f, a) == a) <==> FieldRestorable(v, f, a, groups)
  {
    hide Write, KindOk;
    if f.fallback.AllFalse? && env.version.Before(f.since) {
      var n := |groups[f.fallback.operand]|;
      assert a.value.Ints? && forall i :: 0 <= i < |a.value.xs| ==> a.value.xs[i] == 0;
      if |a.value.xs| == n {
        assert a.value.xs == Zeros(n).xs;
      } else {
        assert |Zeros(n).xs| == n;
      }
    }
  }

  lemma {:induction false} WrittenField(env: Env, fs: seq<FieldSchema>, attrs: seq<Option<Attr>>, i: nat)
    requires |fs| == |attrs| && i < |fs| && WriteFields(env, fs, attrs).Some?
    ensures WriteField(env, fs[i], attrs[i]).Some?
  {
    hide WriteField;
    if i > 0 {
      WrittenField(env, fs[1..], attrs[1..], i - 1);
    }
  }

  lemma {:induction false} PresentIsDated(v: Version, fs: seq<FieldSchema>, attrs: seq<Option<Attr>>, i: nat)
    requires |fs| == |attrs| && i < |fs| && Dated(v, AttrVersions(fs), AttrPresence(fs, attrs))
    ensures fs[i].optional && attrs[i].Some? ==> v.AtLeast(fs[i].since)
  {
    FieldsTail(v, fs, attrs);
    if i > 0 {
      PresentIsDated(v, fs[1..], attrs[1..], i - 1);
    }
  }

  /** What the writer accepts comes back unchanged exactly under the two conditions above. */
  lemma {:induction false} RestoredUnchanged(env: Env, s: OpSchema, h: Head)
    requires SchemaOk(s) && env.version.AtLeast(s.since) && Shaped(s, h)
    requires FieldsAllowed(s, env.version, Presence(s, h)) && WriteFields(env, s.attrs, h.attrs).Some?
    ensures Restored(s, env.version, h) == h <==> HeadKept(s, env.version, h)
  {
    var v, r := env.version, Restored(s, env.version, h);
    PresenceSplits(s, v, h);
    forall i | 0 <= i < |s.attrs|
      ensures r.attrs[i] == h.attrs[i] <==> FieldRestorable(v, s.attrs[i], h.attrs[i], h.operands)
    {
      OneFieldUnchanged(env, s, h, i);
    }
    assert r.attrs == h.attrs <==> forall i :: 0 <= i < |s.attrs| ==> r.attrs[i] == h.attrs[i];
    ResultsUnchanged(s, v, h);
  }

  lemma {:induction false} OneFieldUnchanged(env: Env, s: OpSchema, h: Head, i: nat)
    requires SchemaOk(s) && env.version.AtLeast(s.since) && Shaped(s, h) && i < |s.attrs|
    requires Dated(env.version, AttrVersions(s.attrs), AttrPresence(s.attrs, h.attrs))
    requires WriteFields(env, s.attrs, h.attrs).Some?
    ensures Restored(s, env.version, h).attrs[i] == h.attrs[i] <==>
            FieldRestorable(env.version, s.attrs[i], h.attrs[i], h.operands)
  {
    hide FieldRestorable, WriteFields, WriteField, Dated, RestoredResults;
    WrittenField(env, s.attrs, h.attrs, i);
    PresentIsDated(env.version, s.attrs, h.attrs, i);
    FieldUnchanged(env, s, s.attrs[i], h.attrs[i], h.operands);
  }

  lemma {:induction false} ResultsUnchanged(s: OpSchema, v: Version, h: Head)
    requires Shaped(s, h)
    ensures Restored(s, v, h).results == h.results <==> BuiltResults(s, v, h)
  {
    if s.HasVersionedResults() && |h.results| == |s.results| {
      var r := RestoredResults(s, v, s.results, h.results);
      assert r == h.results <==> forall i :: 0 <= i < |h.results| ==> r[i] == h.results[i];
    }
  }

  // ---------------------------------------------------------------- which results are numbered

  /** The results a version lacks are declared after those it has. */
  predicate DroppedLast(s: OpSchema, v: Version, rs: seq<ResultSchema>) {
    forall i, j :: 0 <= i < j < |rs| && Compatible(s, v, rs[j]) ==> Compatible(s, v, rs[i])
  }

  lemma {:induction false} NoneCompatible(s: OpSchema, v: Version, rs: seq<ResultSchema>)
    requires forall i :: 0 <= i < |rs| ==> !Compatible(s, v, rs[i])
    ensures CountKept(s, v, rs) == 0
  {
    if rs != [] {
      NoneCompatible(s, v, rs[1..]);
    }
  }

  lemma {:induction false} CountKeptIsPrefix(s: OpSchema, v: Version, rs: seq<ResultSchema>)
    requires DroppedLast(s, v, rs)
    ensures forall i :: 0 <= i < |rs| ==> (Compatible(s, v, rs[i]) <==> i < CountKept(s, v, rs))
  {
    if rs == [] {
    } else if Compatible(s, v, rs[0]) {
      assert forall i :: 0 <= i < |rs[1..]| ==> rs[1..][i] == rs[i + 1];
      CountKeptIsPrefix(s, v, rs[1..]);
    } else {
      NoneCompatible(s, v, rs);
    }
  }

  /**
    Both sides number the first results, as many as the version has. Those are the results
    the version has exactly when the dropped ones are declared last.
    */
  lemma {:induction false} NumberedAreKept(s: OpSchema, v: Version, rs: seq<ResultSchema>)
    ensures DroppedLast(s, v, rs) <==>
            forall i :: 0 <= i < |rs| ==> (Compatible(s, v, rs[i]) <==> i < CountKept(s, v, rs))
  {
    if DroppedLast(s, v, rs) {
      CountKeptIsPrefix(s, v, rs);
    }
  }

  /** A result that the version has but that is not numbered: the second of two, the first dropped. */
  lemma {:induction false} UnnumberedResult(s: OpSchema, v: Version, later: ResultSchema, kept: ResultSchema)
    requires !Compatible(s, v, later) && Compatible(s, v, kept)
    ensures CountKept(s, v, [later, kept]) == 1 && !DroppedLast(s, v, [later, kept])
  {
    assert [later, kept][1..] == [kept] && [kept][1..] == [];
    assert Compatible(s, v, [later, kept][1]) && !Compatible(s, v, [later, kept][0]);
  }

  // ---------------------------------------------------------------- what changes on the way

  /** An operation of 13.1 with one attribute of 13.2 and, with segments, one variadic operand. */
  function WithLaterAttr(f: FieldSchema, operands: seq<OperandSchema>): OpSchema {
    OpSchema(MIN_SUPPORTED_VERSION, [], false, [f], operands, true, 0, false)
  }

  const OLD_ENV := Env(MIN_SUPPORTED_VERSION, [], [], [], map[])
  const DEFAULTED := FieldSchema(KNum, Version(13, 2, 0), true, false, Default(Num(7)))
  const ALL_FALSE := FieldSchema(BOOLS, Version(13, 2, 0), false, false, AllFalse(0))

  /** What is read back of bytes that were written, if the reader takes them. */
  lemma {:induction false} ComesBack(s: OpSchema, h: Head, written: bytes, back: Head)
    requires SchemaOk(s) && s.since == MIN_SUPPORTED_VERSION && Shaped(s, h) && h.results == []
    requires WriteHead(OLD_ENV, s, h, []) == Some(written) && ReadableHead(OLD_ENV, s, h, 0)
    requires Restored(s, MIN_SUPPORTED_VERSION, h) == back
    ensures ReadHead(OLD_ENV, s, 0, written) == Got(back, [])
  {
    hide WriteHead, ReadHead, ReadableHead, SchemaOk, Shaped, Restored;
    assert written + [] == written;
    HeadRoundTrip(OLD_ENV, OLD_ENV, s, h, [], 0, []);
  }

  /**
    An optional attribute that is absent comes back as its default from a version without it.
    (The definitions have no such attribute so far: none that is optional, no unit and has a default.)
    */
  lemma {:induction false} DefaultAppears()
    ensures var s, h := WithLaterAttr(DEFAULTED, []), Head([], [None], []);
            && SchemaOk(s) && Shaped(s, h) && WriteHead(OLD_ENV, s, h, []) == Some([])
            && ReadHead(OLD_ENV, s, 0, []) == Got(Head([], [Some(Num(7))], []), [])
  {
    var s, h := WithLaterAttr(DEFAULTED, []), Head([], [None], []);
    AbsentIsWritten(s, h);
    assert s.attrs[1..] == [] && h.attrs[1..] == [];
    assert ReadableFields(OLD_ENV, [], []) && ReadableFields(OLD_ENV, s.attrs, h.attrs);
    assert Restored(s, MIN_SUPPORTED_VERSION, h).attrs == [Some(Num(7))];
    hide WriteHead, ReadHead, SchemaOk, Shaped;
    ComesBack(s, h, [], Head([], [Some(Num(7))], []));
  }

  lemma {:induction false} AbsentIsWritten(s: OpSchema, h: Head)
    requires s == WithLaterAttr(DEFAULTED, []) && h == Head([], [None], [])
    ensures SchemaOk(s) && Shaped(s, h) && WriteHead(OLD_ENV, s, h, []) == Some([])
  {
    assert s.attrs[1..] == [] && h.attrs[1..] == [];
    assert AttrVersions(s.attrs[1..]) == [] && OperandVersions([]) == [];
    assert s.OptionalFields() == [Version(13, 2, 0)] && Presence(s, h) == [false];
    assert WriteTypes(OLD_ENV, []) == Some([]) && WriteFields(OLD_ENV, [], []) == Some([]);
    var nothing: bytes := [];
    assert nothing + nothing == nothing && nothing + (nothing + nothing) == nothing;
    assert WriteFields(OLD_ENV, s.attrs, h.attrs) == Some([]) && WriteOperands(s, []) == Some([]);
  }

  /** The flags of an absent group come back with the length of that group. */
  lemma {:induction false} LengthChanges()
    ensures var s, h := WithLaterAttr(ALL_FALSE, [OperandSchema(Many, MIN_SUPPORTED_VERSION)]), Head([], [Some(Ints([0, 0]))], [[]]);
            && SchemaOk(s) && Shaped(s, h) && WriteHead(OLD_ENV, s, h, []) == Some([0, 0])
            && ReadHead(OLD_ENV, s, 0, [0, 0]) == Got(Head([], [Some(Ints([]))], [[]]), [])
  {
    var s, h := WithLaterAttr(ALL_FALSE, [OperandSchema(Many, MIN_SUPPORTED_VERSION)]), Head([], [Some(Ints([0, 0]))], [[]]);
    AllFalseIsWritten(s, h);
    AllFalseIsRestored(s, h);
    hide WriteHead, ReadHead, SchemaOk, Shaped, Presence, ReadableHead, Restored;
    ComesBack(s, h, [0, 0], Head([], [Some(Ints([]))], [[]]));
  }

  lemma {:induction false} AllFalseIsRestored(s: OpSchema, h: Head)
    requires s == WithLaterAttr(ALL_FALSE, [OperandSchema(Many, MIN_SUPPORTED_VERSION)])
    requires h == Head([], [Some(Ints([0, 0]))], [[]]) && Shaped(s, h)
    ensures ReadableHead(OLD_ENV, s, h, 0)
    ensures Restored(s, MIN_SUPPORTED_VERSION, h) == Head([], [Some(Ints([]))], [[]])
  {
    hide Shaped;
    assert s.attrs[1..] == [] && h.attrs[1..] == [];
    assert ReadableFields(OLD_ENV, [], []) && ReadableFields(OLD_ENV, s.attrs, h.attrs);
    assert Zeros(0).xs == [];
    assert Restored(s, MIN_SUPPORTED_VERSION, h).attrs == [Some(Ints([]))];
  }

  lemma {:induction false} AllFalseIsWritten(s: OpSchema, h: Head)
    requires s == WithLaterAttr(ALL_FALSE, [OperandSchema(Many, MIN_SUPPORTED_VERSION)])
    requires h == Head([], [Some(Ints([0, 0]))], [[]])
    ensures SchemaOk(s) && Shaped(s, h) && WriteHead(OLD_ENV, s, h, []) == Some([0, 0])
  {
    assert !s.operands[0].arity.One?;
    assert s.attrs[1..] == [] && h.attrs[1..] == [] && s.operands[1..] == [] && h.operands[1..] == [];
    assert AttrVersions(s.attrs[1..]) == [] && OperandVersions(s.operands[1..]) == [];
    assert s.OptionalFields() == [];
    assert VarInt(0) == [0] && WriteIndices([]) == Some([]);
    assert WriteTypes(OLD_ENV, []) == Some([]) && WriteFields(OLD_ENV, [], []) == Some([]);
    var nothing: bytes := [];
    assert [0] + nothing == [0] && nothing + nothing == nothing;
    assert WriteGroups(s.operands[1..], h.operands[1..]) == Some([]);
    assert WriteGroup([], true) == Some([0]) && WriteOperands(s, h.operands) == Some([0]);
    assert WriteField(OLD_ENV, ALL_FALSE, h.attrs[0]) == Some([]);
    assert WriteFields(OLD_ENV, s.attrs, h.attrs) == Some([]);
    assert WriteResults(OLD_ENV, s, [], []) == Some([0]);
    assert nothing + (nothing + [0]) == [0] && [0] + [0] == [0, 0];
  }
}
