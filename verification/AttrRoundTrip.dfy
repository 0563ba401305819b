/**
  What the attribute reader makes of written attributes: it returns the very same
  attribute, and consumes its own bytes only, exactly when the attribute is `Readable`;
  otherwise it reports an error. Both sides may hold different tables, as long as the
  reader knows every entry the writer used.
  */
module AttrRoundTrip {
  import opened Base
  import opened VarInts
  import opened Encoding
  import opened Ir
  import opened AttrCodec

  /** Values the writer writes but the reader rejects are those for which this is false. */
  predicate Readable(env: Env, kind: Kind, a: Attr)
    decreases a, 1
  {
    match kind
    case KCase(e) => env.version.AtLeast(e.since)
    case KInts(size, guarded) =>
      size >= 1 && (a.Ints? ==> |a.xs| <= MAX_COUNT && (guarded ==> NoneExtreme(a.xs, size)))
    case KSymbol => a.Symbol? ==> a.s != []
    case KArray => ReadableTagged(env, a)
    case KDict => ReadableTagged(env, a)
    case KNested(tag) => ReadableTagged(env, a)
    case KSelfContained => ReadableTagged(env, a)
    case _ => true
  }

  predicate ReadableTagged(env: Env, a: Attr)
    decreases a, 0
  {
    match a
    case Array(elems) => |elems| <= MAX_COUNT && ReadableElems(env, elems)
    case Dict(entries) => |entries| <= MAX_COUNT && ReadableEntries(env, entries) && DistinctKeys(entries)
    case Custom(tag, params) => tag in env.attrs && |params| == |env.attrs[tag].params| &&
                                ReadableParams(env, env.attrs[tag].params, params)
    case _ => true
  }

  predicate ReadableElems(env: Env, elems: seq<Attr>)
    decreases elems, 0
  {
    elems == [] || (ReadableTagged(env, elems[0]) && ReadableElems(env, elems[1..]))
  }

  predicate ReadableEntries(env: Env, entries: seq<Entry>)
    decreases entries, 0
  {
    entries == [] ||
    (entries[0].key != [] && ReadableTagged(env, entries[0].value) && ReadableEntries(env, entries[1..]))
  }

  predicate ReadableParams(env: Env, ps: seq<ParamSchema>, params: seq<Option<Attr>>)
    requires |ps| == |params|
    decreases params, 0
  {
    ps == [] || (ReadableParam(env, ps[0].kind, params[0]) && ReadableParams(env, ps[1..], params[1..]))
  }

  predicate ReadableParam(env: Env, kind: Kind, param: Option<Attr>)
    decreases param, 0
  {
    match param
    case None => true
    case Some(a) => Readable(env, kind, a)
  }

  /**
    Enumerations have 32-bit storage; an attribute nested without a tag is of an earlier
    class than the one it is nested in.
    */
  predicate KindOk(kind: Kind, bound: nat) {
    match kind
    case KCase(e) => forall c :: c in e.cases ==> c < TWO_TO_THE_32
    case KNested(tag) => tag < bound
    case _ => true
  }

  predicate ParamsOk(ps: seq<ParamSchema>, bound: nat) {
    forall i :: 0 <= i < |ps| ==> KindOk(ps[i].kind, bound)
  }

  /** At most 64 parameters, as the flag word has 64 bits; tags fit their byte. */
  predicate SchemasOk(attrs: map<nat, AttrSchema>) {
    forall tag :: tag in attrs ==> tag < 256 && tag !in BUILTIN_TAGS && ParamsOk(attrs[tag].params, tag) &&
                                   |attrs[tag].params| <= 64
  }

  // ---------------------------------------------------------------- leaves

  lemma {:induction false} IndexRoundTrip<T>(t1: seq<T>, t2: seq<T>, x: T, rest: bytes)
    requires Index(t1, x).Some? && |t1| <= |t2|
    requires forall i :: 0 <= i < |t1| && t1[i] == x ==> t2[i] == x
    ensures ReadIndex(Index(t1, x).value + rest, t2) == Got(x, rest)
  {
    VarIntRoundTrip(IndexOf(t1, x).value, rest);
  }

  lemma {:induction false} TypeRoundTrip(w: Env, r: Env, ty: Type, rest: bytes)
    requires KnowsMore(w, r) && Index(w.types, Some(ty)).Some?
    ensures ReadType(Index(w.types, Some(ty)).value + rest, r.types) == Got(ty, rest)
  {
    IndexRoundTrip(w.types, r.types, Some(ty), rest);
  }

  lemma {:induction false} TypesRoundTrip(w: Env, r: Env, types: seq<Type>, rest: bytes)
    requires KnowsMore(w, r) && WriteTypes(w, types).Some?
    ensures ReadTypes(r, |types|, WriteTypes(w, types).value + rest) == Got(types, rest)
  {
    if types == [] {
      assert WriteTypes(w, types).value + rest == rest;
    } else {
      var head, tail := Index(w.types, Some(types[0])).value, WriteTypes(w, types[1..]).value;
      Assoc(head, tail, rest);
      TypeRoundTrip(w, r, types[0], tail + rest);
      TypesRoundTrip(w, r, types[1..], rest);
      assert types == [types[0]] + types[1..];
    }
  }

  lemma {:induction false} SignedRoundTrip(w: Env, r: Env, a: Attr, rest: bytes, bound: nat)
    requires Write(w, KSigned, a).Some?
    ensures Read(r, KSigned, Write(w, KSigned, a).value + rest, bound) == Got(a, rest)
  {
    Pow2Values();
    SignedVarIntRoundTrip(ToWord(a.x, 64), rest);
  }

  lemma {:induction false} ScalarRoundTrip(ty: Type, v: nat, rest: bytes)
    requires IntegerWidth(ty).Some? && v < Pow2(IntegerWidth(ty).value)
    ensures v < TWO_TO_THE_64 && ReadScalar(VarInt(v) + rest, ty) == Got(Int(ty, v), rest)
  {
    var width := IntegerWidth(ty).value;
    ScalarBounds(width, v);
    hide Pow2, ReadVarInt;
    if width == 1 {
      assert (VarInt(v) + rest)[0] == v && (VarInt(v) + rest)[1..] == rest;
    } else {
      VarIntRoundTrip(v, rest);
    }
  }

  lemma {:induction false} ScalarBounds(width: nat, v: nat)
    requires width <= 64 && v < Pow2(width)
    ensures v < TWO_TO_THE_64 && (width == 1 ==> v < 2)
  {
    Pow2Values();
    Pow2Monotone(width, 64);
    assert Pow2(1) == 2;
  }

  lemma {:induction false} FloatRoundTrip(ty: Type, bits: nat, rest: bytes)
    requires FloatWidth(ty).Some? && bits < Pow2(FloatWidth(ty).value)
    ensures ReadScalar(APInt(bits, FloatWidth(ty).value) + rest, ty) == Got(Float(ty, bits), rest)
  {
    hide APInt, ReadAPInt, Pow2;
    assert FloatWidth(ty).value <= 64;
    APIntRoundTrip(bits, FloatWidth(ty).value, rest);
  }

  lemma {:induction false} CaseRoundTrip(w: Env, r: Env, e: Cases, a: Attr, rest: bytes, bound: nat)
    requires KnowsMore(w, r) && Write(w, KCase(e), a).Some?
    requires KindOk(KCase(e), bound)
    ensures Read(r, KCase(e), Write(w, KCase(e), a).value + rest, bound) ==
            if w.version.AtLeast(e.since) then Got(a, rest) else Fail
  {
    VarIntRoundTrip(a.value, rest);
  }

  lemma {:induction false} IntsRoundTrip(w: Env, r: Env, size: nat, guarded: bool, a: Attr, rest: bytes, bound: nat)
    requires Write(w, KInts(size, guarded), a).Some?
    ensures Read(r, KInts(size, guarded), Write(w, KInts(size, guarded), a).value + rest, bound) ==
            if Readable(w, KInts(size, guarded), a) then Got(a, rest) else Fail
  {
    if |a.xs| <= MAX_COUNT {
      LEVarSizeRoundTrip(a.xs, size, rest);
    } else {
      assert LEVarSize(a.xs, size) + rest == VarInt(|a.xs|) + (LEArray(a.xs, size) + rest);
      VarIntRoundTrip(|a.xs|, LEArray(a.xs, size) + rest);
    }
  }

  predicate Linked(w: Env, r: Env) {
    KnowsMore(w, r) && SchemasOk(w.attrs)
  }

  lemma {:induction false} StringRoundTrip(w: Env, r: Env, s: bytes, rest: bytes)
    requires Linked(w, r) && Index(w.strings, s).Some?
    ensures ReadIndex(Index(w.strings, s).value + rest, r.strings) == Got(s, rest)
  {
    IndexRoundTrip(w.strings, r.strings, s, rest);
  }

  lemma {:induction false} Regroup(a: bytes, b: bytes, c: bytes, rest: bytes)
    ensures a + (b + c) + rest == a + (b + (c + rest))
  {
  }

  // ---------------------------------------------------------------- trees

  /** The equation of this module, for an attribute of known kind. */
  lemma {:induction false} RoundTrip(w: Env, r: Env, kind: Kind, a: Attr, rest: bytes, bound: nat)
    requires Linked(w, r) && Write(w, kind, a).Some? && KindOk(kind, bound)
    ensures Read(r, kind, Write(w, kind, a).value + rest, bound) ==
            if Readable(w, kind, a) then Got(a, rest) else Fail
    decreases a, 1
  {
    match kind
    case KNum => VarIntRoundTrip(a.n, rest);
    case KNum32 => VarIntRoundTrip(a.n, rest);
    case KSigned => SignedRoundTrip(w, r, a, rest, bound);
    case KBool =>
      assert Pow2(1) == 2 && VarInt(a.value) == [a.value];
      ScalarRoundTrip(I1, a.value, rest);
    case KInt(width) => ScalarRoundTrip(a.ty, a.value, rest);
    case KCase(e) => CaseRoundTrip(w, r, e, a, rest, bound);
    case KInts(size, guarded) => IntsRoundTrip(w, r, size, guarded, a, rest, bound);
    case KType => TypeRoundTrip(w, r, a.ty, rest);
    case KClass(_) => TypeRoundTrip(w, r, a.ty, rest);
    case KStr => IndexRoundTrip(w.strings, r.strings, a.s, rest);
    case KSymbol => IndexRoundTrip(w.strings, r.strings, a.s, rest);
    case KElements => IndexRoundTrip(w.constants, r.constants, a.content, rest);
    case KArray => ArrayRoundTrip(w, r, a.elems, rest, bound);
    case KDict => DictRoundTrip(w, r, a.entries, rest, bound);
    case KNested(tag) => DataRoundTrip(w, r, tag, a.params, rest);
    case KSelfContained => TaggedRoundTrip(w, r, a, rest);
  }

  lemma {:induction false} ArrayRoundTrip(w: Env, r: Env, elems: seq<Attr>, rest: bytes, bound: nat)
    requires Linked(w, r) && Write(w, KArray, Array(elems)).Some?
    ensures Read(r, KArray, Write(w, KArray, Array(elems)).value + rest, bound) ==
            if ReadableTagged(w, Array(elems)) then Got(Array(elems), rest) else Fail
    decreases elems, 1
  {
    hide WriteElems, ReadElems, ReadableElems, Linked, VarInt, ReadVarInt;
    var body := WriteElems(w, elems).value;
    Assoc(VarInt(|elems|), body, rest);
    VarIntRoundTrip(|elems|, body + rest);
    ElemsRoundTrip(w, r, elems, rest);
  }

  lemma {:induction false} DictRoundTrip(w: Env, r: Env, entries: seq<Entry>, rest: bytes, bound: nat)
    requires Linked(w, r) && Write(w, KDict, Dict(entries)).Some?
    ensures Read(r, KDict, Write(w, KDict, Dict(entries)).value + rest, bound) ==
            if ReadableTagged(w, Dict(entries)) then Got(Dict(entries), rest) else Fail
    decreases entries, 1
  {
    hide WriteEntries, ReadEntries, ReadableEntries, Linked, DistinctKeys, VarInt, ReadVarInt;
    var body := WriteEntries(w, entries).value;
    Assoc(VarInt(|entries|), body, rest);
    VarIntRoundTrip(|entries|, body + rest);
    EntriesRoundTrip(w, r, entries, rest);
  }

  lemma {:induction false} TagRoundTrip(r: Env, tag: nat, payload: bytes, rest: bytes)
    requires tag < 256
    ensures ReadTagged(r, VarInt(tag) + payload + rest) == ReadPayload(r, tag, payload + rest)
  {
    TagBytes(tag, payload, rest);
    var whole := VarInt(tag) + payload + rest;
    assert ReadVarInt(whole).value == tag && ReadVarInt(whole).rest == payload + rest;
    assert tag % 256 == tag;
  }

  lemma {:induction false} TagBytes(tag: nat, payload: bytes, rest: bytes)
    requires tag < 256
    ensures ReadVarInt(VarInt(tag) + payload + rest) == Got(tag, payload + rest)
  {
    assert VarInt(tag) + payload + rest == VarInt(tag) + (payload + rest);
    VarIntRoundTrip(tag, payload + rest);
  }

  lemma {:induction false} TypedScalarRoundTrip(w: Env, r: Env, tag: byte, ty: Type, payload: bytes, rest: bytes)
    requires Linked(w, r) && Index(w.types, Some(ty)).Some?
    requires if tag == TAG_INTEGER then IntegerWidth(ty).Some? else FloatWidth(ty).Some?
    ensures ReadTypedScalar(r, tag, Index(w.types, Some(ty)).value + payload + rest) == ReadScalar(payload + rest, ty)
  {
    var index := Index(w.types, Some(ty)).value;
    assert index + payload + rest == index + (payload + rest);
    TypeRoundTrip(w, r, ty, payload + rest);
  }

  lemma {:induction false} IntTaggedRoundTrip(w: Env, r: Env, ty: Type, v: nat, rest: bytes)
    requires Linked(w, r) && WriteTagged(w, Int(ty, v)).Some?
    ensures ReadTagged(r, WriteTagged(w, Int(ty, v)).value + rest) == Got(Int(ty, v), rest)
  {
    hide ReadData, ReadTypedScalar, ReadScalar, Index, ReadType, ReadElems, ReadEntries, SchemasOk, VarInt, ReadVarInt;
    TagRoundTrip(r, TAG_INTEGER, Index(w.types, Some(ty)).value + VarInt(v), rest);
    TypedScalarRoundTrip(w, r, TAG_INTEGER, ty, VarInt(v), rest);
    ScalarRoundTrip(ty, v, rest);
  }

  lemma {:induction false} FloatTaggedRoundTrip(w: Env, r: Env, ty: Type, bits: nat, rest: bytes)
    requires Linked(w, r) && WriteTagged(w, Float(ty, bits)).Some?
    ensures ReadTagged(r, WriteTagged(w, Float(ty, bits)).value + rest) == Got(Float(ty, bits), rest)
  {
    hide ReadData, ReadTypedScalar, ReadScalar, Index, ReadType, ReadElems, ReadEntries, SchemasOk, VarInt, ReadVarInt, APInt;
    var payload := APInt(bits, FloatWidth(ty).value);
    TagRoundTrip(r, TAG_FLOAT, Index(w.types, Some(ty)).value + payload, rest);
    TypedScalarRoundTrip(w, r, TAG_FLOAT, ty, payload, rest);
    FloatRoundTrip(ty, bits, rest);
  }

  lemma {:induction false} TypeTaggedRoundTrip(w: Env, r: Env, ty: Type, rest: bytes)
    requires Linked(w, r) && WriteTagged(w, TypeRef(ty)).Some?
    ensures ReadTagged(r, WriteTagged(w, TypeRef(ty)).value + rest) == Got(TypeRef(ty), rest)
  {
    hide ReadData, ReadTypedScalar, ReadScalar, Index, ReadType, ReadElems, ReadEntries, SchemasOk, VarInt, ReadVarInt;
    TagRoundTrip(r, TAG_TYPE, Index(w.types, Some(ty)).value, rest);
    TypeRoundTrip(w, r, ty, rest);
  }

  lemma {:induction false} StrTaggedRoundTrip(w: Env, r: Env, s: bytes, rest: bytes)
    requires Linked(w, r) && WriteTagged(w, Str(s)).Some?
    ensures ReadTagged(r, WriteTagged(w, Str(s)).value + rest) == Got(Str(s), rest)
  {
    hide ReadData, ReadTypedScalar, ReadScalar, Index, ReadIndex, ReadElems, ReadEntries, SchemasOk, VarInt, ReadVarInt;
    TagRoundTrip(r, TAG_STRING, Index(w.strings, s).value, rest);
    IndexRoundTrip(w.strings, r.strings, s, rest);
  }

  /** The equation of this module, for an attribute that carries its own tag. */
  lemma {:induction false} TaggedRoundTrip(w: Env, r: Env, a: Attr, rest: bytes)
    requires Linked(w, r) && WriteTagged(w, a).Some?
    ensures ReadTagged(r, WriteTagged(w, a).value + rest) == if ReadableTagged(w, a) then Got(a, rest) else Fail
    decreases a, 0
  {
    match a
    case Int(ty, v) => IntTaggedRoundTrip(w, r, ty, v, rest);
    case Float(ty, bits) => FloatTaggedRoundTrip(w, r, ty, bits, rest);
    case TypeRef(ty) => TypeTaggedRoundTrip(w, r, ty, rest);
    case Str(s) => StrTaggedRoundTrip(w, r, s, rest);
    case Array(elems) => ArrayTaggedRoundTrip(w, r, elems, rest);
    case Dict(entries) => DictTaggedRoundTrip(w, r, entries, rest);
    case Custom(tag, params) => CustomTaggedRoundTrip(w, r, tag, params, rest);
  }

  lemma {:induction false} ArrayTaggedRoundTrip(w: Env, r: Env, elems: seq<Attr>, rest: bytes)
    requires Linked(w, r) && WriteTagged(w, Array(elems)).Some?
    ensures ReadTagged(r, WriteTagged(w, Array(elems)).value + rest) ==
            if ReadableTagged(w, Array(elems)) then Got(Array(elems), rest) else Fail
    decreases elems, 2
  {
    hide WriteElems, ReadElems, ReadableElems, Linked, ReadData;
    TagRoundTrip(r, TAG_ARRAY, Write(w, KArray, Array(elems)).value, rest);
    ArrayRoundTrip(w, r, elems, rest, 0);
  }

  lemma {:induction false} DictTaggedRoundTrip(w: Env, r: Env, entries: seq<Entry>, rest: bytes)
    requires Linked(w, r) && WriteTagged(w, Dict(entries)).Some?
    ensures ReadTagged(r, WriteTagged(w, Dict(entries)).value + rest) ==
            if ReadableTagged(w, Dict(entries)) then Got(Dict(entries), rest) else Fail
    decreases entries, 2
  {
    hide WriteEntries, ReadEntries, ReadableEntries, DistinctKeys, Linked, ReadData;
    TagRoundTrip(r, TAG_DICTIONARY, Write(w, KDict, Dict(entries)).value, rest);
    DictRoundTrip(w, r, entries, rest, 0);
  }

  lemma {:induction false} CustomTaggedRoundTrip(w: Env, r: Env, tag: nat, params: seq<Option<Attr>>, rest: bytes)
    requires Linked(w, r) && WriteTagged(w, Custom(tag, params)).Some?
    ensures ReadTagged(r, WriteTagged(w, Custom(tag, params)).value + rest) ==
            if ReadableTagged(w, Custom(tag, params)) then Got(Custom(tag, params), rest) else Fail
    decreases params, 2
  {
    var data := WriteData(w, tag, params).value;
    TagRoundTrip(r, tag, data, rest);
    CustomPayload(r, tag, data + rest);
    DataRoundTrip(w, r, tag, params, rest);
  }

  lemma {:induction false} CustomPayload(r: Env, tag: byte, bs: bytes)
    requires tag !in BUILTIN_TAGS
    ensures ReadPayload(r, tag, bs) == ReadData(r, tag, bs)
  {
    assert tag != TAG_INTEGER && tag != TAG_FLOAT && tag != TAG_BOOL && tag != TAG_TYPE;
    assert tag != TAG_STRING && tag != TAG_ARRAY && tag != TAG_DICTIONARY && tag != TAG_DENSE;
  }

  lemma {:induction false} ElemsRoundTrip(w: Env, r: Env, elems: seq<Attr>, rest: bytes)
    requires Linked(w, r) && WriteElems(w, elems).Some?
    ensures ReadElems(r, |elems|, WriteElems(w, elems).value + rest) ==
            if ReadableElems(w, elems) then Got(elems, rest) else Fail
    decreases elems, 0
  {
    hide WriteTagged, ReadTagged, ReadableTagged, Linked;
    if elems == [] {
      assert WriteElems(w, elems).value + rest == rest;
    } else {
      var head, tail := WriteTagged(w, elems[0]).value, WriteElems(w, elems[1..]).value;
      Assoc(head, tail, rest);
      TaggedRoundTrip(w, r, elems[0], tail + rest);
      ElemsRoundTrip(w, r, elems[1..], rest);
      assert elems == [elems[0]] + elems[1..];
    }
  }

  lemma {:induction false} EntriesRoundTrip(w: Env, r: Env, entries: seq<Entry>, rest: bytes)
    requires Linked(w, r) && WriteEntries(w, entries).Some?
    ensures ReadEntries(r, |entries|, WriteEntries(w, entries).value + rest) ==
            if ReadableEntries(w, entries) then Got(entries, rest) else Fail
    decreases entries, 0
  {
    hide WriteTagged, ReadTagged, ReadableTagged, ReadIndex, Index, Linked, ReadEntries, ReadableEntries;
    if entries == [] {
      assert WriteEntries(w, entries).value + rest == rest;
      NoEntries(w, r, rest);
    } else {
      var key, value := Index(w.strings, entries[0].key).value, WriteTagged(w, entries[0].value).value;
      var tail := WriteEntries(w, entries[1..]).value;
      Regroup(key, value, tail, rest);
      StringRoundTrip(w, r, entries[0].key, value + (tail + rest));
      TaggedRoundTrip(w, r, entries[0].value, tail + rest);
      EntriesRoundTrip(w, r, entries[1..], rest);
      EntryFirst(w, r, entries, key + (value + (tail + rest)), value + (tail + rest), tail + rest, rest);
    }
  }

  lemma {:induction false} NoEntries(w: Env, r: Env, rest: bytes)
    ensures ReadEntries(r, 0, rest) == Got([], rest) && ReadableEntries(w, [])
  {
  }

  lemma {:induction false} EntryFirst(w: Env, r: Env, entries: seq<Entry>, bs: bytes, behindKey: bytes,
                                      behindValue: bytes, rest: bytes)
    requires entries != [] && ReadIndex(bs, r.strings) == Got(entries[0].key, behindKey)
    requires ReadTagged(r, behindKey) == if ReadableTagged(w, entries[0].value) then Got(entries[0].value, behindValue) else Fail
    requires ReadEntries(r, |entries[1..]|, behindValue) == if ReadableEntries(w, entries[1..]) then Got(entries[1..], rest) else Fail
    ensures ReadEntries(r, |entries|, bs) == if ReadableEntries(w, entries) then Got(entries, rest) else Fail
  {
    hide ReadTagged, ReadableTagged, ReadIndex;
    assert [Entry(entries[0].key, entries[0].value)] + entries[1..] == entries;
  }

  // ---------------------------------------------------------------- dialect attributes

  predicate ReadableNow(env: Env, ps: seq<ParamSchema>, params: seq<Option<Attr>>, now: seq<bool>)
    requires |ps| == |params| == |now|
  {
    ps == [] || ((now[0] ==> ReadableParam(env, ps[0].kind, params[0])) &&
                 ReadableNow(env, ps[1..], params[1..], now[1..]))
  }

  function Masked(params: seq<Option<Attr>>, now: seq<bool>): (r: seq<Option<Attr>>)
    requires |params| == |now|
    ensures |r| == |params|
  {
    seq(|params|, i requires 0 <= i < |params| => if now[i] then params[i] else None)
  }

  lemma {:induction false} PhasesCover(env: Env, ps: seq<ParamSchema>, params: seq<Option<Attr>>)
    requires Admissible(env.version, ps, params)
    ensures ReadableParams(env, ps, params) <==>
            ReadableNow(env, ps, params, Required(ps)) && ReadableNow(env, ps, params, Present(ps, params))
  {
    if ps != [] {
      PhasesCover(env, ps[1..], params[1..]);
      assert Required(ps)[1..] == Required(ps[1..]);
      assert Present(ps, params)[1..] == Present(ps[1..], params[1..]);
    }
  }

  lemma {:induction false} MergeRestores(env: Env, ps: seq<ParamSchema>, params: seq<Option<Attr>>)
    requires Admissible(env.version, ps, params)
    ensures Merge(Masked(params, Required(ps)), Masked(params, Present(ps, params))) == params
  {
  }

  /** The presence word tells the reader which optional parameters to expect. */
  lemma {:induction false} PresenceRoundTrip(ps: seq<ParamSchema>, params: seq<Option<Attr>>)
    requires |ps| == |params|
    ensures AttrCodec.FromWord(ps, PresenceWord(ps, params)) == Present(ps, params)
    ensures PresenceWord(ps, params) < Pow2(|ps|)
  {
    if ps != [] {
      PresenceRoundTrip(ps[1..], params[1..]);
      assert Present(ps, params) == [ps[0].optional && params[0].Some?] + Present(ps[1..], params[1..]);
    }
  }

  lemma {:induction false} PresenceReadBack(ps: seq<ParamSchema>, params: seq<Option<Attr>>, rest: bytes)
    requires |ps| == |params| <= 64
    requires HasOptional(ps) ==> Count(PresenceWord(ps, params)).Some?
    ensures var flags := if HasOptional(ps) then Count(PresenceWord(ps, params)).value else [];
            var read := ReadPresence(ps, flags + rest);
            read.Got? && read.rest == rest && AttrCodec.FromWord(ps, read.value) == Present(ps, params)
  {
    PresenceRoundTrip(ps, params);
    if HasOptional(ps) {
      VarIntRoundTrip(PresenceWord(ps, params), rest);
    } else {
      assert [] + rest == rest;
      NoOptionalNoFlags(ps, params);
    }
  }

  lemma {:induction false} NoOptionalNoFlags(ps: seq<ParamSchema>, params: seq<Option<Attr>>)
    requires |ps| == |params| && !HasOptional(ps)
    ensures AttrCodec.FromWord(ps, 0) == Present(ps, params)
  {
    if ps != [] {
      assert !ps[0].optional;
      assert forall i :: 0 <= i < |ps[1..]| ==> !ps[1..][i].optional;
      NoOptionalNoFlags(ps[1..], params[1..]);
      assert Present(ps, params) == [false] + Present(ps[1..], params[1..]);
    }
  }

  lemma {:induction false} PhaseRoundTrip(w: Env, r: Env, ps: seq<ParamSchema>, params: seq<Option<Attr>>,
                                          now: seq<bool>, rest: bytes, bound: nat)
    requires Linked(w, r) && |ps| == |params| == |now| && ParamsOk(ps, bound)
    requires WritePhase(w, ps, params, now).Some?
    ensures ReadPhase(r, ps, now, WritePhase(w, ps, params, now).value + rest, bound) ==
            if ReadableNow(w, ps, params, now) then Got(Masked(params, now), rest) else Fail
    decreases params, 0
  {
    if ps == [] {
      assert WritePhase(w, ps, params, now).value + rest == rest;
    } else {
      assert ParamsOk(ps[1..], bound);
      PhaseRoundTrip(w, r, ps[1..], params[1..], now[1..], rest, bound);
      assert Masked(params, now) == [if now[0] then params[0] else None] + Masked(params[1..], now[1..]);
      if now[0] {
        var head, tail := WriteParam(w, ps[0].kind, params[0]).value, WritePhase(w, ps[1..], params[1..], now[1..]).value;
        assert head + tail + rest == head + (tail + rest);
        ParamRoundTrip(w, r, ps[0].kind, params[0], tail + rest, bound);
      }
    }
  }

  lemma {:induction false} ParamRoundTrip(w: Env, r: Env, kind: Kind, param: Option<Attr>, rest: bytes, bound: nat)
    requires Linked(w, r) && WriteParam(w, kind, param).Some? && KindOk(kind, bound)
    ensures Read(r, kind, WriteParam(w, kind, param).value + rest, bound) ==
            if ReadableParam(w, kind, param) then Got(param.value, rest) else Fail
    decreases param, 0
  {
    match param
    case Some(a) => RoundTrip(w, r, kind, a, rest, bound);
  }

  lemma {:induction false} DataRoundTrip(w: Env, r: Env, tag: nat, params: seq<Option<Attr>>, rest: bytes)
    requires Linked(w, r) && WriteData(w, tag, params).Some?
    ensures ReadData(r, tag, WriteData(w, tag, params).value + rest) ==
            if ReadableTagged(w, Custom(tag, params)) then Got(Custom(tag, params), rest) else Fail
    decreases params, 1
  {
    hide WritePhase, ReadPhase, Required, Present, Merge, Masked, ReadableNow, ReadableParams, PresenceWord,
         ReadPresence, AttrCodec.FromWord, HasOptional, ParamsOk;
    var ps := w.attrs[tag].params;
    var required := WritePhase(w, ps, params, Required(ps)).value;
    var optional := WritePhase(w, ps, params, Present(ps, params)).value;
    var flags := if HasOptional(ps) then Count(PresenceWord(ps, params)).value else [];
    PhasesCover(w, ps, params);
    MergeRestores(w, ps, params);
    PhaseRoundTrip(w, r, ps, params, Present(ps, params), rest, tag);
    if w.attrs[tag].requiredFirst {
      assert required + (flags + optional) + rest == required + (flags + (optional + rest));
      PhaseRoundTrip(w, r, ps, params, Required(ps), flags + (optional + rest), tag);
      PresenceReadBack(ps, params, optional + rest);
    } else {
      assert flags + (required + optional) + rest == flags + (required + (optional + rest));
      PresenceReadBack(ps, params, required + (optional + rest));
      PhaseRoundTrip(w, r, ps, params, Required(ps), optional + rest, tag);
    }
  }

  // ---------------------------------------------------------------- written, but not read

  function NewestEnv(strings: seq<bytes>): Env {
    Env(V13_4, strings, [], [], map[])
  }

  lemma {:induction false} SmallestIsExtreme()
    ensures Extreme(-0x8000_0000, 4) && AllFit([-0x8000_0000], 4)
  {
    Pow2Values();
    assert Pow2(31) == 0x8000_0000;
  }

  /** The smallest 32-bit integer in an array. */
  lemma {:induction false} ExtremeIsNotRead()
    ensures var env, a := NewestEnv([]), Ints([-0x8000_0000]);
            && Write(env, KInts(4, true), a).Some?
            && Read(env, KInts(4, true), Write(env, KInts(4, true), a).value, 256) == Fail
  {
    Pow2Values();
    hide LEVarSize, Pow2, SchemasOk;
    var env, a := NewestEnv([]), Ints([-0x8000_0000]);
    assert !NoneExtreme(a.xs, 4) by {
      SmallestIsExtreme();
      assert Extreme(a.xs[0], 4);
    }
    RoundTrip(env, env, KInts(4, true), a, [], 256);
    assert Write(env, KInts(4, true), a).value + [] == Write(env, KInts(4, true), a).value;
  }

  /** A reference to a symbol without a name. */
  lemma {:induction false} EmptySymbolIsNotRead()
    ensures var env := NewestEnv([[]]);
            && Write(env, KSymbol, Symbol([])) == Some([0]) && Read(env, KSymbol, [0], 256) == Fail
  {
    var env := NewestEnv([[]]);
    assert VarInt(0) == [0];
    RoundTrip(env, env, KSymbol, Symbol([]), [], 256);
    assert [0] + [] == [0];
  }
}
