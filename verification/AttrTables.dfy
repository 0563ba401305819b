/**
  Attributes and growing tables. The bytes of an attribute do not change when the writer's
  tables grow behind it, and a reader that learns more table entries reads what it could
  read before unchanged.
  */
module AttrTables {
  import opened Base
  import opened VarInts
  import opened Encoding
  import opened Ir
  import opened AttrCodec

  /** Every type whose index the attribute's encoding contains is in the table. */
  predicate Covered(types: seq<Option<Type>>, a: Attr)
    decreases a, 0
  {
    match a
    case Int(ty, _) => Some(ty) in types
    case Float(ty, _) => Some(ty) in types
    case TypeRef(ty) => Some(ty) in types
    case Array(elems) => forall i :: 0 <= i < |elems| ==> Covered(types, elems[i])
    case Dict(entries) => forall i :: 0 <= i < |entries| ==> Covered(types, entries[i].value)
    case Custom(_, params) => forall i :: 0 <= i < |params| ==> CoveredArg(types, params[i])
    case _ => true
  }

  predicate CoveredArg(types: seq<Option<Type>>, arg: Option<Attr>)
    decreases arg, 0
  {
    match arg
    case None => true
    case Some(a) => Covered(types, a)
  }

  /** The second type table continues the first one; strings and constants are the same. */
  predicate MoreTypes(e1: Env, e2: Env) {
    e1.version == e2.version && e1.attrs == e2.attrs && e1.strings == e2.strings && e1.constants == e2.constants &&
    e1.types <= e2.types
  }

  /**
    Either the tables grew behind the attribute (it was written with the shorter ones), or
    the shorter type table holds all that the attribute needs.
    */
  predicate Settled<T>(e1: Env, e2: Env, written: Option<T>, covered: bool) {
    Continues(e1, e2) && (written.Some? || (MoreTypes(e1, e2) && covered))
  }

  lemma {:induction false} TypeSettled(e1: Env, e2: Env, ty: Type)
    requires Settled(e1, e2, Index(e1.types, Some(ty)), Some(ty) in e1.types)
    ensures Index(e2.types, Some(ty)) == Index(e1.types, Some(ty))
  {
    IndexOfStable(e1.types, e2.types, Some(ty));
  }

  lemma {:induction false} StringSettled(e1: Env, e2: Env, s: bytes)
    requires Settled(e1, e2, Index(e1.strings, s), true)
    ensures Index(e2.strings, s) == Index(e1.strings, s)
  {
    if s in e1.strings {
      IndexOfStable(e1.strings, e2.strings, s);
    }
  }

  /** In both cases the bytes are the same with the longer tables. */
  lemma {:induction false} WriteStable(e1: Env, e2: Env, kind: Kind, a: Attr)
    requires Settled(e1, e2, Write(e1, kind, a), Covered(e1.types, a))
    ensures Write(e2, kind, a) == Write(e1, kind, a)
    decreases a, 1
  {
    hide WriteData, WriteElems, WriteEntries, WriteTagged;
    match kind
    case KType => if a.TypeRef? { TypeSettled(e1, e2, a.ty); }
    case KClass(tag) => if a.TypeRef? && OfClass(a.ty, tag) { TypeSettled(e1, e2, a.ty); }
    case KStr => if a.Str? { StringSettled(e1, e2, a.s); }
    case KSymbol => if a.Symbol? { StringSettled(e1, e2, a.s); }
    case KElements =>
      if a.Elements? && a.content in e1.constants {
        IndexOfStable(e1.constants, e2.constants, a.content);
      }
    case KArray => if a.Array? && Count(|a.elems|).Some? { WriteElemsStable(e1, e2, a.elems); }
    case KDict => if a.Dict? && Count(|a.entries|).Some? { WriteEntriesStable(e1, e2, a.entries); }
    case KNested(tag) => if a.Custom? && a.tag == tag { WriteDataStable(e1, e2, tag, a.params); }
    case KSelfContained => WriteTaggedStable(e1, e2, a);
    case _ =>
  }

  lemma {:induction false} WriteTaggedStable(e1: Env, e2: Env, a: Attr)
    requires Settled(e1, e2, WriteTagged(e1, a), Covered(e1.types, a))
    ensures WriteTagged(e2, a) == WriteTagged(e1, a)
    decreases a, 0
  {
    hide WriteData, WriteElems, WriteEntries;
    match a
    case Int(ty, v) =>
      if IntegerWidth(ty).Some? && v < Pow2(IntegerWidth(ty).value) {
        TypeSettled(e1, e2, ty);
      }
    case Float(ty, bits) =>
      if FloatWidth(ty).Some? && bits < Pow2(FloatWidth(ty).value) {
        TypeSettled(e1, e2, ty);
      }
    case TypeRef(ty) => TypeSettled(e1, e2, ty);
    case Str(s) => StringSettled(e1, e2, s);
    case Array(elems) => if Count(|elems|).Some? { WriteElemsStable(e1, e2, elems); }
    case Dict(entries) => if Count(|entries|).Some? { WriteEntriesStable(e1, e2, entries); }
    case Custom(tag, params) => WriteDataStable(e1, e2, tag, params);
    case _ =>
  }

  lemma {:induction false} WriteElemsStable(e1: Env, e2: Env, elems: seq<Attr>)
    requires Settled(e1, e2, WriteElems(e1, elems), forall i :: 0 <= i < |elems| ==> Covered(e1.types, elems[i]))
    ensures WriteElems(e2, elems) == WriteElems(e1, elems)
    decreases elems, 0
  {
    hide WriteTagged, Covered;
    if elems != [] {
      WriteTaggedStable(e1, e2, elems[0]);
      if WriteTagged(e1, elems[0]).Some? {
        WriteElemsStable(e1, e2, elems[1..]);
      }
    }
  }

  lemma {:induction false} WriteEntriesStable(e1: Env, e2: Env, entries: seq<Entry>)
    requires Settled(e1, e2, WriteEntries(e1, entries),
                     forall i :: 0 <= i < |entries| ==> Covered(e1.types, entries[i].value))
    ensures WriteEntries(e2, entries) == WriteEntries(e1, entries)
    decreases entries, 0
  {
    hide WriteTagged, Covered;
    if entries != [] {
      StringSettled(e1, e2, entries[0].key);
      if Index(e1.strings, entries[0].key).Some? {
        WriteTaggedStable(e1, e2, entries[0].value);
        if WriteTagged(e1, entries[0].value).Some? {
          WriteEntriesStable(e1, e2, entries[1..]);
        }
      }
    }
  }

  lemma {:induction false} WriteDataStable(e1: Env, e2: Env, tag: nat, params: seq<Option<Attr>>)
    requires Settled(e1, e2, WriteData(e1, tag, params), forall i :: 0 <= i < |params| ==> CoveredArg(e1.types, params[i]))
    ensures WriteData(e2, tag, params) == WriteData(e1, tag, params)
    decreases params, 1
  {
    hide WritePhase, PresenceWord, Required, Present, CoveredArg;
    if tag in e1.attrs && Admissible(e1.version, e1.attrs[tag].params, params) && e1.version.AtLeast(e1.attrs[tag].since) {
      var ps := e1.attrs[tag].params;
      WritePhaseStable(e1, e2, ps, params, Required(ps));
      if WritePhase(e1, ps, params, Required(ps)).Some? && (HasOptional(ps) ==> Count(PresenceWord(ps, params)).Some?) {
        WritePhaseStable(e1, e2, ps, params, Present(ps, params));
      }
    }
  }

  lemma {:induction false} WritePhaseStable(e1: Env, e2: Env, ps: seq<ParamSchema>, params: seq<Option<Attr>>,
                                            now: seq<bool>)
    requires |ps| == |params| == |now|
    requires Settled(e1, e2, WritePhase(e1, ps, params, now),
                     forall i :: 0 <= i < |params| ==> CoveredArg(e1.types, params[i]))
    ensures WritePhase(e2, ps, params, now) == WritePhase(e1, ps, params, now)
    decreases params, 0
  {
    hide WriteParam, CoveredArg;
    if ps == [] {
    } else if now[0] {
      WriteParamStable(e1, e2, ps[0].kind, params[0]);
      if WriteParam(e1, ps[0].kind, params[0]).Some? {
        WritePhaseStable(e1, e2, ps[1..], params[1..], now[1..]);
      }
    } else {
      WritePhaseStable(e1, e2, ps[1..], params[1..], now[1..]);
    }
  }

  lemma {:induction false} WriteParamStable(e1: Env, e2: Env, kind: Kind, param: Option<Attr>)
    requires Settled(e1, e2, WriteParam(e1, kind, param), CoveredArg(e1.types, param))
    ensures WriteParam(e2, kind, param) == WriteParam(e1, kind, param)
    decreases param, 0
  {
    match param
    case None =>
    case Some(a) => WriteStable(e1, e2, kind, a);
  }

  lemma {:induction false} TypesStable(e1: Env, e2: Env, types: seq<Type>)
    requires Continues(e1, e2) && WriteTypes(e1, types).Some?
    ensures WriteTypes(e2, types) == WriteTypes(e1, types)
  {
    hide Index;
    if types != [] {
      TypeSettled(e1, e2, types[0]);
      TypesStable(e1, e2, types[1..]);
    }
  }

  // ---------------------------------------------------------------- readers

  /**
    A reader that stops at a missing entry stops there because its table does not have it;
    and with a table that knows more, but not that entry, everything is read as before.
    */
  predicate SameUnlessFound<T(==)>(e1: Env, e2: Env, r1: Parsed<T>, r2: Parsed<T>) {
    (r1.Missing? ==> r1.index < |e1.types| && e1.types[r1.index].None?) &&
    ((r1.Missing? && r1.index < |e2.types| && e2.types[r1.index].Some?) || r2 == r1)
  }

  lemma {:induction false} ReadTypeAgain(e1: Env, e2: Env, bs: bytes)
    requires KnowsMore(e1, e2) && |e1.types| == |e2.types|
    ensures SameUnlessFound(e1, e2, ReadType(bs, e1.types), ReadType(bs, e2.types))
  {
  }

  /** The same file: only knowledge of the types differs. */
  predicate SameFile(e1: Env, e2: Env) {
    KnowsMore(e1, e2) && |e1.types| == |e2.types| && e1.strings == e2.strings && e1.constants == e2.constants
  }

  lemma {:induction false} ReadAgain(e1: Env, e2: Env, kind: Kind, bs: bytes, bound: nat)
    requires SameFile(e1, e2)
    ensures SameUnlessFound(e1, e2, Read(e1, kind, bs, bound), Read(e2, kind, bs, bound))
    decreases |bs|, bound, 1, 0
  {
    hide ReadType, ReadElems, ReadEntries, ReadData, ReadTagged, ReadLEVarSize, ReadScalar, ReadSignedVarInt,
         ReadVarInt;
    match kind
    case KType => ReadTypeAgain(e1, e2, bs);
    case KClass(_) => ReadTypeAgain(e1, e2, bs);
    case KArray => if ReadCount(bs).Got? { ReadElemsAgain(e1, e2, ReadCount(bs).value, ReadCount(bs).rest); }
    case KDict => if ReadCount(bs).Got? { ReadEntriesAgain(e1, e2, ReadCount(bs).value, ReadCount(bs).rest); }
    case KNested(tag) => if tag < bound { ReadDataAgain(e1, e2, tag, bs); }
    case KSelfContained => ReadTaggedAgain(e1, e2, bs);
    case _ =>
  }

  lemma {:induction false} ReadTaggedAgain(e1: Env, e2: Env, bs: bytes)
    requires SameFile(e1, e2)
    ensures SameUnlessFound(e1, e2, ReadTagged(e1, bs), ReadTagged(e2, bs))
    decreases |bs|, 0, 0, 0
  {
    hide ReadPayload;
    var raw := ReadVarInt(bs);
    if raw.Got? {
      ReadPayloadAgain(e1, e2, raw.value % 256, raw.rest);
    }
  }

  lemma {:induction false} ReadPayloadAgain(e1: Env, e2: Env, tag: byte, bs: bytes)
    requires SameFile(e1, e2)
    ensures SameUnlessFound(e1, e2, ReadPayload(e1, tag, bs), ReadPayload(e2, tag, bs))
    decreases |bs|, 256, 0, 0
  {
    hide Read, ReadData, ReadScalar;
    if tag == TAG_INTEGER || tag == TAG_FLOAT {
      ReadTypeAgain(e1, e2, bs);
    } else if tag == TAG_TYPE {
      ReadAgain(e1, e2, KType, bs, 0);
    } else if tag == TAG_STRING {
      ReadAgain(e1, e2, KStr, bs, 0);
    } else if tag == TAG_ARRAY {
      ReadAgain(e1, e2, KArray, bs, 0);
    } else if tag == TAG_DICTIONARY {
      ReadAgain(e1, e2, KDict, bs, 0);
    } else {
      ReadDataAgain(e1, e2, tag, bs);
    }
  }

  lemma {:induction false} ReadElemsAgain(e1: Env, e2: Env, count: nat, bs: bytes)
    requires SameFile(e1, e2)
    ensures SameUnlessFound(e1, e2, ReadElems(e1, count, bs), ReadElems(e2, count, bs))
    decreases |bs|, 0, 2, count
  {
    hide ReadTagged;
    if count > 0 {
      ReadTaggedAgain(e1, e2, bs);
      if ReadTagged(e1, bs).Got? {
        ReadElemsAgain(e1, e2, count - 1, ReadTagged(e1, bs).rest);
      }
    }
  }

  lemma {:induction false} ReadEntriesAgain(e1: Env, e2: Env, count: nat, bs: bytes)
    requires SameFile(e1, e2)
    ensures SameUnlessFound(e1, e2, ReadEntries(e1, count, bs), ReadEntries(e2, count, bs))
    decreases |bs|, 0, 2, count
  {
    hide ReadTagged;
    if count > 0 {
      var key := ReadIndex(bs, e1.strings);
      if key.Got? {
        ReadTaggedAgain(e1, e2, key.rest);
        if ReadTagged(e1, key.rest).Got? {
          ReadEntriesAgain(e1, e2, count - 1, ReadTagged(e1, key.rest).rest);
        }
      }
    }
  }

  lemma {:induction false} ReadDataAgain(e1: Env, e2: Env, tag: nat, bs: bytes)
    requires SameFile(e1, e2)
    ensures SameUnlessFound(e1, e2, ReadData(e1, tag, bs), ReadData(e2, tag, bs))
    decreases |bs|, tag, 3, 0
  {
    hide ReadPhase, Required, Merge, ReadPresence, AttrCodec.FromWord;
    if tag in e1.attrs {
      var ps := e1.attrs[tag].params;
      if e1.attrs[tag].requiredFirst {
        ReadPhaseAgain(e1, e2, ps, Required(ps), bs, tag);
        var required := ReadPhase(e1, ps, Required(ps), bs, tag);
        if required.Got? && ReadPresence(ps, required.rest).Got? {
          var presence := ReadPresence(ps, required.rest);
          ReadPhaseAgain(e1, e2, ps, AttrCodec.FromWord(ps, presence.value), presence.rest, tag);
        }
      } else {
        var presence := ReadPresence(ps, bs);
        if presence.Got? {
          ReadPhaseAgain(e1, e2, ps, Required(ps), presence.rest, tag);
          var required := ReadPhase(e1, ps, Required(ps), presence.rest, tag);
          if required.Got? {
            ReadPhaseAgain(e1, e2, ps, AttrCodec.FromWord(ps, presence.value), required.rest, tag);
          }
        }
      }
    }
  }

  lemma {:induction false} ReadPhaseAgain(e1: Env, e2: Env, ps: seq<ParamSchema>, now: seq<bool>, bs: bytes, bound: nat)
    requires SameFile(e1, e2) && |now| == |ps|
    ensures SameUnlessFound(e1, e2, ReadPhase(e1, ps, now, bs, bound), ReadPhase(e2, ps, now, bs, bound))
    decreases |bs|, bound, 2, |ps|
  {
    hide Read;
    if ps == [] {
    } else if now[0] {
      ReadAgain(e1, e2, ps[0].kind, bs, bound);
      var head := Read(e1, ps[0].kind, bs, bound);
      if head.Got? {
        ReadPhaseAgain(e1, e2, ps[1..], now[1..], head.rest, bound);
      }
    } else {
      ReadPhaseAgain(e1, e2, ps[1..], now[1..], bs, bound);
    }
  }
}
