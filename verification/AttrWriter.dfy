/**
  The writer of attributes as it runs: it goes through an attribute once, interns what the
  attribute refers to, and writes the indices. Each method is proved against the pure encoding
  under the tables it leaves behind.
  */
module AttrWriters {
  import opened Base
  import opened VarInts
  import opened Encoding
  import opened Ir
  import opened AttrCodec
  import opened AttrTables
  import opened Streams
  import opened Interning

  // ---------------------------------------------------------------- lists, one more at a time

  lemma {:induction false} OneMoreElem(e: Env, elems: seq<Attr>, i: nat)
    requires i < |elems|
    ensures WriteElems(e, elems[..i + 1]) == Joined(WriteElems(e, elems[..i]), WriteTagged(e, elems[i]))
    ensures WriteTagged(e, elems[i]).None? ==> WriteElems(e, elems).None?
    decreases |elems|
  {
    hide WriteTagged;
    var head := WriteTagged(e, elems[0]);
    if i == 0 {
      OnlyFirst(elems);
      JoinedNothing(head);
    } else {
      Shifted(elems, i);
      OneMoreElem(e, elems[1..], i - 1);
      JoinedAssoc(head, WriteElems(e, elems[1..][..i - 1]), WriteTagged(e, elems[i]));
    }
  }

  /** Key and value of one entry. */
  function KeyAndValue(e: Env, entry: Entry): Option<bytes> {
    Joined(Index(e.strings, entry.key), WriteTagged(e, entry.value))
  }

  lemma {:induction false} EntriesHead(e: Env, entries: seq<Entry>)
    requires entries != []
    ensures WriteEntries(e, entries) == Joined(KeyAndValue(e, entries[0]), WriteEntries(e, entries[1..]))
  {
    hide WriteTagged, Index;
    JoinedAssoc(Index(e.strings, entries[0].key), WriteTagged(e, entries[0].value), WriteEntries(e, entries[1..]));
  }

  lemma {:induction false} OneMoreEntry(e: Env, entries: seq<Entry>, i: nat)
    requires i < |entries|
    ensures WriteEntries(e, entries[..i + 1]) == Joined(WriteEntries(e, entries[..i]), KeyAndValue(e, entries[i]))
    ensures KeyAndValue(e, entries[i]).None? ==> WriteEntries(e, entries).None?
    decreases |entries|
  {
    hide WriteTagged, Index, KeyAndValue;
    EntriesHead(e, entries);
    EntriesHead(e, entries[..i + 1]);
    var head := KeyAndValue(e, entries[0]);
    if i == 0 {
      OnlyFirst(entries);
      JoinedNothing(head);
    } else {
      EntriesHead(e, entries[..i]);
      Shifted(entries, i);
      OneMoreEntry(e, entries[1..], i - 1);
      JoinedAssoc(head, WriteEntries(e, entries[1..][..i - 1]), KeyAndValue(e, entries[i]));
    }
  }

  /** A key or value that no longer table helps to write. */
  lemma {:induction false} EntryRefused(e: Env, entries: seq<Entry>, i: nat)
    requires i < |entries|
    requires (forall later :: Continues(e, later) ==> Index(later.strings, entries[i].key).None?) ||
             (forall later :: Continues(e, later) ==> WriteTagged(later, entries[i].value).None?)
    ensures forall later :: Continues(e, later) ==> WriteEntries(later, entries).None?
  {
    hide Continues, WriteTagged, Index, WriteEntries;
    forall later | Continues(e, later) ensures WriteEntries(later, entries).None? {
      OneMoreEntry(later, entries, i);
    }
  }

  /** What one parameter adds in a phase. */
  function PhasePart(e: Env, now: bool, kind: Kind, param: Option<Attr>): Option<bytes> {
    if now then WriteParam(e, kind, param) else Some([])
  }

  lemma {:induction false} PhaseHead(e: Env, ps: seq<ParamSchema>, params: seq<Option<Attr>>, now: seq<bool>)
    requires |params| == |ps| == |now| && ps != []
    ensures WritePhase(e, ps, params, now) ==
            Joined(PhasePart(e, now[0], ps[0].kind, params[0]), WritePhase(e, ps[1..], params[1..], now[1..]))
  {
    hide WriteParam;
    JoinedNothing(WritePhase(e, ps[1..], params[1..], now[1..]));
  }

  lemma {:induction false} OneMoreParam(e: Env, ps: seq<ParamSchema>, params: seq<Option<Attr>>, now: seq<bool>, i: nat)
    requires |params| == |ps| == |now| && i < |ps|
    ensures WritePhase(e, ps[..i + 1], params[..i + 1], now[..i + 1]) ==
            Joined(WritePhase(e, ps[..i], params[..i], now[..i]), PhasePart(e, now[i], ps[i].kind, params[i]))
    ensures PhasePart(e, now[i], ps[i].kind, params[i]).None? ==> WritePhase(e, ps, params, now).None?
    decreases |ps|
  {
    hide WriteParam, PhasePart, WritePhase;
    PhaseHead(e, ps, params, now);
    PhaseHead(e, ps[..i + 1], params[..i + 1], now[..i + 1]);
    var head := PhasePart(e, now[0], ps[0].kind, params[0]);
    if i == 0 {
      NothingInPhase(e, ps[..1], params[..1], now[..1]);
      JoinedNothing(head);
    } else {
      PhaseHead(e, ps[..i], params[..i], now[..i]);
      Shifted(ps, i);
      Shifted(params, i);
      Shifted(now, i);
      OneMoreParam(e, ps[1..], params[1..], now[1..], i - 1);
      JoinedAssoc(head, WritePhase(e, ps[1..][..i - 1], params[1..][..i - 1], now[1..][..i - 1]),
                  PhasePart(e, now[i], ps[i].kind, params[i]));
    }
  }

  lemma {:induction false} NothingInPhase(e: Env, ps: seq<ParamSchema>, params: seq<Option<Attr>>, now: seq<bool>)
    requires |params| == |ps| == |now|
    ensures WritePhase(e, ps[..0], params[..0], now[..0]) == Some([])
    ensures |ps| == 1 ==> WritePhase(e, ps[1..], params[1..], now[1..]) == Some([])
  {
  }

  // ---------------------------------------------------------------- one attribute

  /** Tag, type and value of an integer or float. */
  method WriteScalar(m: Managers, tag: u64, ty: Type, payload: bytes, writer: EncodingWriter) returns (ok: bool)
    requires m.Valid()
    modifies m.Repr(), writer`stream
    ensures m.Valid() && (Some(ty) in old(m.Now()).types ==> Quiet(old(m.Now()), m.Now()))
    ensures Wrote(old(m.Now()), m.Now(), ok, old(writer.stream), writer.stream,
                  Joined(Some(VarInt(tag)), Joined(Index(m.Now().types, Some(ty)), Some(payload))))
    ensures !ok ==> forall e :: Continues(m.Now(), e) ==>
                                  Joined(Some(VarInt(tag)), Joined(Index(e.types, Some(ty)), Some(payload))).None?
  {
    hide Managers.Valid, Managers.Now, Index, VarInt;
    writer.WriteVarInt(tag);
    ok := m.PutType(ty, writer);
    if ok {
      writer.WriteBytes(payload);
    }
  }

  /** An attribute whose kind the reader knows. */
  method WriteAttribute(m: Managers, kind: Kind, a: Attr, writer: EncodingWriter) returns (ok: bool)
    requires m.Valid()
    modifies m.Repr(), writer`stream
    ensures m.Valid() && (Has(old(m.Now()).types, old(m.Now()).constants, a) ==> Quiet(old(m.Now()), m.Now()))
    ensures Wrote(old(m.Now()), m.Now(), ok, old(writer.stream), writer.stream, Write(m.Now(), kind, a))
    ensures !ok ==> forall e :: Continues(m.Now(), e) ==> Write(e, kind, a).None?
    decreases a, 2
  {
    hide Managers.Valid, Managers.Now, Index, WriteTagged, WriteElems, WriteEntries, WriteData, VarInt, SignedVarInt,
         LEVarSize, AllFit, FitsSigned, ToWord, Pow2, IntegerWidth, Wrote, Continues, Quiet;
    NothingWrote(m.Now(), writer.stream, writer.stream);
    match kind {
      case KType =>
        if !a.TypeRef? {
          return false;
        }
        ok := m.PutType(a.ty, writer);
      case KClass(tag) =>
        if !a.TypeRef? || !OfClass(a.ty, tag) {
          return false;
        }
        ok := m.PutType(a.ty, writer);
      case KStr =>
        if !a.Str? {
          return false;
        }
        ok := m.PutString(a.s, writer);
      case KSymbol =>
        if !a.Symbol? {
          return false;
        }
        ok := m.PutString(a.s, writer);
      case KElements =>
        if !a.Elements? {
          return false;
        }
        ok := m.PutConstant(a.content, writer);
      case KArray =>
        if !a.Array? {
          return false;
        }
        ok := WriteElements(m, a.elems, writer);
      case KDict =>
        if !a.Dict? {
          return false;
        }
        ok := WriteDictionary(m, a.entries, writer);
      case KNested(tag) =>
        if !a.Custom? || a.tag != tag {
          return false;
        }
        ok := WriteParameters(m, tag, a.params, writer);
      case KSelfContained =>
        ok := WriteSelfContained(m, a, writer);
      case _ =>
        var data := Write(m.Now(), kind, a);
        PlainForAllTables(m.Now(), kind, a);
        ok := WritePlain(m, data, writer);
    }
  }

  /** Kinds that refer to no table. */
  lemma {:induction false} PlainForAllTables(e: Env, kind: Kind, a: Attr)
    requires !kind.KType? && !kind.KClass? && !kind.KStr? && !kind.KSymbol? && !kind.KElements? && !kind.KArray? &&
             !kind.KDict? && !kind.KNested? && !kind.KSelfContained?
    ensures forall later :: Continues(e, later) ==> Write(later, kind, a) == Write(e, kind, a)
  {
    hide SignedVarInt, LEVarSize, AllFit, FitsSigned, ToWord, Pow2, IntegerWidth, VarInt;
  }

  method WritePlain(m: Managers, data: Option<bytes>, writer: EncodingWriter) returns (ok: bool)
    requires m.Valid()
    modifies writer`stream
    ensures m.Valid() && m.Now() == old(m.Now()) && Quiet(m.Now(), m.Now())
    ensures Wrote(m.Now(), m.Now(), ok, old(writer.stream), writer.stream, data)
    ensures ok <==> data.Some?
  {
    hide Managers.Valid;
    ok := data.Some?;
    if ok {
      writer.WriteBytes(data.value);
    }
  }

  /** Tag and payload. */
  method WriteSelfContained(m: Managers, a: Attr, writer: EncodingWriter) returns (ok: bool)
    requires m.Valid()
    modifies m.Repr(), writer`stream
    ensures m.Valid() && (Has(old(m.Now()).types, old(m.Now()).constants, a) ==> Quiet(old(m.Now()), m.Now()))
    ensures Wrote(old(m.Now()), m.Now(), ok, old(writer.stream), writer.stream, WriteTagged(m.Now(), a))
    ensures !ok ==> forall e :: Continues(m.Now(), e) ==> WriteTagged(e, a).None?
    decreases a, 1
  {
    hide Managers.Valid, Managers.Now, Index, WriteElems, WriteEntries, WriteData, VarInt, APInt, Pow2, IntegerWidth,
         FloatWidth, Wrote, Continues, Quiet;
    ghost var before := writer.stream;
    NothingWrote(m.Now(), before, before);
    match a {
      case Int(ty, v) =>
        if IntegerWidth(ty).None? || v >= Pow2(IntegerWidth(ty).value) || v >= TWO_TO_THE_64 {
          return false;
        }
        ok := WriteScalar(m, TAG_INTEGER, ty, VarInt(v), writer);
      case Float(ty, bits) =>
        if FloatWidth(ty).None? || bits >= Pow2(FloatWidth(ty).value) {
          return false;
        }
        ok := WriteScalar(m, TAG_FLOAT, ty, APInt(bits, FloatWidth(ty).value), writer);
      case TypeRef(ty) =>
        writer.WriteVarInt(TAG_TYPE);
        ok := m.PutType(ty, writer);
        WroteBehind(old(m.Now()), m.Now(), ok, before, VarInt(TAG_TYPE), writer.stream, Index(m.Now().types, Some(ty)));
      case Str(s) =>
        writer.WriteVarInt(TAG_STRING);
        ok := m.PutString(s, writer);
        WroteBehind(old(m.Now()), m.Now(), ok, before, VarInt(TAG_STRING), writer.stream, Index(m.Now().strings, s));
      case Array(_) => ok := WriteContainer(m, a, writer);
      case Dict(_) => ok := WriteContainer(m, a, writer);
      case Custom(_, _) => ok := WriteContainer(m, a, writer);
      case _ =>
        return false;
    }
  }

  /** Tag and payload of an attribute that holds other attributes. */
  method WriteContainer(m: Managers, a: Attr, writer: EncodingWriter) returns (ok: bool)
    requires m.Valid() && (a.Array? || a.Dict? || a.Custom?)
    modifies m.Repr(), writer`stream
    ensures m.Valid() && (Has(old(m.Now()).types, old(m.Now()).constants, a) ==> Quiet(old(m.Now()), m.Now()))
    ensures Wrote(old(m.Now()), m.Now(), ok, old(writer.stream), writer.stream, WriteTagged(m.Now(), a))
    ensures !ok ==> forall e :: Continues(m.Now(), e) ==> WriteTagged(e, a).None?
    decreases a, 0
  {
    hide Managers.Valid, Managers.Now, Index, WriteElems, WriteEntries, WriteData, VarInt, Wrote, Continues, Quiet;
    ghost var before := writer.stream;
    match a {
      case Array(elems) =>
        writer.WriteVarInt(TAG_ARRAY);
        ok := WriteElements(m, elems, writer);
        WroteBehind(old(m.Now()), m.Now(), ok, before, VarInt(TAG_ARRAY), writer.stream,
                    Joined(Count(|elems|), WriteElems(m.Now(), elems)));
      case Dict(entries) =>
        writer.WriteVarInt(TAG_DICTIONARY);
        ok := WriteDictionary(m, entries, writer);
        WroteBehind(old(m.Now()), m.Now(), ok, before, VarInt(TAG_DICTIONARY), writer.stream,
                    Joined(Count(|entries|), WriteEntries(m.Now(), entries)));
      case Custom(tag, params) =>
        writer.WriteBytes(VarInt(tag));
        ok := WriteParameters(m, tag, params, writer);
        WroteBehind(old(m.Now()), m.Now(), ok, before, VarInt(tag), writer.stream, WriteData(m.Now(), tag, params));
    }
  }

  method WriteElements(m: Managers, elems: seq<Attr>, writer: EncodingWriter) returns (ok: bool)
    requires m.Valid()
    modifies m.Repr(), writer`stream
    ensures m.Valid() && Wrote(old(m.Now()), m.Now(), ok, old(writer.stream), writer.stream,
                               Joined(Count(|elems|), WriteElems(m.Now(), elems)))
    ensures (forall i :: 0 <= i < |elems| ==> Has(old(m.Now()).types, old(m.Now()).constants, elems[i])) ==>
              Quiet(old(m.Now()), m.Now())
    ensures !ok ==> forall e :: Continues(m.Now(), e) ==> Joined(Count(|elems|), WriteElems(e, elems)).None?
    decreases elems, 0
  {
    hide VarInt, Managers.Valid, Managers.Now, WriteElems, WriteTagged, Has;
    if |elems| >= TWO_TO_THE_64 {
      return false;
    }
    writer.WriteVarInt(|elems|);
    ghost var count, done: bytes := VarInt(|elems|), [];
    assert WriteElems(m.Now(), elems[..0]) == Some([]) by {
      StartElems(m.Now(), elems);
    }
    for i := 0 to |elems|
      invariant m.Valid() && Continues(old(m.Now()), m.Now())
      invariant (forall k :: 0 <= k < |elems| ==> Has(old(m.Now()).types, old(m.Now()).constants, elems[k])) ==>
                  Quiet(old(m.Now()), m.Now())
      invariant WriteElems(m.Now(), elems[..i]) == Some(done) && writer.stream == old(writer.stream) + count + done
    {
      ghost var e := m.Now();
      ok := WriteSelfContained(m, elems[i], writer);
      OneMoreElem(m.Now(), elems, i);
      if !ok {
        forall later | Continues(m.Now(), later) ensures WriteElems(later, elems).None? {
          OneMoreElem(later, elems, i);
        }
        return false;
      }
      WriteElemsStable(e, m.Now(), elems[..i]);
      done := done + WriteTagged(m.Now(), elems[i]).value;
    }
    assert elems[..|elems|] == elems;
    ok := true;
  }

  lemma {:induction false} StartElems(e: Env, elems: seq<Attr>)
    ensures WriteElems(e, elems[..0]) == Some([])
  {
  }

  method WriteDictionary(m: Managers, entries: seq<Entry>, writer: EncodingWriter) returns (ok: bool)
    requires m.Valid()
    modifies m.Repr(), writer`stream
    ensures m.Valid() && Wrote(old(m.Now()), m.Now(), ok, old(writer.stream), writer.stream,
                               Joined(Count(|entries|), WriteEntries(m.Now(), entries)))
    ensures (forall i :: 0 <= i < |entries| ==> Has(old(m.Now()).types, old(m.Now()).constants, entries[i].value)) ==>
              Quiet(old(m.Now()), m.Now())
    ensures !ok ==> forall e :: Continues(m.Now(), e) ==> Joined(Count(|entries|), WriteEntries(e, entries)).None?
    decreases entries, 0
  {
    hide VarInt, Managers.Valid, Managers.Now, WriteEntries, WriteTagged, Has, Index;
    if |entries| >= TWO_TO_THE_64 {
      return false;
    }
    writer.WriteVarInt(|entries|);
    ghost var count, done: bytes := VarInt(|entries|), [];
    assert WriteEntries(m.Now(), entries[..0]) == Some([]) by {
      StartEntries(m.Now(), entries);
    }
    for i := 0 to |entries|
      invariant m.Valid() && Continues(old(m.Now()), m.Now())
      invariant (forall k :: 0 <= k < |entries| ==> Has(old(m.Now()).types, old(m.Now()).constants, entries[k].value)) ==>
                  Quiet(old(m.Now()), m.Now())
      invariant WriteEntries(m.Now(), entries[..i]) == Some(done) && writer.stream == old(writer.stream) + count + done
    {
      ghost var e := m.Now();
      ok := m.PutString(entries[i].key, writer);
      if !ok {
        EntryRefused(m.Now(), entries, i);
        return false;
      }
      ghost var e' := m.Now();
      ok := WriteSelfContained(m, entries[i].value, writer);
      OneMoreEntry(m.Now(), entries, i);
      StringSettled(e', m.Now(), entries[i].key);
      if !ok {
        EntryRefused(m.Now(), entries, i);
        return false;
      }
      WriteEntriesStable(e, m.Now(), entries[..i]);
      done := done + KeyAndValue(m.Now(), entries[i]).value;
    }
    assert entries[..|entries|] == entries;
    ok := true;
  }

  lemma {:induction false} StartEntries(e: Env, entries: seq<Entry>)
    ensures WriteEntries(e, entries[..0]) == Some([])
  {
  }

  /** The parameters of a generated attribute, in one of two orders. */
  method WriteParameters(m: Managers, tag: nat, params: seq<Option<Attr>>, writer: EncodingWriter) returns (ok: bool)
    requires m.Valid()
    modifies m.Repr(), writer`stream
    ensures m.Valid() && Wrote(old(m.Now()), m.Now(), ok, old(writer.stream), writer.stream, WriteData(m.Now(), tag, params))
    ensures (forall i :: 0 <= i < |params| ==> HasArg(old(m.Now()).types, old(m.Now()).constants, params[i])) ==>
              Quiet(old(m.Now()), m.Now())
    ensures !ok ==> forall e :: Continues(m.Now(), e) ==> WriteData(e, tag, params).None?
    decreases params, 3
  {
    hide Managers.Valid, Managers.Now, WritePhase, PresenceWord, Required, Present, VarInt, HasArg, Continues, WriteData,
         HasOptional, DataOf;
    ghost var e0 := m.Now();
    VersionNow(m);
    Reflexive(e0);
    if tag !in m.attrs {
      DataRefused(e0, tag, params);
      return false;
    }
    var schema := m.attrs[tag];
    var ps := schema.params;
    if m.version.Before(schema.since) || !Admissible(m.version, ps, params) ||
       (HasOptional(ps) && PresenceWord(ps, params) >= TWO_TO_THE_64)
    {
      DataRefused(e0, tag, params);
      return false;
    }
    DataForAllTables(e0, tag, params);
    ok := WriteDataOf(m, schema, params, writer);
    forall e | Continues(m.Now(), e) ensures Continues(e0, e) {
      Transitive(e0, m.Now(), e);
    }
  }

  /** What does not depend on the tables. */
  predicate Writable(e: Env, tag: nat, params: seq<Option<Attr>>) {
    tag in e.attrs && !e.version.Before(e.attrs[tag].since) && Admissible(e.version, e.attrs[tag].params, params) &&
    (HasOptional(e.attrs[tag].params) ==> PresenceWord(e.attrs[tag].params, params) < TWO_TO_THE_64)
  }

  lemma {:induction false} DataRefused(e: Env, tag: nat, params: seq<Option<Attr>>)
    requires !Writable(e, tag, params)
    ensures forall later :: Continues(e, later) ==> WriteData(later, tag, params) == None
  {
    hide WritePhase, PresenceWord, Required, Present, HasOptional;
  }

  /** Required parameters, flags and the optional parameters that are there, in the order of the schema. */
  function DataOf(e: Env, schema: AttrSchema, params: seq<Option<Attr>>): Option<bytes>
    requires |params| == |schema.params|
  {
    var ps := schema.params;
    var required, optional := WritePhase(e, ps, params, Required(ps)), WritePhase(e, ps, params, Present(ps, params));
    var flags := Some(FlagsOf(ps, params));
    if schema.requiredFirst then Joined(Joined(required, flags), optional) else Joined(flags, Joined(required, optional))
  }

  lemma {:induction false} DataForAllTables(e: Env, tag: nat, params: seq<Option<Attr>>)
    requires Writable(e, tag, params) && |params| == |e.attrs[tag].params|
    ensures forall later :: Continues(e, later) ==> WriteData(later, tag, params) == DataOf(later, e.attrs[tag], params)
  {
    hide WritePhase, PresenceWord, Required, Present, HasOptional, VarInt;
    var ps := e.attrs[tag].params;
    forall later | Continues(e, later) ensures WriteData(later, tag, params) == DataOf(later, e.attrs[tag], params) {
      JoinedAssoc(WritePhase(later, ps, params, Required(ps)), Some(FlagsOf(ps, params)),
                  WritePhase(later, ps, params, Present(ps, params)));
    }
  }

  method WriteDataOf(m: Managers, schema: AttrSchema, params: seq<Option<Attr>>, writer: EncodingWriter) returns (ok: bool)
    requires m.Valid() && |params| == |schema.params|
    requires HasOptional(schema.params) ==> PresenceWord(schema.params, params) < TWO_TO_THE_64
    modifies m.Repr(), writer`stream
    ensures m.Valid() && Wrote(old(m.Now()), m.Now(), ok, old(writer.stream), writer.stream, DataOf(m.Now(), schema, params))
    ensures (forall i :: 0 <= i < |params| ==> HasArg(old(m.Now()).types, old(m.Now()).constants, params[i])) ==>
              Quiet(old(m.Now()), m.Now())
    ensures !ok ==> forall e :: Continues(m.Now(), e) ==> DataOf(e, schema, params).None?
    decreases params, 2
  {
    hide Managers.Valid, Managers.Now, WritePhase, FlagsOf, Required, Present, HasArg, Continues, HasOptional;
    var ps := schema.params;
    ghost var before, e0 := writer.stream, m.Now();
    if !schema.requiredFirst {
      WriteFlagsOf(ps, params, writer);
    }
    ok := WritePhaseOf(m, ps, params, Required(ps), writer);
    ghost var e1 := m.Now();
    if !ok {
      return false;
    }
    if schema.requiredFirst {
      WriteFlagsOf(ps, params, writer);
    }
    ok := WritePhaseOf(m, ps, params, Present(ps, params), writer);
    Transitive(e0, e1, m.Now());
    WritePhaseStable(e1, m.Now(), ps, params, Required(ps));
    if ok {
      DataAssembled(before, WritePhase(e1, ps, params, Required(ps)).value, FlagsOf(ps, params),
                    WritePhase(m.Now(), ps, params, Present(ps, params)).value);
    }
  }

  lemma {:induction false} DataAssembled(s: bytes, required: bytes, flags: bytes, optional: bytes)
    ensures s + required + flags + optional == s + (required + flags + optional)
    ensures s + flags + required + optional == s + (flags + (required + optional))
  {
    Assoc(s, required, flags);
    Assoc(s, required + flags, optional);
    Assoc(s, flags, required + optional);
    Assoc(s + flags, required, optional);
  }

  function FlagsOf(ps: seq<ParamSchema>, params: seq<Option<Attr>>): bytes
    requires |params| == |ps|
  {
    if HasOptional(ps) then VarInt(PresenceWord(ps, params)) else []
  }

  method WriteFlagsOf(ps: seq<ParamSchema>, params: seq<Option<Attr>>, writer: EncodingWriter)
    requires |params| == |ps| && (HasOptional(ps) ==> PresenceWord(ps, params) < TWO_TO_THE_64)
    modifies writer`stream
    ensures writer.stream == old(writer.stream) + FlagsOf(ps, params)
  {
    hide VarInt, PresenceWord;
    if HasOptional(ps) {
      writer.WriteVarInt(PresenceWord(ps, params));
    }
  }

  method WriteParameter(m: Managers, kind: Kind, param: Option<Attr>, writer: EncodingWriter) returns (ok: bool)
    requires m.Valid()
    modifies m.Repr(), writer`stream
    ensures m.Valid() && Wrote(old(m.Now()), m.Now(), ok, old(writer.stream), writer.stream, WriteParam(m.Now(), kind, param))
    ensures HasArg(old(m.Now()).types, old(m.Now()).constants, param) ==> Quiet(old(m.Now()), m.Now())
    ensures !ok ==> forall e :: Continues(m.Now(), e) ==> WriteParam(e, kind, param).None?
    decreases param, 0
  {
    hide Managers.Valid, Managers.Now, Write, Has;
    match param {
      case None => ok := false;
      case Some(a) => ok := WriteAttribute(m, kind, a, writer);
    }
  }

  /** One phase: the parameters whose turn it is. */
  method WritePhaseOf(m: Managers, ps: seq<ParamSchema>, params: seq<Option<Attr>>, now: seq<bool>,
                      writer: EncodingWriter) returns (ok: bool)
    requires m.Valid() && |params| == |ps| == |now|
    modifies m.Repr(), writer`stream
    ensures m.Valid() && Wrote(old(m.Now()), m.Now(), ok, old(writer.stream), writer.stream,
                               WritePhase(m.Now(), ps, params, now))
    ensures (forall i :: 0 <= i < |params| ==> HasArg(old(m.Now()).types, old(m.Now()).constants, params[i])) ==>
              Quiet(old(m.Now()), m.Now())
    ensures !ok ==> forall e :: Continues(m.Now(), e) ==> WritePhase(e, ps, params, now).None?
    decreases params, 1
  {
    hide Managers.Valid, Managers.Now, WritePhase, WriteParam, HasArg;
    ghost var done: bytes := [];
    NothingInPhase(m.Now(), ps, params, now);
    for i := 0 to |ps|
      invariant m.Valid() && Continues(old(m.Now()), m.Now())
      invariant (forall k :: 0 <= k < |params| ==> HasArg(old(m.Now()).types, old(m.Now()).constants, params[k])) ==>
                  Quiet(old(m.Now()), m.Now())
      invariant WritePhase(m.Now(), ps[..i], params[..i], now[..i]) == Some(done)
      invariant writer.stream == old(writer.stream) + done
    {
      ghost var e := m.Now();
      if now[i] {
        ok := WriteParameter(m, ps[i].kind, params[i], writer);
      }
      OneMoreParam(m.Now(), ps, params, now, i);
      if now[i] && !ok {
        forall later | Continues(m.Now(), later) ensures WritePhase(later, ps, params, now).None? {
          OneMoreParam(later, ps, params, now, i);
        }
        return false;
      }
      WritePhaseStable(e, m.Now(), ps[..i], params[..i], now[..i]);
      done := done + PhasePart(m.Now(), now[i], ps[i].kind, params[i]).value;
    }
    assert ps[..|ps|] == ps && params[..|ps|] == params && now[..|ps|] == now;
    ok := true;
  }
}
