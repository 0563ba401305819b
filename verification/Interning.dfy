/**
  The writer's tables while it writes: every reference to a string, a type or a constant
  interns it and puts its index on the stream. What then stands on the stream is the encoding
  with the tables as they are afterwards; earlier bytes keep their meaning when the tables grow.
  */
module Interning {
  import opened Base
  import opened VarInts
  import opened Encoding
  import opened Ir
  import opened AttrCodec
  import opened AttrTables
  import opened Streams
  import opened Tables
  import opened TypeManagers

  /** The encoding under the tables afterwards stands on the stream, or it does not exist. */
  predicate Wrote(e1: Env, e2: Env, ok: bool, before: bytes, after: bytes, written: Option<bytes>) {
    Continues(e1, e2) && (ok <==> written.Some?) && (ok ==> after == before + written.value)
  }

  /** Bytes in front of what was written. */
  lemma {:induction false} WroteBehind(e1: Env, e2: Env, ok: bool, before: bytes, head: bytes, after: bytes,
                                       written: Option<bytes>)
    requires Wrote(e1, e2, ok, before + head, after, written)
    ensures Wrote(e1, e2, ok, before, after, Joined(Some(head), written))
  {
    if ok {
      Assoc(before, head, written.value);
    }
  }

  lemma {:induction false} NothingWrote(e: Env, before: bytes, after: bytes)
    ensures Wrote(e, e, false, before, after, None) && Quiet(e, e)
  {
  }

  lemma {:induction false} NothingNeeded(e: Env, stream: bytes)
    ensures Wrote(e, e, true, stream, stream, Some([]))
  {
  }

  lemma {:induction false} Reflexive(e: Env)
    ensures Continues(e, e)
  {
  }

  lemma {:induction false} Transitive(e1: Env, e2: Env, e3: Env)
    requires Continues(e1, e2) && Continues(e2, e3)
    ensures Continues(e1, e3)
  {
  }

  /** Nothing was interned but strings. */
  predicate Quiet(e1: Env, e2: Env) {
    e2.types == e1.types && e2.constants == e1.constants
  }

  /** Every type and constant the attribute mentions is in the tables. */
  predicate Has(types: seq<Option<Type>>, constants: seq<bytes>, a: Attr)
    decreases a, 0
  {
    match a
    case Int(ty, _) => Some(ty) in types
    case Float(ty, _) => Some(ty) in types
    case TypeRef(ty) => Some(ty) in types
    case Elements(content) => content in constants
    case Array(elems) => forall i :: 0 <= i < |elems| ==> Has(types, constants, elems[i])
    case Dict(entries) => forall i :: 0 <= i < |entries| ==> Has(types, constants, entries[i].value)
    case Custom(_, params) => forall i :: 0 <= i < |params| ==> HasArg(types, constants, params[i])
    case _ => true
  }

  predicate HasArg(types: seq<Option<Type>>, constants: seq<bytes>, arg: Option<Attr>)
    decreases arg, 0
  {
    match arg
    case None => true
    case Some(a) => Has(types, constants, a)
  }

  // ---------------------------------------------------------------- the managers

  class Managers {
    const version: Version
    const attrs: map<nat, AttrSchema>
    const strMgr: MapVector<bytes, bytes>
    const typeMgr: TypeManager
    const constMgr: MapVector<bytes, bytes>

    constructor (version: Version, attrs: map<nat, AttrSchema>)
      ensures Valid() && fresh(Repr()) && Now() == Env(version, [], [], [], attrs)
      ensures this.version == version && this.attrs == attrs
    {
      this.version, this.attrs := version, attrs;
      strMgr := new MapVector<bytes, bytes>();
      typeMgr := new TypeManager();
      constMgr := new MapVector<bytes, bytes>();
    }

    ghost function Repr(): set<object> {
      {strMgr, typeMgr, constMgr}
    }

    ghost predicate Valid()
      reads strMgr, typeMgr, constMgr
    {
      strMgr != constMgr && strMgr.Valid() && typeMgr.Valid({}) && constMgr.Valid()
    }

    /** The tables at this moment. */
    function Now(): Env
      reads strMgr, typeMgr, constMgr
    {
      Env(version, strMgr.keys, Full(typeMgr.typeList), constMgr.keys, attrs)
    }

    method StringIndex(s: bytes) returns (index: nat)
      requires Valid()
      modifies strMgr
      ensures Valid() && Continues(old(Now()), Now()) && Quiet(old(Now()), Now())
      ensures IndexOf(Now().strings, s) == Some(index)
    {
      hide TypeManager.Valid;
      index := strMgr.GetIndex(s, s);
    }

    method ConstantIndex(content: bytes) returns (index: nat)
      requires Valid()
      modifies constMgr
      ensures Valid() && Continues(old(Now()), Now()) && (content in old(Now().constants) ==> Quiet(old(Now()), Now()))
      ensures IndexOf(Now().constants, content) == Some(index)
    {
      hide TypeManager.Valid;
      index := constMgr.GetIndex(content, content);
    }

    method TypeIndex(ty: Type) returns (index: nat)
      requires Valid()
      modifies typeMgr
      ensures Valid() && Continues(old(Now()), Now()) && (Some(ty) in old(Now().types) ==> Quiet(old(Now()), Now()))
      ensures IndexOf(Now().types, Some(ty)) == Some(index)
    {
      hide TypeManager.Valid, MapVector.Valid, NoDuplicates, Full, IndexOf;
      index := typeMgr.GetTypeIndex(ty, {});
      NoDuplicatesInTable();
      FullIndex(typeMgr.typeList, index);
      FullGrows(old(typeMgr.typeList), typeMgr.typeList);
    }

    method PutString(s: bytes, writer: EncodingWriter) returns (ok: bool)
      requires Valid()
      modifies strMgr, writer`stream
      ensures Valid() && Quiet(old(Now()), Now())
      ensures Wrote(old(Now()), Now(), ok, old(writer.stream), writer.stream, Index(Now().strings, s))
      ensures !ok ==> forall e :: Continues(Now(), e) ==> Index(e.strings, s).None?
    {
      hide VarInt, Valid;
      var index := StringIndex(s);
      ok := index < TWO_TO_THE_64;
      if ok {
        writer.WriteVarInt(index);
      } else {
        forall e | Continues(Now(), e) ensures Index(e.strings, s).None? {
          IndexOfStable(Now().strings, e.strings, s);
        }
      }
    }

    method PutConstant(content: bytes, writer: EncodingWriter) returns (ok: bool)
      requires Valid()
      modifies constMgr, writer`stream
      ensures Valid() && (content in old(Now().constants) ==> Quiet(old(Now()), Now()))
      ensures Wrote(old(Now()), Now(), ok, old(writer.stream), writer.stream, Index(Now().constants, content))
      ensures !ok ==> forall e :: Continues(Now(), e) ==> Index(e.constants, content).None?
    {
      hide VarInt, Valid;
      var index := ConstantIndex(content);
      ok := index < TWO_TO_THE_64;
      if ok {
        writer.WriteVarInt(index);
      } else {
        forall e | Continues(Now(), e) ensures Index(e.constants, content).None? {
          IndexOfStable(Now().constants, e.constants, content);
        }
      }
    }

    method PutType(ty: Type, writer: EncodingWriter) returns (ok: bool)
      requires Valid()
      modifies typeMgr, writer`stream
      ensures Valid() && (Some(ty) in old(Now().types) ==> Quiet(old(Now()), Now()))
      ensures Wrote(old(Now()), Now(), ok, old(writer.stream), writer.stream, Index(Now().types, Some(ty)))
      ensures !ok ==> forall e :: Continues(Now(), e) ==> Index(e.types, Some(ty)).None?
    {
      hide VarInt, Valid;
      var index := TypeIndex(ty);
      ok := index < TWO_TO_THE_64;
      if ok {
        writer.WriteVarInt(index);
      } else {
        forall e | Continues(Now(), e) ensures Index(e.types, Some(ty)).None? {
          IndexOfStable(Now().types, e.types, Some(ty));
        }
      }
    }

    lemma {:induction false} NoDuplicatesInTable()
      requires Valid()
      ensures NoDuplicates(typeMgr.typeList)
    {
    }
  }

  lemma {:induction false} VersionNow(m: Managers)
    ensures m.Now().version == m.version && m.Now().attrs == m.attrs
    ensures forall later :: Continues(m.Now(), later) ==> later.version == m.version && later.attrs == m.attrs
  {
  }

  lemma {:induction false} FullIndex(types: seq<Type>, i: nat)
    requires NoDuplicates(types) && i < |types|
    ensures IndexOf(Full(types), Some(types[i])) == Some(i)
  {
    IndexOfIsFirst(Full(types), Some(types[i]), i);
  }

  lemma {:induction false} FullGrows(types: seq<Type>, more: seq<Type>)
    requires types <= more
    ensures Full(types) <= Full(more)
    ensures forall ty :: Some(ty) in Full(types) <==> ty in types
  {
    forall ty | ty in types ensures Some(ty) in Full(types) {
      var i :| 0 <= i < |types| && types[i] == ty;
      assert Full(types)[i] == Some(ty);
    }
  }

  // ---------------------------------------------------------------- lists of types

  /** Two parts one after the other, if both exist. */
  function Joined(a: Option<bytes>, b: Option<bytes>): Option<bytes> {
    if a.Some? && b.Some? then Some(a.value + b.value) else None
  }

  lemma {:induction false} JoinedNothing(a: Option<bytes>)
    ensures Joined(Some([]), a) == a && Joined(a, Some([])) == a
  {
    if a.Some? {
      assert [] + a.value == a.value && a.value + [] == a.value;
    }
  }

  lemma {:induction false} JoinedAssoc(a: Option<bytes>, b: Option<bytes>, c: Option<bytes>)
    ensures Joined(Joined(a, b), c) == Joined(a, Joined(b, c))
  {
    if a.Some? && b.Some? && c.Some? {
      Assoc(a.value, b.value, c.value);
    }
  }

  /** The first `i + 1` elements without the first of all. */
  lemma {:induction false} Shifted<T>(xs: seq<T>, i: nat)
    requires 0 < i < |xs|
    ensures xs[..i + 1][1..] == xs[1..][..i] && xs[..i][1..] == xs[1..][..i - 1] && xs[1..][i - 1] == xs[i]
  {
  }

  lemma {:induction false} OnlyFirst<T>(xs: seq<T>)
    requires xs != []
    ensures xs[..0] == [] && xs[..1][1..] == [] && xs[..1][0] == xs[0]
  {
  }

  /** One more type: the list up to it, and what its failure means for the whole list. */
  lemma {:induction false} OneMoreType(e: Env, tys: seq<Type>, i: nat)
    requires i < |tys|
    ensures WriteTypes(e, tys[..i + 1]) == Joined(WriteTypes(e, tys[..i]), Index(e.types, Some(tys[i])))
    ensures Index(e.types, Some(tys[i])).None? ==> WriteTypes(e, tys).None?
  {
    hide Index;
    var head := Index(e.types, Some(tys[0]));
    if i == 0 {
      OnlyFirst(tys);
      JoinedNothing(head);
    } else {
      Shifted(tys, i);
      OneMoreType(e, tys[1..], i - 1);
      JoinedAssoc(head, WriteTypes(e, tys[1..][..i - 1]), Index(e.types, Some(tys[i])));
    }
  }

  method PutTypes(m: Managers, tys: seq<Type>, writer: EncodingWriter) returns (ok: bool)
    requires m.Valid()
    modifies m.typeMgr, writer`stream
    ensures m.Valid() && ((forall i :: 0 <= i < |tys| ==> Some(tys[i]) in old(m.Now().types)) ==> Quiet(old(m.Now()), m.Now()))
    ensures Wrote(old(m.Now()), m.Now(), ok, old(writer.stream), writer.stream, WriteTypes(m.Now(), tys))
    ensures !ok ==> forall e :: Continues(m.Now(), e) ==> WriteTypes(e, tys).None?
  {
    hide Managers.Valid, Index, WriteTypes, Managers.Now;
    ghost var done: bytes := [];
    NoTypes(m.Now(), tys);
    for i := 0 to |tys|
      invariant m.Valid() && Continues(old(m.Now()), m.Now())
      invariant (forall k :: 0 <= k < |tys| ==> Some(tys[k]) in old(m.Now().types)) ==> Quiet(old(m.Now()), m.Now())
      invariant WriteTypes(m.Now(), tys[..i]) == Some(done) && writer.stream == old(writer.stream) + done
    {
      ghost var e := m.Now();
      ok := m.PutType(tys[i], writer);
      OneMoreType(m.Now(), tys, i);
      if !ok {
        forall later | Continues(m.Now(), later) ensures WriteTypes(later, tys).None? {
          OneMoreType(later, tys, i);
        }
        return false;
      }
      TypesStable(e, m.Now(), tys[..i]);
      done := done + Index(m.Now().types, Some(tys[i])).value;
    }
    assert tys[..|tys|] == tys;
    ok := true;
  }

  lemma {:induction false} NoTypes(e: Env, tys: seq<Type>)
    ensures WriteTypes(e, tys[..0]) == Some([])
  {
  }

  /** A counted list of types. */
  method WriteTypeList(m: Managers, tys: seq<Type>, writer: EncodingWriter) returns (ok: bool)
    requires m.Valid()
    modifies m.Repr(), writer`stream
    ensures m.Valid() && ((forall i :: 0 <= i < |tys| ==> Some(tys[i]) in old(m.Now()).types) ==> Quiet(old(m.Now()), m.Now()))
    ensures Wrote(old(m.Now()), m.Now(), ok, old(writer.stream), writer.stream,
                  Joined(Count(|tys|), WriteTypes(m.Now(), tys)))
    ensures !ok ==> forall e :: Continues(m.Now(), e) ==> Joined(Count(|tys|), WriteTypes(e, tys)).None?
  {
    hide Managers.Valid, Managers.Now, WriteTypes, VarInt, Wrote, Continues, Quiet;
    ghost var before := writer.stream;
    NothingWrote(m.Now(), before, before);
    if |tys| >= TWO_TO_THE_64 {
      return false;
    }
    writer.WriteVarInt(|tys|);
    ok := PutTypes(m, tys, writer);
    WroteBehind(old(m.Now()), m.Now(), ok, before, VarInt(|tys|), writer.stream, WriteTypes(m.Now(), tys));
  }
}
