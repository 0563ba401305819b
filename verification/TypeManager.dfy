/**
  The writer's type table. A type is registered after everything it depends on, so that the
  table is free of duplicates, closed, and in an order in which entries refer to earlier
  ones only.
  */
module TypeManagers {
  import opened Base
  import opened Ir

  // ---------------------------------------------------------------- sizes

  function TypeSize(ty: Type): (n: nat)
    ensures n >= 1
    decreases ty, 0
  {
    match ty
    case Builtin(_) => 1
    case Func(ins, outs) => 1 + TypesSize(ins) + TypesSize(outs)
    case Parametric(_, args) => 1 + ArgsSize(args)
  }

  function TypesSize(tys: seq<Type>): nat
    decreases tys, 0
  {
    if tys == [] then 0 else TypeSize(tys[0]) + TypesSize(tys[1..])
  }

  function AttrSize(a: Attr): (n: nat)
    ensures n >= 1
    decreases a, 0
  {
    match a
    case Int(ty, _) => 1 + TypeSize(ty)
    case Float(ty, _) => 1 + TypeSize(ty)
    case TypeRef(ty) => 1 + TypeSize(ty)
    case Array(elems) => 1 + AttrsSize(elems)
    case Dict(entries) => 1 + EntriesSize(entries)
    case Custom(_, params) => 1 + ArgsSize(params)
    case _ => 1
  }

  function AttrsSize(attrs: seq<Attr>): nat
    decreases attrs, 0
  {
    if attrs == [] then 0 else AttrSize(attrs[0]) + AttrsSize(attrs[1..])
  }

  function EntriesSize(entries: seq<Entry>): nat
    decreases entries, 0
  {
    if entries == [] then 0 else AttrSize(entries[0].value) + EntriesSize(entries[1..])
  }

  function ArgsSize(args: seq<Option<Attr>>): nat
    decreases args, 0
  {
    if args == [] then 0 else ArgSize(args[0]) + ArgsSize(args[1..])
  }

  function ArgSize(arg: Option<Attr>): nat
    decreases arg, 0
  {
    match arg
    case None => 0
    case Some(a) => AttrSize(a)
  }

  lemma {:induction false} TypeInList(tys: seq<Type>, i: nat)
    requires i < |tys|
    ensures TypeSize(tys[i]) <= TypesSize(tys)
  {
    if i > 0 {
      TypeInList(tys[1..], i - 1);
    }
  }

  lemma {:induction false} AttrInList(attrs: seq<Attr>, i: nat)
    requires i < |attrs|
    ensures AttrSize(attrs[i]) <= AttrsSize(attrs)
  {
    if i > 0 {
      AttrInList(attrs[1..], i - 1);
    }
  }

  lemma {:induction false} EntryInList(entries: seq<Entry>, i: nat)
    requires i < |entries|
    ensures AttrSize(entries[i].value) <= EntriesSize(entries)
  {
    if i > 0 {
      EntryInList(entries[1..], i - 1);
    }
  }

  lemma {:induction false} ArgInList(args: seq<Option<Attr>>, i: nat)
    requires i < |args|
    ensures args[i].Some? ==> AttrSize(args[i].value) <= ArgsSize(args)
  {
    if i > 0 {
      ArgInList(args[1..], i - 1);
    }
  }

  // ---------------------------------------------------------------- dependencies

  /** The types an attribute is registered with are in the table. Scalars register nothing. */
  predicate AttrRegistered(types: seq<Type>, a: Attr)
    decreases a, 0
  {
    match a
    case TypeRef(ty) => ty in types
    case Array(elems) => forall i :: 0 <= i < |elems| ==> AttrRegistered(types, elems[i])
    case Dict(entries) => forall i :: 0 <= i < |entries| ==> AttrRegistered(types, entries[i].value)
    case Custom(_, params) => forall i :: 0 <= i < |params| ==> ArgRegistered(types, params[i])
    case _ => true
  }

  predicate ArgRegistered(types: seq<Type>, arg: Option<Attr>)
    decreases arg, 0
  {
    match arg
    case None => true
    case Some(a) => AttrRegistered(types, a)
  }

  /** All that `ty` is registered after is in the table. */
  predicate DepsRegistered(types: seq<Type>, ty: Type) {
    match ty
    case Builtin(_) => true
    case Func(ins, outs) => (forall t :: t in ins ==> t in types) && (forall t :: t in outs ==> t in types)
    case Parametric(_, args) => forall i :: 0 <= i < |args| ==> ArgRegistered(types, args[i])
  }

  predicate Includes<T(==)>(all: seq<T>, some: seq<T>) {
    forall x :: x in some ==> x in all
  }

  lemma {:induction false} AttrStaysRegistered(types: seq<Type>, more: seq<Type>, a: Attr)
    requires Includes(more, types) && AttrRegistered(types, a)
    ensures AttrRegistered(more, a)
    decreases a, 0
  {
    match a
    case Array(elems) =>
      forall i | 0 <= i < |elems| ensures AttrRegistered(more, elems[i]) {
        AttrStaysRegistered(types, more, elems[i]);
      }
    case Dict(entries) =>
      forall i | 0 <= i < |entries| ensures AttrRegistered(more, entries[i].value) {
        AttrStaysRegistered(types, more, entries[i].value);
      }
    case Custom(_, params) =>
      forall i | 0 <= i < |params| ensures ArgRegistered(more, params[i]) {
        ArgStaysRegistered(types, more, params[i]);
      }
    case _ =>
  }

  lemma {:induction false} ArgStaysRegistered(types: seq<Type>, more: seq<Type>, arg: Option<Attr>)
    requires Includes(more, types) && ArgRegistered(types, arg)
    ensures ArgRegistered(more, arg)
    decreases arg, 0
  {
    match arg
    case None =>
    case Some(a) => AttrStaysRegistered(types, more, a);
  }

  /** Entries refer to earlier entries. */
  predicate InOrder(types: seq<Type>) {
    forall i :: 0 <= i < |types| ==> DepsRegistered(types[..i], types[i])
  }

  predicate NoDuplicates(types: seq<Type>) {
    forall i, j :: 0 <= i < j < |types| ==> types[i] != types[j]
  }

  // ---------------------------------------------------------------- the table

  class TypeManager {
    var typeList: seq<Type>
    var typeIndexMap: map<Type, nat>
    var visitedAttrs: set<Attr>

    constructor ()
      ensures Valid({}) && typeList == []
    {
      typeList, typeIndexMap, visitedAttrs := [], map[], {};
    }

    /**
      The invariant of every step. Attributes in `busy` are being registered; all others that
      were visited are registered.
      */
    ghost predicate Valid(busy: set<Attr>)
      reads this
    {
      && NoDuplicates(typeList) && InOrder(typeList)
      && (forall ty :: ty in typeIndexMap <==> ty in typeList)
      && (forall i :: 0 <= i < |typeList| ==> typeIndexMap[typeList[i]] == i)
      && (forall a :: a in visitedAttrs && a !in busy ==> AttrRegistered(typeList, a))
    }

    /** The table grows at its end, by types no larger than `bound`. */
    twostate predicate Grown(bound: nat)
      reads this
    {
      old(typeList) <= typeList &&
      forall ty :: ty in typeList && ty !in old(typeList) ==> TypeSize(ty) <= bound
    }

    /** Only attributes larger than `n` are being registered. */
    ghost predicate Above(busy: set<Attr>, n: nat) {
      forall a :: a in busy ==> AttrSize(a) > n
    }

    method GetTypeIndex(ty: Type, ghost busy: set<Attr>) returns (index: nat)
      requires Valid(busy) && Above(busy, TypeSize(ty))
      modifies this
      ensures Valid(busy) && Grown(TypeSize(ty))
      ensures index < |typeList| && typeList[index] == ty
      ensures ty in old(typeList) ==> typeList == old(typeList)
      decreases TypeSize(ty), 1
    {
      if ty in typeIndexMap {
        ghost var i :| 0 <= i < |typeList| && typeList[i] == ty;
        return typeIndexMap[ty];
      }
      RegisterDependentTypes(ty, busy);
      index := |typeList|;
      Append(ty, busy);
    }

    method Append(ty: Type, ghost busy: set<Attr>)
      requires Valid(busy) && ty !in typeList && DepsRegistered(typeList, ty)
      modifies this
      ensures Valid(busy) && typeList == old(typeList) + [ty]
    {
      typeIndexMap := typeIndexMap[ty := |typeList|];
      typeList := typeList + [ty];
      assert typeList[..|old(typeList)|] == old(typeList);
      assert forall i :: 0 <= i < |old(typeList)| ==> typeList[..i] == old(typeList)[..i];
      forall a | a in visitedAttrs && a !in busy ensures AttrRegistered(typeList, a) {
        AttrStaysRegistered(old(typeList), typeList, a);
      }
    }

    method RegisterDependentTypes(ty: Type, ghost busy: set<Attr>)
      requires Valid(busy) && Above(busy, TypeSize(ty))
      modifies this
      ensures Valid(busy) && Grown(TypeSize(ty) - 1) && DepsRegistered(typeList, ty)
      decreases TypeSize(ty), 0
    {
      match ty {
        case Builtin(_) =>
        case Func(ins, outs) =>
          RegisterTypes(ins, TypeSize(ty) - 1, busy);
          RegisterTypes(outs, TypeSize(ty) - 1, busy);
        case Parametric(_, args) =>
          RegisterArgs(args, TypeSize(ty) - 1, busy);
      }
    }

    method RegisterTypes(tys: seq<Type>, bound: nat, ghost busy: set<Attr>)
      requires Valid(busy) && Above(busy, bound) && TypesSize(tys) <= bound
      modifies this
      ensures Valid(busy) && Grown(bound) && Includes(typeList, tys)
      decreases bound, 2
    {
      hide Valid;
      for i := 0 to |tys|
        invariant Valid(busy) && Grown(bound)
        invariant forall k :: 0 <= k < i ==> tys[k] in typeList
      {
        TypeInList(tys, i);
        var _ := GetTypeIndex(tys[i], busy);
      }
    }

    method RegisterArgs(args: seq<Option<Attr>>, bound: nat, ghost busy: set<Attr>)
      requires Valid(busy) && Above(busy, bound) && ArgsSize(args) <= bound
      modifies this
      ensures Valid(busy) && Grown(bound)
      ensures forall i :: 0 <= i < |args| ==> ArgRegistered(typeList, args[i])
      decreases bound, 2
    {
      hide Valid;
      for i := 0 to |args|
        invariant Valid(busy) && Grown(bound)
        invariant forall k :: 0 <= k < i ==> ArgRegistered(typeList, args[k])
      {
        ArgInList(args, i);
        ghost var before := typeList;
        if args[i].Some? {
          RegisterDependentAttributeTypes(args[i].value, busy);
        }
        assert Includes(typeList, before);
        forall k | 0 <= k < i ensures ArgRegistered(typeList, args[k]) {
          ArgStaysRegistered(before, typeList, args[k]);
        }
      }
    }

    method RegisterDependentAttributeTypes(a: Attr, ghost busy: set<Attr>)
      requires Valid(busy) && Above(busy, AttrSize(a))
      modifies this
      ensures Valid(busy) && Grown(AttrSize(a)) && AttrRegistered(typeList, a)
      decreases AttrSize(a), 1
    {
      if a in visitedAttrs {
        return;
      }
      visitedAttrs := visitedAttrs + {a};
      ghost var inside := busy + {a};
      RegisterParts(a, inside);
    }

    method RegisterParts(a: Attr, ghost busy: set<Attr>)
      requires Valid(busy) && Above(busy, AttrSize(a) - 1)
      modifies this
      ensures Valid(busy) && Grown(AttrSize(a)) && AttrRegistered(typeList, a)
      decreases AttrSize(a), 0
    {
      hide Valid;
      match a {
        case TypeRef(ty) =>
          var _ := GetTypeIndex(ty, busy);
        case Array(elems) =>
          for i := 0 to |elems|
            invariant Valid(busy) && Grown(AttrSize(a))
            invariant forall k :: 0 <= k < i ==> AttrRegistered(typeList, elems[k])
          {
            AttrInList(elems, i);
            ghost var before := typeList;
            RegisterDependentAttributeTypes(elems[i], busy);
            assert Includes(typeList, before);
            forall k | 0 <= k < i ensures AttrRegistered(typeList, elems[k]) {
              AttrStaysRegistered(before, typeList, elems[k]);
            }
          }
        case Dict(entries) =>
          for i := 0 to |entries|
            invariant Valid(busy) && Grown(AttrSize(a))
            invariant forall k :: 0 <= k < i ==> AttrRegistered(typeList, entries[k].value)
          {
            EntryInList(entries, i);
            ghost var before := typeList;
            RegisterDependentAttributeTypes(entries[i].value, busy);
            assert Includes(typeList, before);
            forall k | 0 <= k < i ensures AttrRegistered(typeList, entries[k].value) {
              AttrStaysRegistered(before, typeList, entries[k].value);
            }
          }
        case Custom(_, params) =>
          RegisterArgs(params, AttrSize(a) - 1, busy);
        case _ =>
      }
    }
  }
}
