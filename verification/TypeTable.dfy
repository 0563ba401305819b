/**
  The type table from writer to reader: serialization refers to earlier entries only and
  registers nothing new, and the lazy table of the reader gets every type back.
  */
module TypeTables {
  import opened Base
  import opened VarInts
  import opened Ir
  import opened AttrCodec
  import opened AttrTables
  import opened AttrRoundTrip
  import opened TypeCodec
  import opened TypeRoundTrip
  import opened TypeManagers
  import opened LazyTables

  lemma {:induction false} InFull(types: seq<Type>, ty: Type)
    ensures Some(ty) in Full(types) <==> ty in types
  {
    if ty in types {
      var i :| 0 <= i < |types| && types[i] == ty;
      assert Full(types)[i] == Some(ty);
    }
  }

  // ---------------------------------------------------------------- what registration leaves out

  /** The types of integers and floats inside an attribute are in the table. */
  predicate ScalarsIn(types: seq<Type>, a: Attr)
    decreases a, 0
  {
    match a
    case Int(ty, _) => ty in types
    case Float(ty, _) => ty in types
    case Array(elems) => forall i :: 0 <= i < |elems| ==> ScalarsIn(types, elems[i])
    case Dict(entries) => forall i :: 0 <= i < |entries| ==> ScalarsIn(types, entries[i].value)
    case Custom(_, params) => forall i :: 0 <= i < |params| ==> ArgScalarsIn(types, params[i])
    case _ => true
  }

  predicate ArgScalarsIn(types: seq<Type>, arg: Option<Attr>)
    decreases arg, 0
  {
    match arg
    case None => true
    case Some(a) => ScalarsIn(types, a)
  }

  /** Registration covers an attribute exactly when the types of its scalars are there anyway. */
  lemma {:induction false} RegisteredCovers(types: seq<Type>, a: Attr)
    ensures Covered(Full(types), a) <==> AttrRegistered(types, a) && ScalarsIn(types, a)
    decreases a, 0
  {
    hide Full;
    match a
    case Int(ty, _) => InFull(types, ty);
    case Float(ty, _) => InFull(types, ty);
    case TypeRef(ty) => InFull(types, ty);
    case Array(elems) =>
      forall i | 0 <= i < |elems|
        ensures Covered(Full(types), elems[i]) <==> AttrRegistered(types, elems[i]) && ScalarsIn(types, elems[i])
      {
        RegisteredCovers(types, elems[i]);
      }
    case Dict(entries) =>
      forall i | 0 <= i < |entries|
        ensures Covered(Full(types), entries[i].value) <==>
                AttrRegistered(types, entries[i].value) && ScalarsIn(types, entries[i].value)
      {
        RegisteredCovers(types, entries[i].value);
      }
    case Custom(_, params) =>
      forall i | 0 <= i < |params|
        ensures CoveredArg(Full(types), params[i]) <==> ArgRegistered(types, params[i]) && ArgScalarsIn(types, params[i])
      {
        RegisteredCoversArg(types, params[i]);
      }
    case _ =>
  }

  lemma {:induction false} RegisteredCoversArg(types: seq<Type>, arg: Option<Attr>)
    ensures CoveredArg(Full(types), arg) <==> ArgRegistered(types, arg) && ArgScalarsIn(types, arg)
    decreases arg, 0
  {
    match arg
    case None =>
    case Some(a) => RegisteredCovers(types, a);
  }

  /** An integer parameter registers nothing, although its encoding contains the index of its type. */
  lemma {:induction false} ScalarIsNotRegistered(env: Env, value: nat)
    requires env.types == []
    ensures DepsRegistered([], Parametric(0, [Some(Int(I1, value))])) && WriteTagged(env, Int(I1, value)).None?
  {
  }

  predicate CoveredType(types: seq<Option<Type>>, ty: Type) {
    match ty
    case Builtin(_) => true
    case Func(ins, outs) => (forall t :: t in ins ==> Some(t) in types) && (forall t :: t in outs ==> Some(t) in types)
    case Parametric(_, args) => forall i :: 0 <= i < |args| ==> CoveredArg(types, args[i])
  }

  predicate TypeScalarsIn(types: seq<Type>, ty: Type) {
    ty.Parametric? ==> forall i :: 0 <= i < |ty.args| ==> ArgScalarsIn(types, ty.args[i])
  }

  lemma {:induction false} DepsCover(types: seq<Type>, ty: Type)
    requires DepsRegistered(types, ty) && TypeScalarsIn(types, ty)
    ensures CoveredType(Full(types), ty)
  {
    hide Full;
    match ty
    case Builtin(_) =>
    case Func(ins, outs) =>
      forall t | t in ins || t in outs ensures Some(t) in Full(types) {
        InFull(types, t);
      }
    case Parametric(_, args) =>
      forall i | 0 <= i < |args| ensures CoveredArg(Full(types), args[i]) {
        RegisteredCoversArg(types, args[i]);
      }
  }

  // ---------------------------------------------------------------- serialization settles nothing new

  lemma {:induction false} WriteTypesStable(e1: Env, e2: Env, tys: seq<Type>)
    requires MoreTypes(e1, e2) && forall t :: t in tys ==> Some(t) in e1.types
    ensures WriteTypes(e2, tys) == WriteTypes(e1, tys)
  {
    if tys != [] {
      TypeSettled(e1, e2, tys[0]);
      WriteTypesStable(e1, e2, tys[1..]);
    }
  }

  lemma {:induction false} WriteArgsStable(e1: Env, e2: Env, s: TypeSchema, ps: seq<ParamSchema>, args: seq<Option<Attr>>)
    requires MoreTypes(e1, e2) && |ps| == |args| && forall i :: 0 <= i < |args| ==> CoveredArg(e1.types, args[i])
    ensures WriteArgs(e2, s, ps, args) == WriteArgs(e1, s, ps, args)
  {
    hide Write;
    if ps != [] {
      if args[0].Some? {
        WriteStable(e1, e2, ps[0].kind, args[0].value);
      }
      WriteArgsStable(e1, e2, s, ps[1..], args[1..]);
    }
  }

  /** An entry written with the table up to itself is the entry written with the whole table. */
  lemma {:induction false} WriteTypeStable(t1: TypeEnv, t2: TypeEnv, ty: Type)
    requires MoreTypes(t1.env, t2.env) && t2 == t1.(env := t2.env) && CoveredType(t1.env.types, ty)
    ensures WriteType(t2, ty) == WriteType(t1, ty)
  {
    hide WriteTypes, WriteArgs, CoveredArg, PresenceWord, WritesFlags;
    match ty
    case Builtin(_) =>
    case Func(ins, outs) =>
      WriteTypesStable(t1.env, t2.env, ins);
      WriteTypesStable(t1.env, t2.env, outs);
    case Parametric(tag, args) =>
      if tag in t1.parametric && |args| == |t1.parametric[tag].params| {
        var s := t1.parametric[tag];
        assert forall i :: 0 <= i < |args| ==> Ordered(s, args)[i] in args;
        WriteArgsStable(t1.env, t2.env, s, Ordered(s, s.params), Ordered(s, args));
      }
  }

  // ---------------------------------------------------------------- the reader's parser

  function ToStep(r: Parsed<Type>): Step<Type> {
    match r
    case Fail => Failed
    case Missing(index) => Needs(index)
    case Got(ty, _) => Done(ty)
  }

  function With(t: TypeEnv, table: seq<Option<Type>>): TypeEnv {
    t.(env := t.env.(types := table))
  }

  /** Entries whose offsets are out of order have no bytes. Bytes behind the type are ignored. */
  function ParseEntry(t: TypeEnv, entries: seq<Option<bytes>>, i: nat, table: seq<Option<Type>>): Step<Type> {
    if i < |entries| && entries[i].Some? then ToStep(TypeCodec.ReadType(With(t, table), entries[i].value)) else Failed
  }

  function TypeParser(t: TypeEnv, entries: seq<Option<bytes>>): Parser<Type> {
    (i: nat, table) => ParseEntry(t, entries, i, table)
  }

  lemma {:induction false} ReadTypesAgain(e1: Env, e2: Env, count: nat, bs: bytes)
    requires SameFile(e1, e2)
    ensures SameUnlessFound(e1, e2, ReadTypes(e1, count, bs), ReadTypes(e2, count, bs))
    decreases count
  {
    hide AttrCodec.ReadType;
    if count > 0 {
      ReadTypeAgain(e1, e2, bs);
      var head := AttrCodec.ReadType(bs, e1.types);
      if head.Got? {
        ReadTypesAgain(e1, e2, count - 1, head.rest);
      }
    }
  }

  lemma {:induction false} ReadArgAgain(e1: Env, e2: Env, s: TypeSchema, p: ParamSchema, bit: bool, bs: bytes)
    requires SameFile(e1, e2)
    ensures SameUnlessFound(e1, e2, ReadArg(e1, s, p, bit, bs), ReadArg(e2, s, p, bit, bs))
  {
    hide Read;
    ReadAgain(e1, e2, p.kind, bs, 256);
    if bs != [] {
      ReadAgain(e1, e2, p.kind, bs[1..], 256);
    }
  }

  lemma {:induction false} ReadArgsAgain(e1: Env, e2: Env, s: TypeSchema, ps: seq<ParamSchema>, bits: seq<bool>, bs: bytes)
    requires SameFile(e1, e2) && |bits| == |ps|
    ensures SameUnlessFound(e1, e2, ReadArgs(e1, s, ps, bits, bs), ReadArgs(e2, s, ps, bits, bs))
    decreases |ps|
  {
    hide ReadArg;
    if ps != [] {
      ReadArgAgain(e1, e2, s, ps[0], bits[0], bs);
      var head := ReadArg(e1, s, ps[0], bits[0], bs);
      if head.Got? {
        ReadArgsAgain(e1, e2, s, ps[1..], bits[1..], head.rest);
      }
    }
  }

  lemma {:induction false} ReadFunctionTypeAgain(e1: Env, e2: Env, bs: bytes)
    requires SameFile(e1, e2)
    ensures SameUnlessFound(e1, e2, ReadFunctionType(e1, bs), ReadFunctionType(e2, bs))
  {
    hide ReadTypes, ReadCount;
    var inCount := ReadCount(bs);
    if inCount.Got? {
      ReadTypesAgain(e1, e2, inCount.value, inCount.rest);
      var ins := ReadTypes(e1, inCount.value, inCount.rest);
      if ins.Got? && ReadCount(ins.rest).Got? {
        ReadTypesAgain(e1, e2, ReadCount(ins.rest).value, ReadCount(ins.rest).rest);
      }
    }
  }

  lemma {:induction false} ReadEntryAgain(t: TypeEnv, table1: seq<Option<Type>>, table2: seq<Option<Type>>, bs: bytes)
    requires Below(table1, table2)
    ensures SameUnlessFound(With(t, table1).env, With(t, table2).env, TypeCodec.ReadType(With(t, table1), bs),
                            TypeCodec.ReadType(With(t, table2), bs))
  {
    hide ReadFunctionType, ReadArgs, AttrCodec.FromWord, Ordered, ReadsFlags;
    var e1, e2 := With(t, table1).env, With(t, table2).env;
    var raw := ReadVarInt(bs);
    if raw.Got? {
      var tag := raw.value % 256;
      ReadFunctionTypeAgain(e1, e2, raw.rest);
      if tag in t.parametric {
        var s := t.parametric[tag];
        var word := if ReadsFlags(s, e1.version) then ReadVarInt(raw.rest) else Got(0, raw.rest);
        if word.Got? {
          ReadArgsAgain(e1, e2, s, Ordered(s, s.params), AttrCodec.FromWord(Ordered(s, s.params), word.value), word.rest);
        }
      }
    }
  }

  /** Type parsers read from front to back: the lazy table is right about them. */
  lemma {:induction false} TypeParserIsSequential(t: TypeEnv, entries: seq<Option<bytes>>)
    ensures Sequential(|entries|, TypeParser(t, entries))
  {
    hide TypeCodec.ReadType;
    var parse := TypeParser(t, entries);
    forall i: nat, t1: seq<Option<Type>>, t2: seq<Option<Type>> {:trigger parse(i, t1), parse(i, t2)}
      | i < |entries| && |t1| == |entries| && Below(t1, t2)
      ensures Resumes(t1, t2, parse(i, t1), parse(i, t2))
    {
      if entries[i].Some? {
        ReadEntryAgain(t, t1, t2, entries[i].value);
      }
    }
  }

  // ---------------------------------------------------------------- round trip

  /** The entries of the table, each written with all types known. */
  predicate WrittenAs(t: TypeEnv, types: seq<Type>, entries: seq<Option<bytes>>) {
    |entries| == |types| && forall i :: 0 <= i < |types| ==> entries[i].Some? && WriteType(With(t, Full(types)), types[i]) == entries[i]
  }

  /** Every type survives the version, and refers to earlier scalar types only. */
  predicate TypesKept(t: TypeEnv, types: seq<Type>) {
    forall i :: 0 <= i < |types| ==> Survives(t, types[i]) && TypeScalarsIn(types[..i], types[i])
  }

  lemma {:induction false} EntryReadBack(t: TypeEnv, types: seq<Type>, entries: seq<Option<bytes>>, i: nat,
                                         table: seq<Option<Type>>)
    requires TypeRoundTrip.EnvOk(t) && WrittenAs(t, types, entries) && InOrder(types) && TypesKept(t, types) && i < |types|
    requires |table| == |types| && forall j :: 0 <= j < i ==> table[j] == Some(types[j])
    ensures ParseEntry(t, entries, i, table) == Done(types[i])
  {
    hide WriteType, TypeCodec.ReadType, Survives, SchemaOk;
    var before := With(t, Full(types[..i]));
    DepsCover(types[..i], types[i]);
    assert Full(types[..i]) <= Full(types);
    WriteTypeStable(before, With(t, Full(types)), types[i]);
    SurvivesAnyTable(t, types[i], Full(types[..i]));
    assert KnowsMore(before.env, With(t, table).env);
    OneTypeRoundTrip(before, With(t, table), types[i], []);
    assert entries[i].value + [] == entries[i].value;
  }

  lemma {:induction false} ArgsReadableAnyTable(env: Env, table: seq<Option<Type>>, ps: seq<ParamSchema>,
                                                args: seq<Option<Attr>>)
    requires |ps| == |args| && ArgsReadable(env, ps, args)
    ensures ArgsReadable(env.(types := table), ps, args)
  {
    hide Readable;
    if ps != [] {
      if args[0].Some? {
        ReadableAnyTable(env, table, ps[0].kind, args[0].value);
      }
      ArgsReadableAnyTable(env, table, ps[1..], args[1..]);
    }
  }

  lemma {:induction false} SurvivesAnyTable(t: TypeEnv, ty: Type, table: seq<Option<Type>>)
    requires Survives(t, ty)
    ensures Survives(With(t, table), ty)
  {
    if ty.Parametric? {
      var s := t.parametric[ty.tag];
      ArgsReadableAnyTable(t.env, table, Ordered(s, s.params), Ordered(s, ty.args));
    }
  }

  /** What the reader accepts of an attribute does not depend on the type table. */
  lemma {:induction false} ReadableAnyTable(env: Env, table: seq<Option<Type>>, kind: Kind, a: Attr)
    ensures Readable(env, kind, a) == Readable(env.(types := table), kind, a)
    decreases a, 1
  {
    hide ReadableTagged;
    TaggedAnyTable(env, table, a);
  }

  lemma {:induction false} TaggedAnyTable(env: Env, table: seq<Option<Type>>, a: Attr)
    ensures ReadableTagged(env, a) == ReadableTagged(env.(types := table), a)
    decreases a, 0
  {
    match a
    case Array(elems) => ElemsAnyTable(env, table, elems);
    case Dict(entries) => EntriesAnyTable(env, table, entries);
    case Custom(tag, params) =>
      if tag in env.attrs && |params| == |env.attrs[tag].params| {
        ParamsAnyTable(env, table, env.attrs[tag].params, params);
      }
    case _ =>
  }

  lemma {:induction false} ElemsAnyTable(env: Env, table: seq<Option<Type>>, elems: seq<Attr>)
    ensures ReadableElems(env, elems) == ReadableElems(env.(types := table), elems)
    decreases elems, 0
  {
    if elems != [] {
      TaggedAnyTable(env, table, elems[0]);
      ElemsAnyTable(env, table, elems[1..]);
    }
  }

  lemma {:induction false} EntriesAnyTable(env: Env, table: seq<Option<Type>>, entries: seq<Entry>)
    ensures ReadableEntries(env, entries) == ReadableEntries(env.(types := table), entries)
    decreases entries, 0
  {
    if entries != [] {
      TaggedAnyTable(env, table, entries[0].value);
      EntriesAnyTable(env, table, entries[1..]);
    }
  }

  lemma {:induction false} ParamsAnyTable(env: Env, table: seq<Option<Type>>, ps: seq<ParamSchema>,
                                          params: seq<Option<Attr>>)
    requires |ps| == |params|
    ensures ReadableParams(env, ps, params) == ReadableParams(env.(types := table), ps, params)
    decreases params, 0
  {
    if ps != [] {
      ParamAnyTable(env, table, ps[0].kind, params[0]);
      ParamsAnyTable(env, table, ps[1..], params[1..]);
    }
  }

  lemma {:induction false} ParamAnyTable(env: Env, table: seq<Option<Type>>, kind: Kind, param: Option<Attr>)
    ensures ReadableParam(env, kind, param) == ReadableParam(env.(types := table), kind, param)
    decreases param, 0
  {
    match param
    case None =>
    case Some(a) => ReadableAnyTable(env, table, kind, a);
  }

  /**
    The whole table comes back: the reader's lookups, in any order and with any cache, return
    the types the writer registered. (`InOrder` is what registration keeps.)
    */
  lemma {:induction false} TypeTableRoundTrip(t: TypeEnv, types: seq<Type>, entries: seq<Option<bytes>>)
    requires TypeRoundTrip.EnvOk(t) && WrittenAs(t, types, entries) && InOrder(types) && TypesKept(t, types)
    ensures Sequential(|entries|, TypeParser(t, entries))
    ensures Decoded(|entries|, TypeParser(t, entries)) == Full(types)
  {
    hide WrittenAs, InOrder, TypesKept, Round, Sequential, Full, TypeRoundTrip.EnvOk;
    TypeParserIsSequential(t, entries);
    assert |entries| == |types| by { EntriesCount(t, types, entries); }
    var n, parse := |types|, TypeParser(t, entries);
    forall i: nat, table: seq<Option<Type>> {:trigger parse(i, table)}
      | i < n && |table| == n && (forall j :: 0 <= j < i ==> table[j] == Some(types[j]))
      ensures parse(i, table) == Done(types[i])
    {
      EntryReadBack(t, types, entries, i, table);
    }
    OrderedTableDecodes(n, parse, types, n);
    FullIs(types, Decoded(n, parse));
  }

  lemma {:induction false} EntriesCount(t: TypeEnv, types: seq<Type>, entries: seq<Option<bytes>>)
    requires WrittenAs(t, types, entries)
    ensures |entries| == |types|
  {
  }

  lemma {:induction false} FullIs(types: seq<Type>, table: seq<Option<Type>>)
    requires |table| == |types| && forall i :: 0 <= i < |types| ==> table[i] == Some(types[i])
    ensures table == Full(types)
  {
  }
}
