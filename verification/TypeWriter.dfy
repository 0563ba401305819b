/**
  The writer of the type table as it runs. Serializing a type interns what its parameters
  refer to: strings always, types and constants only if the table does not have them yet.
  */
module TypeWriters {
  import opened Base
  import opened VarInts
  import opened Ir
  import opened AttrCodec
  import opened AttrTables
  import opened TypeCodec
  import opened TypeTables
  import TypeManagers
  import opened Streams
  import opened Interning
  import opened AttrWriters

  /** Every type and constant that the entry of this type mentions is in the tables. */
  predicate HasType(types: seq<Option<Type>>, constants: seq<bytes>, ty: Type) {
    match ty
    case Builtin(_) => true
    case Func(ins, outs) =>
      (forall i :: 0 <= i < |ins| ==> Some(ins[i]) in types) && (forall i :: 0 <= i < |outs| ==> Some(outs[i]) in types)
    case Parametric(_, args) => forall i :: 0 <= i < |args| ==> HasArg(types, constants, args[i])
  }

  // ---------------------------------------------------------------- dense elements inside types

  predicate NoElements(a: Attr)
    decreases a, 0
  {
    match a
    case Elements(_) => false
    case Array(elems) => forall i :: 0 <= i < |elems| ==> NoElements(elems[i])
    case Dict(entries) => forall i :: 0 <= i < |entries| ==> NoElements(entries[i].value)
    case Custom(_, params) => forall i :: 0 <= i < |params| ==> NoElementsInArg(params[i])
    case _ => true
  }

  predicate NoElementsInArg(arg: Option<Attr>)
    decreases arg, 0
  {
    match arg
    case None => true
    case Some(a) => NoElements(a)
  }

  predicate NoElementsInType(ty: Type) {
    ty.Parametric? ==> forall i :: 0 <= i < |ty.args| ==> NoElementsInArg(ty.args[i])
  }

  lemma {:induction false} CoveredHas(types: seq<Option<Type>>, constants: seq<bytes>, a: Attr)
    requires Covered(types, a) && NoElements(a)
    ensures Has(types, constants, a)
    decreases a, 0
  {
    match a
    case Array(elems) =>
      forall i | 0 <= i < |elems| ensures Has(types, constants, elems[i]) {
        CoveredHas(types, constants, elems[i]);
      }
    case Dict(entries) =>
      forall i | 0 <= i < |entries| ensures Has(types, constants, entries[i].value) {
        CoveredHas(types, constants, entries[i].value);
      }
    case Custom(_, params) =>
      forall i | 0 <= i < |params| ensures HasArg(types, constants, params[i]) {
        CoveredHasArg(types, constants, params[i]);
      }
    case _ =>
  }

  lemma {:induction false} CoveredHasArg(types: seq<Option<Type>>, constants: seq<bytes>, arg: Option<Attr>)
    requires CoveredArg(types, arg) && NoElementsInArg(arg)
    ensures HasArg(types, constants, arg)
    decreases arg, 0
  {
    match arg
    case None =>
    case Some(a) => CoveredHas(types, constants, a);
  }

  /** What the table has anyway: the parts of a type, if its scalar types are there and it holds no dense elements. */
  lemma {:induction false} RegisteredHas(types: seq<Type>, constants: seq<bytes>, i: nat)
    requires i < |types| && TypeManagers.InOrder(types) && TypeScalarsIn(types[..i], types[i]) && NoElementsInType(types[i])
    ensures HasType(Full(types), constants, types[i])
  {
    hide Covered, NoElementsInArg, HasArg, TypeManagers.DepsRegistered, TypeScalarsIn;
    DepsCover(types[..i], types[i]);
    assert Full(types[..i]) <= Full(types);
    match types[i]
    case Builtin(_) =>
    case Func(ins, outs) =>
      forall k | 0 <= k < |ins| ensures Some(ins[k]) in Full(types) {
        assert Some(ins[k]) in Full(types[..i]);
      }
      forall k | 0 <= k < |outs| ensures Some(outs[k]) in Full(types) {
        assert Some(outs[k]) in Full(types[..i]);
      }
    case Parametric(_, args) =>
      forall k | 0 <= k < |args| ensures HasArg(Full(types), constants, args[k]) {
        CoveredHasArg(Full(types[..i]), constants, args[k]);
        HasMore(Full(types[..i]), Full(types), constants, args[k]);
      }
  }

  lemma {:induction false} HasMore(types: seq<Option<Type>>, more: seq<Option<Type>>, constants: seq<bytes>, arg: Option<Attr>)
    requires types <= more && HasArg(types, constants, arg)
    ensures HasArg(more, constants, arg)
    decreases arg, 0
  {
    match arg
    case None =>
    case Some(a) => AttrHasMore(types, more, constants, a);
  }

  lemma {:induction false} AttrHasMore(types: seq<Option<Type>>, more: seq<Option<Type>>, constants: seq<bytes>, a: Attr)
    requires types <= more && Has(types, constants, a)
    ensures Has(more, constants, a)
    decreases a, 0
  {
    match a
    case Array(elems) =>
      forall i | 0 <= i < |elems| ensures Has(more, constants, elems[i]) {
        AttrHasMore(types, more, constants, elems[i]);
      }
    case Dict(entries) =>
      forall i | 0 <= i < |entries| ensures Has(more, constants, entries[i].value) {
        AttrHasMore(types, more, constants, entries[i].value);
      }
    case Custom(_, params) =>
      forall i | 0 <= i < |params| ensures HasArg(more, constants, params[i]) {
        HasMore(types, more, constants, params[i]);
      }
    case _ =>
  }

  // ---------------------------------------------------------------- growing tables

  lemma {:induction false} ArgGrown(e1: Env, e2: Env, s: TypeSchema, p: ParamSchema, arg: Option<Attr>)
    requires Continues(e1, e2) && WriteArg(e1, s, p, arg).Some?
    ensures WriteArg(e2, s, p, arg) == WriteArg(e1, s, p, arg)
  {
    hide Write, Covered;
    if arg.Some? && Write(e1, p.kind, arg.value).Some? {
      WriteStable(e1, e2, p.kind, arg.value);
    }
  }

  lemma {:induction false} ArgsGrown(e1: Env, e2: Env, s: TypeSchema, ps: seq<ParamSchema>, args: seq<Option<Attr>>)
    requires |args| == |ps| && Continues(e1, e2) && WriteArgs(e1, s, ps, args).Some?
    ensures WriteArgs(e2, s, ps, args) == WriteArgs(e1, s, ps, args)
  {
    hide WriteArg;
    if ps != [] {
      ArgGrown(e1, e2, s, ps[0], args[0]);
      ArgsGrown(e1, e2, s, ps[1..], args[1..]);
    }
  }

  /** An entry once written is what later tables give as well. */
  lemma {:induction false} TypeGrown(t1: TypeEnv, t2: TypeEnv, ty: Type)
    requires Continues(t1.env, t2.env) && t2 == t1.(env := t2.env) && WriteType(t1, ty).Some?
    ensures WriteType(t2, ty) == WriteType(t1, ty)
  {
    hide WriteTypes, WriteArgs, PresenceWord, WritesFlags, Count;
    match ty
    case Builtin(_) =>
    case Func(ins, outs) =>
      TypesStable(t1.env, t2.env, ins);
      TypesStable(t1.env, t2.env, outs);
    case Parametric(tag, args) =>
      var s := t1.parametric[tag];
      ArgsGrown(t1.env, t2.env, s, Ordered(s, s.params), Ordered(s, args));
  }

  lemma {:induction false} OneMoreArg(e: Env, s: TypeSchema, ps: seq<ParamSchema>, args: seq<Option<Attr>>, i: nat)
    requires |args| == |ps| && i < |ps|
    ensures WriteArgs(e, s, ps[..i + 1], args[..i + 1]) ==
            Joined(WriteArgs(e, s, ps[..i], args[..i]), WriteArg(e, s, ps[i], args[i]))
    ensures WriteArg(e, s, ps[i], args[i]).None? ==> WriteArgs(e, s, ps, args).None?
    decreases |ps|
  {
    hide WriteArg;
    var head := WriteArg(e, s, ps[0], args[0]);
    if i == 0 {
      OnlyFirst(ps);
      OnlyFirst(args);
      JoinedNothing(head);
    } else {
      Shifted(ps, i);
      Shifted(args, i);
      OneMoreArg(e, s, ps[1..], args[1..], i - 1);
      JoinedAssoc(head, WriteArgs(e, s, ps[1..][..i - 1], args[1..][..i - 1]), WriteArg(e, s, ps[i], args[i]));
    }
  }

  // ---------------------------------------------------------------- one entry

  method WriteOneArg(m: Managers, s: TypeSchema, p: ParamSchema, arg: Option<Attr>, writer: EncodingWriter)
    returns (ok: bool)
    requires m.Valid()
    modifies m.Repr(), writer`stream
    ensures m.Valid() && (HasArg(old(m.Now()).types, old(m.Now()).constants, arg) ==> Quiet(old(m.Now()), m.Now()))
    ensures Wrote(old(m.Now()), m.Now(), ok, old(writer.stream), writer.stream, WriteArg(m.Now(), s, p, arg))
    ensures !ok ==> forall e :: Continues(m.Now(), e) ==> WriteArg(e, s, p, arg).None?
  {
    hide Managers.Valid, Write, Wrote, Continues, Quiet, Has;
    ghost var before := writer.stream;
    NothingWrote(m.Now(), before, before);
    NothingNeeded(m.Now(), before);
    VersionNow(m);
    if p.since != s.since && m.version.Before(p.since) {
      ok := arg == if p.optional then None else p.fallback;
    } else if p.optional && p.kind.KCase? && !Unified(m.version) {
      if arg.None? {
        ok := WritePlain(m, Some([0]), writer);
        return ok;
      }
      writer.WriteBytes([1]);
      ok := WriteAttribute(m, p.kind, arg.value, writer);
      VersionNow(m);
      WroteBehind(old(m.Now()), m.Now(), ok, before, [1], writer.stream, Write(m.Now(), p.kind, arg.value));
    } else if arg.None? {
      ok := p.optional;
    } else {
      ok := WriteAttribute(m, p.kind, arg.value, writer);
      VersionNow(m);
    }
  }

  method WriteTypeArgs(m: Managers, s: TypeSchema, ps: seq<ParamSchema>, args: seq<Option<Attr>>, writer: EncodingWriter)
    returns (ok: bool)
    requires m.Valid() && |args| == |ps|
    modifies m.Repr(), writer`stream
    ensures m.Valid()
    ensures (forall i :: 0 <= i < |args| ==> HasArg(old(m.Now()).types, old(m.Now()).constants, args[i])) ==>
              Quiet(old(m.Now()), m.Now())
    ensures Wrote(old(m.Now()), m.Now(), ok, old(writer.stream), writer.stream, WriteArgs(m.Now(), s, ps, args))
    ensures !ok ==> forall e :: Continues(m.Now(), e) ==> WriteArgs(e, s, ps, args).None?
  {
    hide Managers.Valid, Managers.Now, WriteArg, WriteArgs, HasArg;
    ghost var done: bytes := [];
    NoArgs(m.Now(), s, ps, args);
    for i := 0 to |ps|
      invariant m.Valid() && Continues(old(m.Now()), m.Now())
      invariant (forall k :: 0 <= k < |args| ==> HasArg(old(m.Now()).types, old(m.Now()).constants, args[k])) ==>
                  Quiet(old(m.Now()), m.Now())
      invariant WriteArgs(m.Now(), s, ps[..i], args[..i]) == Some(done) && writer.stream == old(writer.stream) + done
    {
      ghost var e := m.Now();
      ok := WriteOneArg(m, s, ps[i], args[i], writer);
      OneMoreArg(m.Now(), s, ps, args, i);
      if !ok {
        forall later | Continues(m.Now(), later) ensures WriteArgs(later, s, ps, args).None? {
          OneMoreArg(later, s, ps, args, i);
        }
        return false;
      }
      ArgsGrown(e, m.Now(), s, ps[..i], args[..i]);
      done := done + WriteArg(m.Now(), s, ps[i], args[i]).value;
    }
    assert ps[..|ps|] == ps && args[..|ps|] == args;
    ok := true;
  }

  lemma {:induction false} NoArgs(e: Env, s: TypeSchema, ps: seq<ParamSchema>, args: seq<Option<Attr>>)
    requires |args| == |ps|
    ensures WriteArgs(e, s, ps[..0], args[..0]) == Some([])
  {
  }

  method WriteParametricType(m: Managers, s: TypeSchema, args: seq<Option<Attr>>, writer: EncodingWriter) returns (ok: bool)
    requires m.Valid()
    modifies m.Repr(), writer`stream
    ensures m.Valid()
    ensures (forall i :: 0 <= i < |args| ==> HasArg(old(m.Now()).types, old(m.Now()).constants, args[i])) ==>
              Quiet(old(m.Now()), m.Now())
    ensures Wrote(old(m.Now()), m.Now(), ok, old(writer.stream), writer.stream, WriteParametric(m.Now(), s, args))
    ensures !ok ==> forall e :: Continues(m.Now(), e) ==> WriteParametric(e, s, args).None?
  {
    hide Managers.Valid, WriteArgs, HasArg, PresenceWord, WritesFlags, VarInt, Wrote, Continues, Quiet, Full;
    ghost var before := writer.stream;
    NothingWrote(m.Now(), before, before);
    VersionNow(m);
    if |args| != |s.params| || m.version.Before(s.since) {
      return false;
    }
    var ps, ordered := Ordered(s, s.params), Ordered(s, args);
    assert forall i :: 0 <= i < |args| ==> ordered[i] in args;
    var flags := if WritesFlags(s, m.version) then Count(PresenceWord(ps, ordered)) else Some([]);
    if flags.None? {
      return false;
    }
    writer.WriteBytes(flags.value);
    ok := WriteTypeArgs(m, s, ps, ordered, writer);
    VersionNow(m);
    WroteBehind(old(m.Now()), m.Now(), ok, before, flags.value, writer.stream, WriteArgs(m.Now(), s, ps, ordered));
  }

  method WriteSignature(m: Managers, ins: seq<Type>, outs: seq<Type>, writer: EncodingWriter) returns (ok: bool)
    requires m.Valid()
    modifies m.Repr(), writer`stream
    ensures m.Valid()
    ensures HasType(old(m.Now()).types, old(m.Now()).constants, Func(ins, outs)) ==> Quiet(old(m.Now()), m.Now())
    ensures Wrote(old(m.Now()), m.Now(), ok, old(writer.stream), writer.stream, WriteFunctionType(m.Now(), ins, outs))
    ensures !ok ==> forall e :: Continues(m.Now(), e) ==> WriteFunctionType(e, ins, outs).None?
  {
    hide Managers.Valid, Managers.Now, WriteTypes, VarInt;
    ok := WriteTypeList(m, ins, writer);
    if !ok {
      return false;
    }
    ghost var e := m.Now();
    ok := WriteTypeList(m, outs, writer);
    TypesStable(e, m.Now(), ins);
    if ok {
      Assoc(VarInt(|ins|), WriteTypes(e, ins).value, VarInt(|outs|) + WriteTypes(m.Now(), outs).value);
    }
  }

  /** Tag and data of one type. */
  method SerializeType(m: Managers, builtins: map<nat, Version>, parametric: map<nat, TypeSchema>, ty: Type,
                       writer: EncodingWriter) returns (ok: bool)
    requires m.Valid()
    modifies m.Repr(), writer`stream
    ensures m.Valid() && (HasType(old(m.Now()).types, old(m.Now()).constants, ty) ==> Quiet(old(m.Now()), m.Now()))
    ensures Wrote(old(m.Now()), m.Now(), ok, old(writer.stream), writer.stream,
                  WriteType(TypeEnv(m.Now(), builtins, parametric), ty))
    ensures !ok ==> forall e :: Continues(m.Now(), e) ==> WriteType(TypeEnv(e, builtins, parametric), ty).None?
  {
    hide Managers.Valid, WriteFunctionType, WriteParametric, HasArg, VarInt, Wrote, Continues, Quiet;
    ghost var before := writer.stream;
    NothingWrote(m.Now(), before, before);
    match ty {
      case Builtin(tag) =>
        VersionNow(m);
        var known := tag in builtins && m.version.AtLeast(builtins[tag]);
        ok := WritePlain(m, if known then Count(tag) else None, writer);
      case Func(ins, outs) =>
        writer.WriteVarInt(FUNCTION_TAG);
        ok := WriteSignature(m, ins, outs, writer);
        WroteBehind(old(m.Now()), m.Now(), ok, before, VarInt(FUNCTION_TAG), writer.stream,
                    WriteFunctionType(m.Now(), ins, outs));
      case Parametric(tag, args) =>
        if tag !in parametric || tag >= TWO_TO_THE_64 {
          return false;
        }
        writer.WriteVarInt(tag);
        ok := WriteParametricType(m, parametric[tag], args, writer);
        WroteBehind(old(m.Now()), m.Now(), ok, before, VarInt(tag), writer.stream,
                    WriteParametric(m.Now(), parametric[tag], args));
    }
  }
}
