/**
  Types round trip at every version in both formats of optional parameters, under the
  conditions that `Safe` spells out; where a parameter is not safe, the two sides disagree
  about its bytes.
  */
module TypeRoundTrip {
  import opened Base
  import opened VarInts
  import opened Encoding
  import opened Ir
  import opened AttrCodec
  import opened AttrRoundTrip
  import opened TypeCodec

  lemma {:induction false} ReverseTwice<T>(xs: seq<T>)
    ensures Reverse(Reverse(xs)) == xs
  {
  }

  /**
    From the unified bitfield on every parameter is safe. Before it an enumeration must be
    as old as its type (a younger one writes a presence byte that the reader does not
    expect), and another optional parameter must be there if it is as old as its type (the
    reader does not ask) and absent if it is younger (the reader does not look).
    */
  predicate ArgSafe(s: TypeSchema, v: Version, p: ParamSchema, arg: Option<Attr>) {
    !p.optional || Unified(v) || (p.since != s.since && v.Before(p.since)) ||
    (if p.kind.KCase? then p.since == s.since else (arg.Some? <==> p.since == s.since))
  }

  predicate ArgReadable(env: Env, p: ParamSchema, arg: Option<Attr>) {
    env.version.AtLeast(p.since) && arg.Some? ==> Readable(env, p.kind, arg.value)
  }

  predicate ArgsSafe(s: TypeSchema, v: Version, ps: seq<ParamSchema>, args: seq<Option<Attr>>)
    requires |ps| == |args|
  {
    ps == [] || (ArgSafe(s, v, ps[0], args[0]) && ArgsSafe(s, v, ps[1..], args[1..]))
  }

  predicate ArgsReadable(env: Env, ps: seq<ParamSchema>, args: seq<Option<Attr>>)
    requires |ps| == |args|
  {
    ps == [] || (ArgReadable(env, ps[0], args[0]) && ArgsReadable(env, ps[1..], args[1..]))
  }

  /**
    What the schema analysis leaves to the definitions: parameters are not older than their
    type, and `flagsSince` is the version of an oldest optional parameter. (The analysis
    compares version strings, in which "13.10" comes before "13.3".)
    */
  predicate SchemaOk(s: TypeSchema) {
    && ParamsOk(s.params, 256)
    && |s.params| <= 64
    && (forall i :: 0 <= i < |s.params| ==> s.params[i].since.AtLeast(s.since))
    && (forall i :: 0 <= i < |s.params| && s.params[i].optional ==> s.params[i].since.AtLeast(s.flagsSince))
    && (HasOptional(s.params) ==> exists i :: 0 <= i < |s.params| && s.params[i].optional && s.params[i].since == s.flagsSince)
  }

  /** One parameter: read back, with exactly its own bytes consumed, if and only if it is safe. */
  lemma {:induction false} ArgRoundTrip(w: Env, r: Env, s: TypeSchema, p: ParamSchema, arg: Option<Attr>,
                                        bit: bool, rest: bytes)
    requires Linked(w, r) && KindOk(p.kind, 256) && w.version.AtLeast(s.since) && p.since.AtLeast(s.since)
    requires WriteArg(w, s, p, arg).Some? && ArgReadable(w, p, arg)
    requires bit == (p.optional && Unified(w.version) && arg.Some?)
    ensures ArgSafe(s, w.version, p, arg) ==> ReadArg(r, s, p, bit, WriteArg(w, s, p, arg).value + rest) == Got(arg, rest)
    ensures !ArgSafe(s, w.version, p, arg) ==> ReadArg(r, s, p, bit, WriteArg(w, s, p, arg).value + rest) != Got(arg, rest)
  {
    hide Write, Read, Readable, KindOk, Linked;
    var bs := WriteArg(w, s, p, arg).value;
    SameVersion(w, r);
    if arg.Some? && (w.version.AtLeast(p.since) || p.since == s.since) {
      RoundTrip(w, r, p.kind, arg.value, rest, 256);
      ByteFirst(1, Write(w, p.kind, arg.value).value, rest);
    }
    ByteFirst(0, [], rest);
    assert [] + rest == rest;
  }

  lemma {:induction false} SameVersion(w: Env, r: Env)
    requires Linked(w, r)
    ensures r.version == w.version
  {
  }

  lemma {:induction false} ByteFirst(b: byte, body: bytes, rest: bytes)
    ensures ([b] + body + rest)[0] == b && ([b] + body + rest)[1..] == body + rest
    ensures ([b] + rest)[0] == b && ([b] + rest)[1..] == rest
  {
    assert [b] + body + rest == [b] + (body + rest);
  }

  // ---------------------------------------------------------------- argument lists

  /** The bits the reader goes by: those of the flag word, or none in the older format. */
  function BitsFor(v: Version, ps: seq<ParamSchema>, args: seq<Option<Attr>>): (r: seq<bool>)
    requires |ps| == |args|
    ensures |r| == |ps|
  {
    seq(|ps|, i requires 0 <= i < |ps| => ps[i].optional && Unified(v) && args[i].Some?)
  }

  lemma {:induction false} ArgsRoundTrip(w: Env, r: Env, s: TypeSchema, ps: seq<ParamSchema>,
                                         args: seq<Option<Attr>>, rest: bytes)
    requires Linked(w, r) && ParamsOk(ps, 256) && w.version.AtLeast(s.since) && |args| == |ps|
    requires forall i :: 0 <= i < |ps| ==> ps[i].since.AtLeast(s.since)
    requires WriteArgs(w, s, ps, args).Some? && ArgsReadable(w, ps, args) && ArgsSafe(s, w.version, ps, args)
    ensures ReadArgs(r, s, ps, BitsFor(w.version, ps, args), WriteArgs(w, s, ps, args).value + rest) == Got(args, rest)
  {
    hide WriteArg, ReadArg, ArgReadable, ArgSafe, KindOk, Linked, Unified;
    if ps == [] {
      assert [] + rest == rest;
    } else {
      var head, tail := WriteArg(w, s, ps[0], args[0]).value, WriteArgs(w, s, ps[1..], args[1..]).value;
      Assoc(head, tail, rest);
      ArgRoundTrip(w, r, s, ps[0], args[0], BitsFor(w.version, ps, args)[0], tail + rest);
      assert forall i :: 0 <= i < |ps[1..]| ==> ps[1..][i] == ps[i + 1];
      assert BitsFor(w.version, ps, args)[1..] == BitsFor(w.version, ps[1..], args[1..]);
      ArgsRoundTrip(w, r, s, ps[1..], args[1..], rest);
      assert [args[0]] + args[1..] == args;
    }
  }

  lemma {:induction false} WrittenArg(env: Env, s: TypeSchema, ps: seq<ParamSchema>, args: seq<Option<Attr>>, i: nat)
    requires |ps| == |args| && i < |ps| && WriteArgs(env, s, ps, args).Some?
    ensures WriteArg(env, s, ps[i], args[i]).Some?
  {
    hide WriteArg;
    if i > 0 {
      WrittenArg(env, s, ps[1..], args[1..], i - 1);
    }
  }

  lemma {:induction false} OrderedHas(s: TypeSchema, i: nat)
    requires i < |s.params|
    ensures Ordered(s, s.params)[i] in s.params
  {
  }

  lemma {:induction false} NoFlagWord(env: Env, s: TypeSchema, args: seq<Option<Attr>>, i: nat)
    requires SchemaOk(s) && env.version.AtLeast(s.since) && !WritesFlags(s, env.version) && i < |s.params| == |args|
    requires WriteArgs(env, s, Ordered(s, s.params), Ordered(s, args)).Some?
    ensures !BitsFor(env.version, Ordered(s, s.params), Ordered(s, args))[i]
  {
    hide Write, KindOk;
    var ps, ordered := Ordered(s, s.params), Ordered(s, args);
    WrittenArg(env, s, ps, ordered, i);
    OrderedHas(s, i);
    var k :| 0 <= k < |s.params| && s.params[k] == ps[i];
  }

  lemma {:induction false} FlagsAlike(s: TypeSchema, v: Version)
    requires v.AtLeast(s.since)
    ensures WritesFlags(s, v) <==> ReadsFlags(s, v)
  {
  }

  lemma {:induction false} OrderedOk(s: TypeSchema)
    requires SchemaOk(s)
    ensures ParamsOk(Ordered(s, s.params), 256)
    ensures forall i :: 0 <= i < |s.params| ==> Ordered(s, s.params)[i].since.AtLeast(s.since)
    ensures HasOptional(Ordered(s, s.params)) <==> HasOptional(s.params)
  {
    var ps := Ordered(s, s.params);
    forall i | 0 <= i < |ps|
      ensures KindOk(ps[i].kind, 256) && ps[i].since.AtLeast(s.since) && (ps[i].optional ==> HasOptional(s.params))
    {
      OrderedHas(s, i);
    }
    if HasOptional(s.params) {
      var i :| 0 <= i < |s.params| && s.params[i].optional;
      assert ps[if s.reversed then |s.params| - 1 - i else i] == s.params[i];
    }
  }

  /** The bits come out of the flag word, or are all clear when there is none. */
  lemma {:induction false} BitsReadBack(env: Env, s: TypeSchema, args: seq<Option<Attr>>, rest: bytes)
    requires SchemaOk(s) && env.version.AtLeast(s.since) && |args| == |s.params| && WriteParametric(env, s, args).Some?
    ensures var ps, ordered := Ordered(s, s.params), Ordered(s, args);
            var flags := if WritesFlags(s, env.version) then VarInt(PresenceWord(ps, ordered)) else [];
            var word := if ReadsFlags(s, env.version) then ReadVarInt(flags + rest) else Got(0, flags + rest);
            word.Got? && word.rest == rest && AttrCodec.FromWord(ps, word.value) == BitsFor(env.version, ps, ordered)
  {
    hide WriteArg, Write;
    var v, ps, ordered := env.version, Ordered(s, s.params), Ordered(s, args);
    FlagsAlike(s, v);
    if WritesFlags(s, v) {
      VarIntRoundTrip(PresenceWord(ps, ordered), rest);
      PresenceRoundTrip(ps, ordered);
      assert Present(ps, ordered) == BitsFor(v, ps, ordered);
    } else {
      assert [] + rest == rest;
      forall i | 0 <= i < |ps| ensures !BitsFor(v, ps, ordered)[i] {
        NoFlagWord(env, s, args, i);
      }
      ClearWord(ps, BitsFor(v, ps, ordered));
    }
  }

  lemma {:induction false} ClearWord(ps: seq<ParamSchema>, bits: seq<bool>)
    requires |bits| == |ps| && forall i :: 0 <= i < |ps| ==> !bits[i]
    ensures AttrCodec.FromWord(ps, 0) == bits
  {
    if ps != [] {
      ClearWord(ps[1..], bits[1..]);
      assert bits == [false] + bits[1..];
    }
  }

  // ---------------------------------------------------------------- types

  predicate EnvOk(t: TypeEnv) {
    && SchemasOk(t.env.attrs)
    && (forall tag :: tag in t.builtins ==> tag < 256 && tag != FUNCTION_TAG && tag !in t.parametric)
    && (forall tag :: tag in t.parametric ==> tag < 256 && tag != FUNCTION_TAG && SchemaOk(t.parametric[tag]))
  }

  /** The types that survive: counts in range, readable arguments, safe optional parameters. */
  predicate Survives(t: TypeEnv, ty: Type) {
    match ty
    case Builtin(_) => true
    case Func(ins, outs) => |ins| <= MAX_COUNT && |outs| <= MAX_COUNT
    case Parametric(tag, args) =>
      tag in t.parametric && |args| == |t.parametric[tag].params| &&
      ArgsReadable(t.env, Ordered(t.parametric[tag], t.parametric[tag].params), Ordered(t.parametric[tag], args)) &&
      ArgsSafe(t.parametric[tag], t.env.version, Ordered(t.parametric[tag], t.parametric[tag].params),
               Ordered(t.parametric[tag], args))
  }

  predicate LinkedTypes(w: TypeEnv, r: TypeEnv) {
    KnowsMore(w.env, r.env) && w.builtins == r.builtins && w.parametric == r.parametric && EnvOk(w)
  }

  lemma {:induction false} ParametricRoundTrip(w: Env, r: Env, s: TypeSchema, tag: nat, args: seq<Option<Attr>>,
                                               rest: bytes)
    requires Linked(w, r) && SchemaOk(s) && |args| == |s.params| && WriteParametric(w, s, args).Some?
    requires ArgsReadable(w, Ordered(s, s.params), Ordered(s, args))
    requires ArgsSafe(s, w.version, Ordered(s, s.params), Ordered(s, args))
    ensures ReadParametric(r, s, tag, WriteParametric(w, s, args).value + rest) == Got(Parametric(tag, args), rest)
  {
    hide WriteArgs, ReadArgs, ArgsReadable, ArgsSafe, PresenceWord, AttrCodec.FromWord, WritesFlags, ReadsFlags,
         SchemaOk, ParamsOk, Linked;
    var ps, ordered := Ordered(s, s.params), Ordered(s, args);
    var flags := if WritesFlags(s, w.version) then VarInt(PresenceWord(ps, ordered)) else [];
    var body := WriteArgs(w, s, ps, ordered).value;
    Assoc(flags, body, rest);
    SameVersion(w, r);
    OrderedOk(s);
    BitsReadBack(w, s, args, body + rest);
    ArgsRoundTrip(w, r, s, ps, ordered, rest);
    ReverseTwice(args);
  }

  lemma {:induction false} FunctionTypeRoundTrip(w: Env, r: Env, ins: seq<Type>, outs: seq<Type>, rest: bytes)
    requires KnowsMore(w, r) && WriteFunctionType(w, ins, outs).Some? && |ins| <= MAX_COUNT && |outs| <= MAX_COUNT
    ensures ReadFunctionType(r, WriteFunctionType(w, ins, outs).value + rest) == Got(Func(ins, outs), rest)
  {
    hide WriteTypes, ReadTypes, ReadCount;
    var a, b := WriteTypes(w, ins).value, WriteTypes(w, outs).value;
    var c, d := VarInt(|ins|), VarInt(|outs|);
    assert c + (a + (d + b)) + rest == c + (a + (d + (b + rest)));
    CountRoundTrip(|ins|, a + (d + (b + rest)));
    TypesRoundTrip(w, r, ins, d + (b + rest));
    CountRoundTrip(|outs|, b + rest);
    TypesRoundTrip(w, r, outs, rest);
  }

  lemma {:induction false} TagFirst(tag: nat, data: bytes, rest: bytes)
    requires tag < 256
    ensures ReadVarInt(VarInt(tag) + data + rest) == Got(tag, data + rest) && tag % 256 == tag
  {
    Assoc(VarInt(tag), data, rest);
    VarIntRoundTrip(tag, data + rest);
  }

  /** Every type the writer accepts at a version, and that survives it, is read back. */
  lemma {:induction false} OneTypeRoundTrip(w: TypeEnv, r: TypeEnv, ty: Type, rest: bytes)
    requires LinkedTypes(w, r) && WriteType(w, ty).Some? && Survives(w, ty)
    ensures TypeCodec.ReadType(r, WriteType(w, ty).value + rest) == Got(ty, rest)
  {
    hide WriteParametric, ReadParametric, WriteFunctionType, ReadFunctionType, SchemaOk, ArgsReadable, ArgsSafe,
         Ordered, VarInt, ReadVarInt;
    match ty
    case Builtin(tag) =>
      TagFirst(tag, [], rest);
      assert VarInt(tag) + [] == VarInt(tag) && [] + rest == rest;
    case Func(ins, outs) =>
      TagFirst(FUNCTION_TAG, WriteFunctionType(w.env, ins, outs).value, rest);
      FunctionTypeRoundTrip(w.env, r.env, ins, outs, rest);
    case Parametric(tag, args) =>
      TagFirst(tag, WriteParametric(w.env, w.parametric[tag], args).value, rest);
      ParametricRoundTrip(w.env, r.env, w.parametric[tag], tag, args, rest);
  }

  // ---------------------------------------------------------------- types that do not survive

  const EARLY := Version(13, 2, 0)

  /** A file of 13.2, and a dialect type of 13.1 with one optional number. */
  function OneOptional(since: Version): TypeEnv {
    TypeEnv(Env(EARLY, [], [], [], map[]), map[],
            map[20 := TypeSchema(MIN_SUPPORTED_VERSION, false, [ParamSchema(KNum, true, since, None)], since)])
  }

  lemma {:induction false} OneArg(env: Env, s: TypeSchema, arg: Option<Attr>, written: bytes)
    requires |s.params| == 1 && !s.reversed && !WritesFlags(s, env.version) && env.version.AtLeast(s.since)
    requires WriteArg(env, s, s.params[0], arg) == Some(written)
    ensures WriteParametric(env, s, [arg]) == Some(written)
  {
    hide WriteArg, WritesFlags;
    assert s.params[1..] == [] && [arg][1..] == [];
    assert WriteArgs(env, s, [], []) == Some([]);
    assert written + [] == written && [] + written == written;
  }

  lemma {:induction false} OneOptionalBytes(since: Version)
    requires since == MIN_SUPPORTED_VERSION || since == EARLY
    ensures WriteType(OneOptional(since), Parametric(20, [None])) == Some([20])
    ensures WriteType(OneOptional(since), Parametric(20, [Some(Num(5))])) == Some([20, 5])
  {
    hide WriteParametric;
    var t := OneOptional(since);
    assert VarInt(20) == [20] && VarInt(5) == [5];
    assert t.parametric[20].params[0].optional;
    OneArg(t.env, t.parametric[20], None, []);
    OneArg(t.env, t.parametric[20], Some(Num(5)), [5]);
    assert [20] + [] == [20] && [20] + [5] == [20, 5];
  }

  lemma {:induction false} OneArgRead(env: Env, s: TypeSchema, bs: bytes, read: Parsed<Option<Attr>>)
    requires |s.params| == 1 && !s.reversed && !ReadsFlags(s, env.version) && env.version.AtLeast(s.since) && !read.Missing?
    requires ReadArg(env, s, s.params[0], false, bs) == read
    ensures ReadParametric(env, s, 20, bs) == if read.Fail? then Fail else Got(Parametric(20, [read.value]), read.rest)
  {
    hide ReadArg, ReadsFlags;
    assert s.params[1..] == [];
    ClearWord(s.params, [false]);
    if read.Got? {
      assert ReadArgs(env, s, [], [], read.rest) == Got([], read.rest);
      assert [read.value] + [] == [read.value] && [false][1..] == [];
    }
  }

  lemma {:induction false} OneOptionalRead(since: Version, bs: bytes, read: Parsed<Option<Attr>>)
    requires since == MIN_SUPPORTED_VERSION || since == EARLY
    requires var s := OneOptional(since).parametric[20]; ReadArg(OneOptional(since).env, s, s.params[0], false, bs) == read
    requires !read.Missing?
    ensures TypeCodec.ReadType(OneOptional(since), [20] + bs) ==
            if read.Fail? then Fail else Got(Parametric(20, [read.value]), read.rest)
  {
    hide ReadArg, ReadParametric, ReadVarInt;
    assert ReadVarInt([20] + bs) == Got(20, bs) by {
      assert VarInt(20) == [20];
      VarIntRoundTrip(20, bs);
    }
    OneArgRead(OneOptional(since).env, OneOptional(since).parametric[20], bs, read);
  }

  /**
    Before 13.3 the reader expects an optional parameter that is as old as its type, and does
    not look for a younger one: a missing one makes it fail or take the bytes of the next
    entry, and one that is there is lost and its bytes are left over.
    */
  lemma {:induction false} LegacyParamIsLost()
    ensures var t := OneOptional(MIN_SUPPORTED_VERSION);
            && WriteType(t, Parametric(20, [None])) == Some([20])
            && TypeCodec.ReadType(t, [20]) == Fail
            && TypeCodec.ReadType(t, [20, 7]) == Got(Parametric(20, [Some(Num(7))]), [])
    ensures var t := OneOptional(EARLY);
            && WriteType(t, Parametric(20, [Some(Num(5))])) == Some([20, 5])
            && TypeCodec.ReadType(t, [20, 5]) == Got(Parametric(20, [None]), [5])
  {
    hide WriteType, TypeCodec.ReadType;
    OneOptionalBytes(MIN_SUPPORTED_VERSION);
    OneOptionalBytes(EARLY);
    assert VarInt(7) == [7];
    VarIntRoundTrip(7, []);
    assert [7] + [] == [7] && [20] + [] == [20] && [20] + [7] == [20, 7] && [20] + [5] == [20, 5];
    OneOptionalRead(MIN_SUPPORTED_VERSION, [], Fail);
    OneOptionalRead(MIN_SUPPORTED_VERSION, [7], Got(Some(Num(7)), []));
    OneOptionalRead(EARLY, [5], Got(None, [5]));
  }
}
