/**
  Types in the type table. Optional parameters have two formats: before the unified
  bitfield an enumeration is preceded by a presence byte, from then on one word holds a bit
  for every optional parameter.
  */
module TypeCodec {
  import opened Base
  import opened VarInts
  import opened Ir
  import opened AttrCodec

  const FUNCTION_TAG := 16

  /** The tables, the version of every built-in type, and the schema of every dialect type. */
  datatype TypeEnv = TypeEnv(env: Env, builtins: map<nat, Version>, parametric: map<nat, TypeSchema>)

  predicate Unified(v: Version) {
    v.AtLeast(UNIFIED_BITFIELD_VERSION)
  }

  function Reverse<T>(xs: seq<T>): (r: seq<T>)
    ensures |r| == |xs|
  {
    seq(|xs|, i requires 0 <= i < |xs| => xs[|xs| - 1 - i])
  }

  /** The order on the wire; applied twice it gives the declared order back. */
  function Ordered<T>(s: TypeSchema, xs: seq<T>): (r: seq<T>)
    ensures |r| == |xs|
  {
    if s.reversed then Reverse(xs) else xs
  }

  // ---------------------------------------------------------------- writing

  predicate WritesFlags(s: TypeSchema, v: Version) {
    HasOptional(s.params) && (s.flagsSince == s.since || v.AtLeast(s.flagsSince)) && (Unified(s.since) || Unified(v))
  }

  function WriteArg(env: Env, s: TypeSchema, p: ParamSchema, arg: Option<Attr>): Option<bytes> {
    if p.since != s.since && env.version.Before(p.since) then
      if arg == (if p.optional then None else p.fallback) then Some([]) else None
    else if p.optional && p.kind.KCase? && !Unified(env.version) then
      if arg.None? then Some([0])
      else
        var body :- Write(env, p.kind, arg.value);
        Some([1] + body)
    else if p.optional && arg.None? then Some([])
    else if arg.None? then None
    else Write(env, p.kind, arg.value)
  }

  function WriteArgs(env: Env, s: TypeSchema, ps: seq<ParamSchema>, args: seq<Option<Attr>>): Option<bytes>
    requires |args| == |ps|
  {
    if ps == [] then Some([])
    else
      var head :- WriteArg(env, s, ps[0], args[0]);
      var tail :- WriteArgs(env, s, ps[1..], args[1..]);
      Some(head + tail)
  }

  function WriteParametric(env: Env, s: TypeSchema, args: seq<Option<Attr>>): Option<bytes> {
    if |args| != |s.params| || env.version.Before(s.since) then None else
    var ps, ordered := Ordered(s, s.params), Ordered(s, args);
    var flags :- if WritesFlags(s, env.version) then Count(PresenceWord(ps, ordered)) else Some([]);
    var body :- WriteArgs(env, s, ps, ordered);
    Some(flags + body)
  }

  function WriteFunctionType(env: Env, ins: seq<Type>, outs: seq<Type>): Option<bytes> {
    var inCount :- Count(|ins|);
    var inTypes :- WriteTypes(env, ins);
    var outCount :- Count(|outs|);
    var outTypes :- WriteTypes(env, outs);
    Some(inCount + (inTypes + (outCount + outTypes)))
  }

  /** One entry of the type table: tag and type-specific data. */
  function WriteType(t: TypeEnv, ty: Type): Option<bytes> {
    match ty
    case Builtin(tag) =>
      if tag in t.builtins && t.env.version.AtLeast(t.builtins[tag]) then Count(tag) else None
    case Func(ins, outs) =>
      var data :- WriteFunctionType(t.env, ins, outs);
      Some(VarInt(FUNCTION_TAG) + data)
    case Parametric(tag, args) =>
      if tag !in t.parametric then None else
      var tagBytes :- Count(tag);
      var data :- WriteParametric(t.env, t.parametric[tag], args);
      Some(tagBytes + data)
  }

  // ---------------------------------------------------------------- reading

  predicate ReadsFlags(s: TypeSchema, v: Version) {
    HasOptional(s.params) && v.AtLeast(s.flagsSince) && (Unified(s.since) || Unified(v))
  }

  function ReadValue(env: Env, kind: Kind, bs: bytes): Parsed<Option<Attr>> {
    var (a, rest) :- Read(env, kind, bs, 256);
    Got(Some(a), rest)
  }

  /** An optional parameter that is expected; the older format says itself whether it is there. */
  function ReadExpected(env: Env, s: TypeSchema, p: ParamSchema, bs: bytes): Parsed<Option<Attr>> {
    if p.kind.KCase? && !Unified(s.since) && !Unified(env.version) then
      if bs == [] then Fail
      else if bs[0] == 0 then Got(None, bs[1..])
      else ReadValue(env, p.kind, bs[1..])
    else ReadValue(env, p.kind, bs)
  }

  function ReadArg(env: Env, s: TypeSchema, p: ParamSchema, bit: bool, bs: bytes): Parsed<Option<Attr>> {
    if p.since != s.since then
      if p.optional then (if bit then ReadExpected(env, s, p, bs) else Got(None, bs))
      else if env.version.AtLeast(p.since) then ReadValue(env, p.kind, bs)
      else Got(p.fallback, bs)
    else if p.optional then
      if bit || !(Unified(s.since) || Unified(env.version)) then ReadExpected(env, s, p, bs) else Got(None, bs)
    else ReadValue(env, p.kind, bs)
  }

  function ReadArgs(env: Env, s: TypeSchema, ps: seq<ParamSchema>, bits: seq<bool>,
                    bs: bytes): (r: Parsed<seq<Option<Attr>>>)
    requires |bits| == |ps|
    ensures r.Got? ==> |r.value| == |ps|
  {
    if ps == [] then Got([], bs)
    else
      var (head, rest) :- ReadArg(env, s, ps[0], bits[0], bs);
      var (tail, rest') :- ReadArgs(env, s, ps[1..], bits[1..], rest);
      Got([head] + tail, rest')
  }

  function ReadParametric(env: Env, s: TypeSchema, tag: nat, bs: bytes): Parsed<Type> {
    if env.version.Before(s.since) then Fail else
    var ps := Ordered(s, s.params);
    var (word, rest) :- if ReadsFlags(s, env.version) then ReadVarInt(bs) else Got(0, bs);
    var (args, rest') :- ReadArgs(env, s, ps, AttrCodec.FromWord(ps, word), rest);
    Got(Parametric(tag, Ordered(s, args)), rest')
  }

  function ReadFunctionType(env: Env, bs: bytes): Parsed<Type> {
    var (inCount, rest) :- ReadCount(bs);
    var (ins, rest') :- ReadTypes(env, inCount, rest);
    var (outCount, rest'') :- ReadCount(rest');
    var (outs, rest''') :- ReadTypes(env, outCount, rest'');
    Got(Func(ins, outs), rest''')
  }

  /** The tag is cut to eight bits. */
  function ReadType(t: TypeEnv, bs: bytes): Parsed<Type> {
    var (raw, rest) :- ReadVarInt(bs);
    var tag := raw % 256;
    if tag in t.builtins then
      if t.env.version.AtLeast(t.builtins[tag]) then Got(Builtin(tag), rest) else Fail
    else if tag == FUNCTION_TAG then ReadFunctionType(t.env, rest)
    else if tag in t.parametric then ReadParametric(t.env, t.parametric[tag], tag, rest)
    else Fail
  }
}
