/**
  Attributes on the wire. `Write(env, kind, a)` is the form of an attribute whose kind the
  reader knows; `WriteTagged` is the self-contained form, a tag and the payload. None means
  that the writer refuses (or that no such value exists in the source's integer widths).
  */
module AttrCodec {
  import opened Base
  import opened VarInts
  import opened Encoding
  import opened Ir

  const TAG_INTEGER := 1
  const TAG_FLOAT := 2
  const TAG_BOOL := 3
  const TAG_TYPE := 4
  const TAG_STRING := 5
  const TAG_ARRAY := 6
  const TAG_DENSE := 7
  const TAG_DICTIONARY := 10
  const BUILTIN_TAGS := {1, 2, 3, 4, 5, 6, 7, 10}

  function Index<T(==)>(table: seq<T>, x: T): Option<bytes> {
    var i :- IndexOf(table, x);
    if i < TWO_TO_THE_64 then Some(VarInt(i)) else None
  }

  function ReadIndex<T>(bs: bytes, table: seq<T>): (r: Parsed<T>)
    ensures !r.Missing?
    ensures r.Got? ==> |r.rest| < |bs|
  {
    var (i, rest) :- ReadVarInt(bs);
    if i < |table| then Got(table[i], rest) else Fail
  }

  function ReadType(bs: bytes, types: seq<Option<Type>>): (r: Parsed<Type>)
    ensures r.Got? ==> |r.rest| < |bs|
  {
    var (i, rest) :- ReadVarInt(bs);
    if i >= |types| then Fail
    else if types[i].None? then Missing(i)
    else Got(types[i].value, rest)
  }

  function WriteTypes(env: Env, types: seq<Type>): Option<bytes> {
    if types == [] then Some([])
    else
      var head :- Index(env.types, Some(types[0]));
      var tail :- WriteTypes(env, types[1..]);
      Some(head + tail)
  }

  function ReadTypes(env: Env, count: nat, bs: bytes): (r: Parsed<seq<Type>>)
    ensures r.Got? ==> |r.rest| <= |bs| && |r.value| == count
    decreases count
  {
    if count == 0 then Got([], bs)
    else
      var (head, rest) :- ReadType(bs, env.types);
      var (tail, rest') :- ReadTypes(env, count - 1, rest);
      Got([head] + tail, rest')
  }

  function Count(n: nat): Option<bytes> {
    if n < TWO_TO_THE_64 then Some(VarInt(n)) else None
  }

  // ---------------------------------------------------------------- writing

  function Write(env: Env, kind: Kind, a: Attr): Option<bytes>
    decreases a, 1
  {
    match kind
    case KNum => if a.Num? then Count(a.n) else None
    case KNum32 => if a.Num? && a.n < TWO_TO_THE_32 then Count(a.n) else None
    case KSigned => if a.Signed? && FitsSigned(a.x, 64) then
                      Pow2Values();
                      Some(SignedVarInt(ToWord(a.x, 64)))
                    else None
    case KBool => if a.Int? && a.ty == I1 && a.value < 2 then Some([a.value]) else None
    case KInt(w) => if a.Int? && IntegerWidth(a.ty) == Some(w) && a.value < Pow2(w) then Count(a.value) else None
    case KCase(e) => if a.Case? && a.value in e.cases && (e.gated ==> env.version.AtLeast(e.cases[a.value])) then
                       Count(a.value)
                     else None
    case KInts(size, _) => if a.Ints? && size >= 1 && AllFit(a.xs, size) && |a.xs| < TWO_TO_THE_64 then
                             Some(LEVarSize(a.xs, size))
                           else None
    case KType => if a.TypeRef? then Index(env.types, Some(a.ty)) else None
    case KClass(tag) => if a.TypeRef? && OfClass(a.ty, tag) then Index(env.types, Some(a.ty)) else None
    case KStr => if a.Str? then Index(env.strings, a.s) else None
    case KSymbol => if a.Symbol? then Index(env.strings, a.s) else None
    case KElements => if a.Elements? then Index(env.constants, a.content) else None
    case KArray => if a.Array? then
                     var count :- Count(|a.elems|);
                     var body :- WriteElems(env, a.elems);
                     Some(count + body)
                   else None
    case KDict => if a.Dict? then
                    var count :- Count(|a.entries|);
                    var body :- WriteEntries(env, a.entries);
                    Some(count + body)
                  else None
    case KNested(tag) => if a.Custom? && a.tag == tag then WriteData(env, tag, a.params) else None
    case KSelfContained => WriteTagged(env, a)
  }

  /** Tag and payload. The integer case also takes booleans. */
  function WriteTagged(env: Env, a: Attr): Option<bytes>
    decreases a, 0
  {
    match a
    case Int(ty, v) =>
      if IntegerWidth(ty).None? || v >= Pow2(IntegerWidth(ty).value) then None else
      var index :- Index(env.types, Some(ty));
      var payload :- Count(v);
      Some(VarInt(TAG_INTEGER) + (index + payload))
    case Float(ty, bits) =>
      if FloatWidth(ty).None? || bits >= Pow2(FloatWidth(ty).value) then None else
      var index :- Index(env.types, Some(ty));
      Some(VarInt(TAG_FLOAT) + (index + APInt(bits, FloatWidth(ty).value)))
    case TypeRef(ty) =>
      var index :- Index(env.types, Some(ty));
      Some(VarInt(TAG_TYPE) + index)
    case Str(s) =>
      var index :- Index(env.strings, s);
      Some(VarInt(TAG_STRING) + index)
    case Array(elems) =>
      var count :- Count(|elems|);
      var body :- WriteElems(env, elems);
      Some(VarInt(TAG_ARRAY) + (count + body))
    case Dict(entries) =>
      var count :- Count(|entries|);
      var body :- WriteEntries(env, entries);
      Some(VarInt(TAG_DICTIONARY) + (count + body))
    case Custom(tag, params) =>
      var data :- WriteData(env, tag, params);
      Some(VarInt(tag) + data)
    case _ => None
  }

  function WriteElems(env: Env, elems: seq<Attr>): Option<bytes>
    decreases elems, 0
  {
    if elems == [] then Some([])
    else
      var head :- WriteTagged(env, elems[0]);
      var tail :- WriteElems(env, elems[1..]);
      Some(head + tail)
  }

  function WriteEntries(env: Env, entries: seq<Entry>): Option<bytes>
    decreases entries, 0
  {
    if entries == [] then Some([])
    else
      var key :- Index(env.strings, entries[0].key);
      var value :- WriteTagged(env, entries[0].value);
      var tail :- WriteEntries(env, entries[1..]);
      Some(key + (value + tail))
  }

  /** Which parameters are written in which phase. */
  function Required(ps: seq<ParamSchema>): (r: seq<bool>)
    ensures |r| == |ps|
  {
    seq(|ps|, i requires 0 <= i < |ps| => !ps[i].optional)
  }

  function Present(ps: seq<ParamSchema>, params: seq<Option<Attr>>): (r: seq<bool>)
    requires |params| == |ps|
    ensures |r| == |ps|
  {
    seq(|ps|, i requires 0 <= i < |ps| => ps[i].optional && params[i].Some?)
  }

  /** One bit for each optional parameter, in declaration order from bit 0. */
  function PresenceWord(ps: seq<ParamSchema>, params: seq<Option<Attr>>): nat
    requires |params| == |ps|
  {
    if ps == [] then 0
    else if ps[0].optional then
      (if params[0].Some? then 1 else 0) + 2 * PresenceWord(ps[1..], params[1..])
    else PresenceWord(ps[1..], params[1..])
  }

  function FromWord(ps: seq<ParamSchema>, word: nat): (r: seq<bool>)
    ensures |r| == |ps|
  {
    if ps == [] then []
    else if ps[0].optional then [word % 2 == 1] + FromWord(ps[1..], word / 2)
    else [false] + FromWord(ps[1..], word)
  }

  predicate HasOptional(ps: seq<ParamSchema>) {
    exists i :: 0 <= i < |ps| && ps[i].optional
  }

  /** The parameters' presence as the version allows it. */
  predicate Admissible(version: Version, ps: seq<ParamSchema>, params: seq<Option<Attr>>) {
    |params| == |ps| &&
    forall i :: 0 <= i < |ps| ==>
      if ps[i].optional then params[i].Some? ==> version.AtLeast(ps[i].since) else params[i].Some?
  }

  function WriteData(env: Env, tag: nat, params: seq<Option<Attr>>): Option<bytes>
    decreases params, 1
  {
    if tag !in env.attrs then None else
    var schema := env.attrs[tag];
    var ps := schema.params;
    if env.version.Before(schema.since) || !Admissible(env.version, ps, params) then None else
    var required :- WritePhase(env, ps, params, Required(ps));
    var flags :- if HasOptional(ps) then Count(PresenceWord(ps, params)) else Some([]);
    var optional :- WritePhase(env, ps, params, Present(ps, params));
    Some(if schema.requiredFirst then required + (flags + optional) else flags + (required + optional))
  }

  function WritePhase(env: Env, ps: seq<ParamSchema>, params: seq<Option<Attr>>, now: seq<bool>): Option<bytes>
    requires |params| == |ps| == |now|
    decreases params, 0
  {
    if ps == [] then Some([])
    else if !now[0] then WritePhase(env, ps[1..], params[1..], now[1..])
    else
      var head :- WriteParam(env, ps[0].kind, params[0]);
      var tail :- WritePhase(env, ps[1..], params[1..], now[1..]);
      Some(head + tail)
  }

  function WriteParam(env: Env, kind: Kind, param: Option<Attr>): Option<bytes>
    decreases param, 0
  {
    match param
    case None => None
    case Some(a) => Write(env, kind, a)
  }

  // ---------------------------------------------------------------- reading

  /** The extreme values of a signed word of `size` bytes. */
  predicate Extreme(x: int, size: nat)
    requires size >= 1
  {
    x + 1 == Pow2(8 * size - 1) || x + Pow2(8 * size - 1) == 0
  }

  predicate NoneExtreme(xs: seq<int>, size: nat)
    requires size >= 1
  {
    forall i :: 0 <= i < |xs| ==> !Extreme(xs[i], size)
  }

  predicate DistinctKeys(entries: seq<Entry>) {
    forall i, j :: 0 <= i < j < |entries| ==> entries[i].key != entries[j].key
  }

  function ReadScalar(bs: bytes, ty: Type): (r: Parsed<Attr>)
    ensures !r.Missing?
    ensures r.Got? ==> |r.rest| < |bs|
  {
    match IntegerWidth(ty)
    case Some(w) =>
      if w == 1 then
        if bs == [] then Fail else Got(Int(I1, if bs[0] != 0 then 1 else 0), bs[1..])
      else
        var (v, rest) :- ReadVarInt(bs);
        if v < Pow2(w) then Got(Int(ty, v), rest) else Fail
    case None =>
      match FloatWidth(ty)
      case Some(w) =>
        var (v, rest) :- ReadAPInt(bs, w);
        Got(Float(ty, v), rest)
      case None => Fail
  }

  /** `bound` limits the tags of attributes nested without a tag of their own. */
  function Read(env: Env, kind: Kind, bs: bytes, bound: nat): (r: Parsed<Attr>)
    ensures r.Got? ==> |r.rest| <= |bs|
    decreases |bs|, bound, 1, 0
  {
    match kind
    case KNum =>
      var (n, rest) :- ReadVarInt(bs);
      Got(Num(n), rest)
    case KNum32 =>
      var (n, rest) :- ReadVarInt(bs);
      if n < TWO_TO_THE_32 then Got(Num(n), rest) else Fail
    case KSigned =>
      var (w, rest) :- ReadSignedVarInt(bs);
      Got(Signed(Encoding.FromWord(w, 64)), rest)
    case KBool => ReadScalar(bs, I1)
    case KInt(w) => if IntegerOf(w).None? then Fail else ReadScalar(bs, IntegerOf(w).value)
    case KCase(e) =>
      if env.version.Before(e.since) then Fail else
      var (raw, rest) :- ReadVarInt(bs);
      var value := if e.truncated then raw % TWO_TO_THE_32 else raw;
      if value in e.cases then Got(Case(value), rest) else Fail
    case KInts(size, guarded) =>
      if size == 0 then Fail else
      var (xs, rest) :- ReadLEVarSize(bs, size);
      if guarded && !NoneExtreme(xs, size) then Fail else Got(Ints(xs), rest)
    case KType =>
      var (ty, rest) :- ReadType(bs, env.types);
      Got(TypeRef(ty), rest)
    case KClass(tag) =>
      var (ty, rest) :- ReadType(bs, env.types);
      if OfClass(ty, tag) then Got(TypeRef(ty), rest) else Fail
    case KStr =>
      var (s, rest) :- ReadIndex(bs, env.strings);
      Got(Str(s), rest)
    case KSymbol =>
      var (s, rest) :- ReadIndex(bs, env.strings);
      if s == [] then Fail else Got(Symbol(s), rest)
    case KElements =>
      var (content, rest) :- ReadIndex(bs, env.constants);
      Got(Elements(content), rest)
    case KArray =>
      var (count, rest) :- ReadCount(bs);
      var (elems, rest') :- ReadElems(env, count, rest);
      Got(Array(elems), rest')
    case KDict =>
      var (count, rest) :- ReadCount(bs);
      var (entries, rest') :- ReadEntries(env, count, rest);
      if DistinctKeys(entries) then Got(Dict(entries), rest') else Fail
    case KNested(tag) => if tag < bound then ReadData(env, tag, bs) else Fail
    case KSelfContained => ReadTagged(env, bs)
  }

  /** The tag is cut to its eight bits. */
  function ReadTagged(env: Env, bs: bytes): (r: Parsed<Attr>)
    ensures r.Got? ==> |r.rest| < |bs|
    decreases |bs|, 0, 0, 0
  {
    var (raw, rest) :- ReadVarInt(bs);
    ReadPayload(env, raw % 256, rest)
  }

  /** Dense elements always end in an error here. */
  function ReadPayload(env: Env, tag: byte, bs: bytes): (r: Parsed<Attr>)
    ensures r.Got? ==> |r.rest| <= |bs|
    decreases |bs|, 256, 0, 0
  {
    if tag == TAG_INTEGER || tag == TAG_FLOAT then ReadTypedScalar(env, tag, bs)
    else if tag == TAG_BOOL then ReadScalar(bs, I1)
    else if tag == TAG_TYPE then Read(env, KType, bs, 0)
    else if tag == TAG_STRING then Read(env, KStr, bs, 0)
    else if tag == TAG_ARRAY then Read(env, KArray, bs, 0)
    else if tag == TAG_DICTIONARY then Read(env, KDict, bs, 0)
    else if tag == TAG_DENSE then Fail
    else ReadData(env, tag, bs)
  }

  function ReadTypedScalar(env: Env, tag: byte, bs: bytes): (r: Parsed<Attr>)
    ensures r.Got? ==> |r.rest| < |bs|
  {
    var (ty, rest) :- ReadType(bs, env.types);
    if tag == TAG_INTEGER && IntegerWidth(ty).None? then Fail
    else if tag == TAG_FLOAT && FloatWidth(ty).None? then Fail
    else ReadScalar(rest, ty)
  }

  function ReadElems(env: Env, count: nat, bs: bytes): (r: Parsed<seq<Attr>>)
    ensures r.Got? ==> |r.rest| <= |bs| && |r.value| == count
    decreases |bs|, 0, 2, count
  {
    if count == 0 then Got([], bs)
    else
      var (head, rest) :- ReadTagged(env, bs);
      var (tail, rest') :- ReadElems(env, count - 1, rest);
      Got([head] + tail, rest')
  }

  function ReadEntries(env: Env, count: nat, bs: bytes): (r: Parsed<seq<Entry>>)
    ensures r.Got? ==> |r.rest| <= |bs| && |r.value| == count
    decreases |bs|, 0, 2, count
  {
    if count == 0 then Got([], bs)
    else
      var (key, rest) :- ReadIndex(bs, env.strings);
      if key == [] then Fail else
      var (value, rest') :- ReadTagged(env, rest);
      var (tail, rest'') :- ReadEntries(env, count - 1, rest');
      Got([Entry(key, value)] + tail, rest'')
  }

  function ReadData(env: Env, tag: nat, bs: bytes): (r: Parsed<Attr>)
    ensures r.Got? ==> |r.rest| <= |bs|
    decreases |bs|, tag, 3, 0
  {
    if tag !in env.attrs || env.version.Before(env.attrs[tag].since) then Fail else
    var ps := env.attrs[tag].params;
    if env.attrs[tag].requiredFirst then
      var (required, rest) :- ReadPhase(env, ps, Required(ps), bs, tag);
      var (word, rest') :- ReadPresence(ps, rest);
      var (optional, rest'') :- ReadPhase(env, ps, FromWord(ps, word), rest', tag);
      Got(Custom(tag, Merge(required, optional)), rest'')
    else
      var (word, rest) :- ReadPresence(ps, bs);
      var (required, rest') :- ReadPhase(env, ps, Required(ps), rest, tag);
      var (optional, rest'') :- ReadPhase(env, ps, FromWord(ps, word), rest', tag);
      Got(Custom(tag, Merge(required, optional)), rest'')
  }

  function ReadPresence(ps: seq<ParamSchema>, bs: bytes): (r: Parsed<nat>)
    ensures !r.Missing?
    ensures r.Got? ==> |r.rest| <= |bs|
  {
    if HasOptional(ps) then ReadVarInt(bs) else Got(0, bs)
  }

  function ReadPhase(env: Env, ps: seq<ParamSchema>, now: seq<bool>, bs: bytes, bound: nat): (r: Parsed<seq<Option<Attr>>>)
    requires |now| == |ps|
    ensures r.Got? ==> |r.rest| <= |bs| && |r.value| == |ps|
    decreases |bs|, bound, 2, |ps|
  {
    if ps == [] then Got([], bs)
    else if !now[0] then
      var (tail, rest) :- ReadPhase(env, ps[1..], now[1..], bs, bound);
      Got([None] + tail, rest)
    else
      var (head, rest) :- Read(env, ps[0].kind, bs, bound);
      var (tail, rest') :- ReadPhase(env, ps[1..], now[1..], rest, bound);
      Got([Some(head)] + tail, rest')
  }

  function Merge(a: seq<Option<Attr>>, b: seq<Option<Attr>>): (r: seq<Option<Attr>>)
    requires |a| == |b|
    ensures |r| == |a|
  {
    seq(|a|, i requires 0 <= i < |a| => if a[i].Some? then a[i] else b[i])
  }
}
