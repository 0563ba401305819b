/**
  The generated writer and reader of an operation, interpreted over its schema. Operands
  appear as indices into the numbering of values; regions are left to module Bodies.
  None and Fail stand for the error returns of the two sides.
  */
module OpCodec {
  import opened Base
  import opened VarInts
  import opened BitFields
  import opened Ir
  import opened AttrCodec

  datatype ResultSchema = ResultSchema(since: Version, built: Type)

  /** What stands for a required attribute in versions that do not have it. */
  datatype Fallback = NoDefault | Default(value: Attr) | AllFalse(operand: nat)

  datatype FieldSchema = FieldSchema(kind: Kind, since: Version, optional: bool, unit: bool, fallback: Fallback)

  datatype Arity = One | ZeroOrOne | Many

  datatype OperandSchema = OperandSchema(arity: Arity, since: Version)

  /**
    `segmented` is the AttrSizedOperandSegments trait; without it the operands form a single
    group. `manyResults` says that the last result is variadic.
    */
  datatype OpSchema = OpSchema(since: Version, results: seq<ResultSchema>, manyResults: bool,
                               attrs: seq<FieldSchema>, operands: seq<OperandSchema>, segmented: bool,
                               regions: nat, terminator: bool)
  {
    predicate HasVersionedResults() {
      exists i :: 0 <= i < |results| && results[i].since != since
    }

    predicate HasVariableOperands() {
      exists i :: 0 <= i < |operands| && !operands[i].arity.One?
    }

    predicate HasVariadicOperands() {
      exists i :: 0 <= i < |operands| && operands[i].arity.Many?
    }

    /** Whether the number of results is written: if anything is variadic; optional operands are not. */
    predicate CountsResults() {
      manyResults || HasVariadicOperands()
    }

    /** The versions of the optional fields: attributes first, then operands. */
    function OptionalFields(): seq<Version> {
      AttrVersions(attrs) + if segmented then OperandVersions(operands) else []
    }

    /** Whether a file of version `v` holds a flag word for this operation. */
    predicate HasFlags(v: Version) {
      OptionalFields() != [] && Reaches(Oldest(OptionalFields()), v)
    }

    /** Fields as old as the operation are not checked against the version. */
    predicate Reaches(field: Version, v: Version) {
      field == since || v.AtLeast(field)
    }
  }

  function AttrVersions(fs: seq<FieldSchema>): seq<Version> {
    if fs == [] then [] else (if fs[0].optional then [fs[0].since] else []) + AttrVersions(fs[1..])
  }

  function OperandVersions(os: seq<OperandSchema>): seq<Version> {
    if os == [] then [] else (if os[0].arity.ZeroOrOne? then [os[0].since] else []) + OperandVersions(os[1..])
  }

  /** An operation without its regions. */
  datatype Head = Head(results: seq<Type>, attrs: seq<Option<Attr>>, operands: seq<seq<nat>>)

  function AttrPresence(fs: seq<FieldSchema>, attrs: seq<Option<Attr>>): (r: seq<bool>)
    requires |attrs| == |fs|
    ensures |r| == |AttrVersions(fs)|
  {
    if fs == [] then [] else (if fs[0].optional then [attrs[0].Some?] else []) + AttrPresence(fs[1..], attrs[1..])
  }

  function OperandPresence(os: seq<OperandSchema>, groups: seq<seq<nat>>): (r: seq<bool>)
    requires |groups| == |os|
    ensures |r| == |OperandVersions(os)|
  {
    if os == [] then []
    else (if os[0].arity.ZeroOrOne? then [groups[0] != []] else []) + OperandPresence(os[1..], groups[1..])
  }

  // ---------------------------------------------------------------- shape of an operation

  /** The IR keeps segment sizes in 32-bit signed integers. */
  predicate GroupFits(o: OperandSchema, group: seq<nat>) {
    match o.arity
    case One => |group| == 1
    case ZeroOrOne => |group| <= 1
    case Many => |group| < 0x8000_0000
  }

  /** What the IR guarantees of an operation of this schema. */
  predicate Shaped(s: OpSchema, h: Head) {
    && |h.attrs| == |s.attrs|
    && (forall i :: 0 <= i < |s.attrs| && !s.attrs[i].optional ==> h.attrs[i].Some?)
    && (forall i :: 0 <= i < |s.attrs| && s.attrs[i].unit && h.attrs[i].Some? ==> h.attrs[i] == Some(Unit))
    && (s.manyResults || |h.results| == |s.results|)
    && (if s.segmented then
          |h.operands| == |s.operands| && forall i :: 0 <= i < |s.operands| ==> GroupFits(s.operands[i], h.operands[i])
        else
          |h.operands| == 1 && (s.HasVariableOperands() || |h.operands[0]| == |s.operands|))
  }

  function Presence(s: OpSchema, h: Head): (r: seq<bool>)
    requires Shaped(s, h)
    ensures |r| == |s.OptionalFields()|
  {
    AttrPresence(s.attrs, h.attrs) + if s.segmented then OperandPresence(s.operands, h.operands) else []
  }

  // ---------------------------------------------------------------- results

  predicate Compatible(s: OpSchema, v: Version, r: ResultSchema) {
    r.since == s.since || v.AtLeast(r.since)
  }

  /** The result types a version has room for; None when a dropped result is used. */
  function Kept(s: OpSchema, v: Version, rs: seq<ResultSchema>, types: seq<Type>, used: seq<bool>): (r: Option<seq<Type>>)
    requires |types| == |rs| == |used|
    ensures r.Some? ==> |r.value| <= |types|
  {
    if rs == [] then Some([])
    else if Compatible(s, v, rs[0]) then
      var tail :- Kept(s, v, rs[1..], types[1..], used[1..]);
      Some([types[0]] + tail)
    else if used[0] then None
    else Kept(s, v, rs[1..], types[1..], used[1..])
  }

  /** The types written, in order; `used` says which results have users. */
  function WrittenResults(s: OpSchema, v: Version, types: seq<Type>, used: seq<bool>): (r: Option<seq<Type>>)
    requires |used| == |types|
    ensures r.Some? ==> |r.value| <= |types|
  {
    if !s.HasVersionedResults() then Some(types)
    else if |types| != |s.results| then None
    else Kept(s, v, s.results, types, used)
  }

  function WriteResults(env: Env, s: OpSchema, types: seq<Type>, used: seq<bool>): Option<bytes>
    requires |used| == |types|
  {
    var written :- WrittenResults(s, env.version, types, used);
    var count :- if s.CountsResults() then Count(|written|) else Some([]);
    var body :- WriteTypes(env, written);
    Some(count + body)
  }

  /** Reads the results a version has, and builds the types of the others. */
  function ReadKept(env: Env, s: OpSchema, rs: seq<ResultSchema>, bs: bytes): (r: Parsed<seq<Type>>)
    ensures r.Got? ==> |r.rest| <= |bs| && |r.value| == |rs|
  {
    if rs == [] then Got([], bs)
    else if Compatible(s, env.version, rs[0]) then
      var (head, rest) :- ReadType(bs, env.types);
      var (tail, rest') :- ReadKept(env, s, rs[1..], rest);
      Got([head] + tail, rest')
    else
      var (tail, rest) :- ReadKept(env, s, rs[1..], bs);
      Got([rs[0].built] + tail, rest)
  }

  function CountKept(s: OpSchema, v: Version, rs: seq<ResultSchema>): (n: nat)
    ensures n <= |rs|
  {
    if rs == [] then 0 else (if Compatible(s, v, rs[0]) then 1 else 0) + CountKept(s, v, rs[1..])
  }

  function ReadResultCount(s: OpSchema, bs: bytes): (r: Parsed<nat>)
    ensures r.Got? ==> |r.rest| <= |bs|
  {
    if s.CountsResults() then ReadCount(bs) else Got(|s.results|, bs)
  }

  function ReadResults(env: Env, s: OpSchema, bs: bytes): (r: Parsed<seq<Type>>)
    ensures r.Got? ==> |r.rest| <= |bs|
  {
    var (count, rest) :- ReadResultCount(s, bs);
    if !s.HasVersionedResults() then ReadTypes(env, count, rest)
    else
      var (types, rest') :- ReadKept(env, s, s.results, rest);
      if s.CountsResults() && count != CountKept(s, env.version, s.results) then Fail else Got(types, rest')
  }

  /** How many results take part in the numbering of values; both sides compute it. */
  function Numbered(s: OpSchema, v: Version, results: nat): (n: nat)
    ensures s.HasVersionedResults() || n == results
  {
    if s.HasVersionedResults() then CountKept(s, v, s.results) else results
  }

  // ---------------------------------------------------------------- flags

  /** A field that is there needs a version that has it, or dates from the operation itself. */
  predicate FieldsAllowed(s: OpSchema, v: Version, present: seq<bool>)
    requires |present| == |s.OptionalFields()|
  {
    forall i :: 0 <= i < |present| && present[i] ==> s.Reaches(s.OptionalFields()[i], v)
  }

  function WriteFlags(s: OpSchema, v: Version, present: seq<bool>): Option<bytes>
    requires |present| == |s.OptionalFields()|
  {
    if !FieldsAllowed(s, v, present) then None
    else if s.HasFlags(v) then Count(Flags(s.OptionalFields(), present))
    else Some([])
  }

  function Bits(fields: seq<Version>, word: nat): (r: seq<bool>)
    ensures |r| == |fields|
  {
    seq(|fields|, i requires 0 <= i < |fields| => HasBit(word, BitOf(fields, i)))
  }

  function ReadFlags(s: OpSchema, v: Version, bs: bytes): (r: Parsed<seq<bool>>)
    ensures r.Got? ==> |r.value| == |s.OptionalFields()| && |r.rest| <= |bs|
  {
    var (word, rest) :- if s.HasFlags(v) then ReadVarInt(bs) else Got(0, bs);
    Got(Bits(s.OptionalFields(), word), rest)
  }

  // ---------------------------------------------------------------- attributes

  predicate AllZero(a: Attr) {
    a.Ints? && forall i :: 0 <= i < |a.xs| ==> a.xs[i] == 0
  }

  function WriteField(env: Env, f: FieldSchema, a: Option<Attr>): Option<bytes> {
    if f.unit || (f.optional && a.None?) then Some([])
    else if a.None? then None
    else if f.optional || env.version.AtLeast(f.since) then Write(env, f.kind, a.value)
    else match f.fallback
         case Default(d) => if a.value == d then Some([]) else None
         case AllFalse(_) => if AllZero(a.value) then Some([]) else None
         case NoDefault => Some([])
  }

  function WriteFields(env: Env, fs: seq<FieldSchema>, attrs: seq<Option<Attr>>): Option<bytes>
    requires |attrs| == |fs|
  {
    if fs == [] then Some([])
    else
      var head :- WriteField(env, fs[0], attrs[0]);
      var tail :- WriteFields(env, fs[1..], attrs[1..]);
      Some(head + tail)
  }

  /** `has` is the flag of an optional field. */
  function ReadField(env: Env, f: FieldSchema, has: bool, bs: bytes): (r: Parsed<Option<Attr>>)
    ensures r.Got? ==> |r.rest| <= |bs|
  {
    if env.version.Before(f.since) then
      Got(if f.fallback.Default? then Some(f.fallback.value) else None, bs)
    else if f.optional && !has then Got(None, bs)
    else if f.unit then Got(Some(Unit), bs)
    else
      var (a, rest) :- Read(env, f.kind, bs, 256);
      Got(Some(a), rest)
  }

  function ReadFields(env: Env, fs: seq<FieldSchema>, has: seq<bool>, bs: bytes): (r: Parsed<seq<Option<Attr>>>)
    requires |has| == |AttrVersions(fs)|
    ensures r.Got? ==> |r.rest| <= |bs| && |r.value| == |fs|
  {
    if fs == [] then Got([], bs)
    else
      var (head, rest) :- ReadField(env, fs[0], fs[0].optional && has[0], bs);
      var (tail, rest') :- ReadFields(env, fs[1..], if fs[0].optional then has[1..] else has, rest);
      Got([head] + tail, rest')
  }

  function Zeros(n: nat): (r: Attr)
    ensures AllZero(r)
  {
    Ints(seq(n, _ => 0))
  }

  /** After the operands: all-false vectors as long as their operand group. */
  function FixUp(v: Version, fs: seq<FieldSchema>, attrs: seq<Option<Attr>>, groups: seq<seq<nat>>): (r: seq<Option<Attr>>)
    requires |attrs| == |fs|
    ensures |r| == |fs|
  {
    seq(|fs|, i requires 0 <= i < |fs| =>
          if fs[i].fallback.AllFalse? && v.Before(fs[i].since) && fs[i].fallback.operand < |groups| then
            Some(Zeros(|groups[fs[i].fallback.operand]|))
          else attrs[i])
  }

  // ---------------------------------------------------------------- operands

  function WriteIndices(group: seq<nat>): Option<bytes> {
    if group == [] then Some([])
    else
      var head :- Count(group[0]);
      var tail :- WriteIndices(group[1..]);
      Some(head + tail)
  }

  /** `limit` is the number of values known so far. */
  function ReadIndices(count: nat, limit: nat, bs: bytes): (r: Parsed<seq<nat>>)
    ensures r.Got? ==> |r.rest| <= |bs| && |r.value| == count
    decreases count
  {
    if count == 0 then Got([], bs)
    else
      var (head, rest) :- ReadVarInt(bs);
      if head >= limit then Fail else
      var (tail, rest') :- ReadIndices(count - 1, limit, rest);
      Got([head] + tail, rest')
  }

  function WriteGroup(group: seq<nat>, withSize: bool): Option<bytes> {
    var size :- if withSize then Count(|group|) else Some([]);
    var body :- WriteIndices(group);
    Some(size + body)
  }

  function WriteGroups(os: seq<OperandSchema>, groups: seq<seq<nat>>): Option<bytes>
    requires |groups| == |os|
  {
    if os == [] then Some([])
    else
      var head :- WriteGroup(groups[0], os[0].arity.Many?);
      var tail :- WriteGroups(os[1..], groups[1..]);
      Some(head + tail)
  }

  /**
    The length of one segment. A size is cut to 32 bits; one that comes out negative is
    refused by the bound on the number of operands. `has` is the flag of an optional operand.
    */
  function ReadSize(s: OpSchema, v: Version, o: OperandSchema, has: bool, bs: bytes): (r: Parsed<nat>)
    ensures r.Got? ==> |r.rest| <= |bs|
  {
    match o.arity
    case One => Got(1, bs)
    case ZeroOrOne => if has && !s.Reaches(o.since, v) then Fail else Got(if has then 1 else 0, bs)
    case Many =>
      var (raw, rest) :- ReadVarInt(bs);
      if raw % TWO_TO_THE_32 >= 0x8000_0000 then Fail else Got(raw % TWO_TO_THE_32, rest)
  }

  /** `before` counts the operands read so far. */
  function ReadGroup(s: OpSchema, v: Version, o: OperandSchema, has: bool, before: nat, limit: nat, bs: bytes):
    (r: Parsed<seq<nat>>)
    ensures r.Got? ==> |r.rest| <= |bs|
  {
    var (size, rest) :- ReadSize(s, v, o, has, bs);
    if before + size > MAX_COUNT then Fail else ReadIndices(size, limit, rest)
  }

  function ReadGroups(s: OpSchema, v: Version, os: seq<OperandSchema>, has: seq<bool>, before: nat, limit: nat, bs: bytes):
    (r: Parsed<seq<seq<nat>>>)
    requires |has| == |OperandVersions(os)|
    ensures r.Got? ==> |r.rest| <= |bs| && |r.value| == |os|
    decreases |os|
  {
    if os == [] then Got([], bs)
    else
      var opt := os[0].arity.ZeroOrOne?;
      var (head, rest) :- ReadGroup(s, v, os[0], opt && has[0], before, limit, bs);
      var (tail, rest') :- ReadGroups(s, v, os[1..], if opt then has[1..] else has, before + |head|, limit, rest);
      Got([head] + tail, rest')
  }

  function WriteOperands(s: OpSchema, groups: seq<seq<nat>>): Option<bytes> {
    if s.segmented then (if |groups| == |s.operands| then WriteGroups(s.operands, groups) else None)
    else if |groups| != 1 then None
    else if s.operands == [] then Some([])
    else WriteGroup(groups[0], s.HasVariableOperands())
  }

  function ReadOperands(s: OpSchema, v: Version, has: seq<bool>, limit: nat, bs: bytes): (r: Parsed<seq<seq<nat>>>)
    requires s.segmented ==> |has| == |OperandVersions(s.operands)|
    ensures r.Got? ==> |r.rest| <= |bs|
  {
    if s.segmented then ReadGroups(s, v, s.operands, has, 0, limit, bs)
    else
      var (count, rest) :- if s.HasVariableOperands() then ReadCount(bs) else Got(|s.operands|, bs);
      var (group, rest') :- ReadIndices(count, limit, rest);
      Got([group], rest')
  }

  // ---------------------------------------------------------------- the whole head

  function WriteHead(env: Env, s: OpSchema, h: Head, used: seq<bool>): Option<bytes>
    requires Shaped(s, h) && |used| == |h.results|
  {
    var results :- WriteResults(env, s, h.results, used);
    var flags :- WriteFlags(s, env.version, Presence(s, h));
    var attrs :- WriteFields(env, s.attrs, h.attrs);
    var operands :- WriteOperands(s, h.operands);
    Some(results + (flags + (attrs + operands)))
  }

  function ReadHead(env: Env, s: OpSchema, limit: nat, bs: bytes): (r: Parsed<Head>)
    ensures r.Got? ==> |r.rest| <= |bs| && |r.value.attrs| == |s.attrs|
  {
    var (results, rest) :- ReadResults(env, s, bs);
    var (has, rest') :- ReadFlags(s, env.version, rest);
    var n := |AttrVersions(s.attrs)|;
    var (attrs, rest'') :- ReadFields(env, s.attrs, has[..n], rest');
    var (groups, rest''') :- ReadOperands(s, env.version, has[n..], limit, rest'');
    Got(Head(results, FixUp(env.version, s.attrs, attrs, groups), groups), rest''')
  }
}
