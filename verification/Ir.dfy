/**
  Types and attributes as plain values with structural equality, the schema of a
  parameter, and the tables a writer and a reader share.
  */
module Ir {
  import opened Base

  datatype Type =
    | Builtin(tag: nat)
    | Func(ins: seq<Type>, outs: seq<Type>)
    | Parametric(tag: nat, args: seq<Option<Attr>>)

  /** `Custom` is a dialect attribute; its parameters are attributes as well. */
  datatype Attr =
    | Num(n: nat)
    | Signed(x: int)
    | Int(ty: Type, value: nat)
    | Float(ty: Type, bits: nat)
    | Case(value: nat)
    | Ints(xs: seq<int>)
    | TypeRef(ty: Type)
    | Str(s: bytes)
    | Symbol(s: bytes)
    | Array(elems: seq<Attr>)
    | Dict(entries: seq<Entry>)
    | Custom(tag: nat, params: seq<Option<Attr>>)
    | Elements(content: bytes)
    | Unit

  datatype Entry = Entry(key: bytes, value: Attr)

  /** The static type of a field or parameter, which decides its encoding. */
  datatype Kind =
    | KNum
    | KNum32
    | KSigned
    | KBool
    | KInt(width: nat)
    | KCase(cases: Cases)
    | KInts(size: nat, guarded: bool)
    | KType
    | KClass(tag: nat)
    | KStr
    | KSymbol
    | KArray
    | KDict
    | KNested(tag: nat)
    | KSelfContained
    | KElements

  /**
    An enumeration: its version, its cases, whether the writer gates single cases, and
    whether the reader cuts the value to 32 bits before it looks for the case.
    */
  datatype Cases = Cases(since: Version, gated: bool, truncated: bool, cases: map<nat, Version>)

  /** `fallback` is the value a required parameter has in versions that do not have it. */
  datatype ParamSchema = ParamSchema(kind: Kind, optional: bool, since: Version, fallback: Option<Attr>)

  /**
    The parameters of a dialect type. `reversed` is the order of the older tile type;
    `flagsSince` is the version of the first optional parameter.
    */
  datatype TypeSchema = TypeSchema(since: Version, reversed: bool, params: seq<ParamSchema>, flagsSince: Version)

  /** The parameters of a dialect attribute; `requiredFirst` is the older layout. */
  datatype AttrSchema = AttrSchema(since: Version, requiredFirst: bool, params: seq<ParamSchema>)

  /**
    The tables. A type table entry is None as long as it is not known: a reader knows an
    entry once it is decoded.
    */
  datatype Env = Env(version: Version, strings: seq<bytes>, types: seq<Option<Type>>,
                     constants: seq<bytes>, attrs: map<nat, AttrSchema>)

  /** The second environment's tables continue the first one's. */
  predicate Continues(e1: Env, e2: Env) {
    e1.version == e2.version && e1.attrs == e2.attrs && e1.strings <= e2.strings &&
    e1.types <= e2.types && e1.constants <= e2.constants
  }

  /** Every table entry the first environment knows, the second one knows as well. */
  predicate KnowsMore(e1: Env, e2: Env) {
    e1.version == e2.version && e1.attrs == e2.attrs && e1.strings <= e2.strings &&
    e1.constants <= e2.constants && |e1.types| <= |e2.types| &&
    forall i :: 0 <= i < |e1.types| && e1.types[i].Some? ==> e2.types[i] == e1.types[i]
  }

  function IntegerWidth(ty: Type): Option<nat> {
    if !ty.Builtin? then None
    else match ty.tag
         case 0 => Some(1)
         case 1 => Some(8)
         case 2 => Some(16)
         case 3 => Some(32)
         case 4 => Some(64)
         case 22 => Some(4)
         case _ => None
  }

  function FloatWidth(ty: Type): Option<nat> {
    if !ty.Builtin? then None
    else match ty.tag
         case 5 => Some(16)
         case 6 => Some(16)
         case 7 => Some(32)
         case 8 => Some(19)
         case 9 => Some(64)
         case 10 => Some(8)
         case 11 => Some(8)
         case 18 => Some(8)
         case 19 => Some(4)
         case 130 => Some(8)
         case _ => None
  }

  const I1 := Builtin(0)

  /** A type of one given class of parametric types. */
  predicate OfClass(ty: Type, tag: nat) {
    ty.Parametric? && ty.tag == tag
  }

  /** The integer type of a given width. */
  function IntegerOf(width: nat): (ty: Option<Type>)
    ensures ty.Some? ==> IntegerWidth(ty.value) == Some(width)
    ensures forall t: Type :: IntegerWidth(t) == Some(width) ==> ty == Some(t)
  {
    match width
    case 1 => Some(I1)
    case 4 => Some(Builtin(22))
    case 8 => Some(Builtin(1))
    case 16 => Some(Builtin(2))
    case 32 => Some(Builtin(3))
    case 64 => Some(Builtin(4))
    case _ => None
  }
}
