/**
  Global variables: a section of records that refer to the string, type and constant tables.
  Visibility and the constant flag exist from 13.3 on; before, the writer refuses to lose them.
  */
module Globals {
  import opened Base
  import opened VarInts
  import opened Encoding
  import opened Ir
  import opened AttrCodec
  import opened AttrRoundTrip
  import Tables

  /** The initial value is kept as its type and its bytes in the constant table. */
  datatype Global = Global(name: bytes, ty: Type, content: bytes, alignment: int, isPrivate: bool, isConstant: bool)

  datatype GlobalInfo = GlobalInfo(name: nat, ty: nat, content: nat, alignment: nat, visibility: nat, isConstant: nat)

  predicate HasFlags(v: Version) {
    v.AtLeast(V13_3)
  }

  function Bit(b: bool): nat {
    if b then 1 else 0
  }

  // ---------------------------------------------------------------- writing

  function WriteGlobal(env: Env, g: Global): Option<bytes> {
    if !HasFlags(env.version) && (g.isPrivate || g.isConstant) then None else
    var name :- Index(env.strings, g.name);
    var ty :- Index(env.types, Some(g.ty));
    var content :- Index(env.constants, g.content);
    if !FitsSigned(g.alignment, 64) then None else
    var flags := if HasFlags(env.version) then VarInt(Bit(g.isPrivate)) + VarInt(Bit(g.isConstant)) else [];
    Some(name + (ty + (content + (VarInt(ToWord(g.alignment, 64)) + flags))))
  }

  function WriteAllGlobals(env: Env, gs: seq<Global>): Option<bytes> {
    if gs == [] then Some([])
    else
      var head :- WriteGlobal(env, gs[0]);
      var tail :- WriteAllGlobals(env, gs[1..]);
      Some(head + tail)
  }

  /** Without globals there is no section. */
  function WriteGlobals(env: Env, gs: seq<Global>): Option<bytes> {
    var count :- Count(|gs|);
    var body :- WriteAllGlobals(env, gs);
    Some(count + body)
  }

  // ---------------------------------------------------------------- reading

  /** Four numbers, and two more from 13.3 on. */
  function ReadGlobal(v: Version, bs: bytes): (r: Parsed<GlobalInfo>)
    ensures r.Got? ==> |r.rest| < |bs|
  {
    var (name, r1) :- ReadVarInt(bs);
    var (ty, r2) :- ReadVarInt(r1);
    var (content, r3) :- ReadVarInt(r2);
    var (alignment, r4) :- ReadVarInt(r3);
    if HasFlags(v) then
      var (visibility, r5) :- ReadVarInt(r4);
      var (isConstant, r6) :- ReadVarInt(r5);
      Got(GlobalInfo(name, ty, content, alignment, visibility, isConstant), r6)
    else Got(GlobalInfo(name, ty, content, alignment, 0, 0), r4)
  }

  function ReadAllGlobals(v: Version, count: nat, bs: bytes): Parsed<seq<GlobalInfo>> {
    if count == 0 then Got([], bs)
    else
      var (head, rest) :- ReadGlobal(v, bs);
      var (tail, rest') :- ReadAllGlobals(v, count - 1, rest);
      Got([head] + tail, rest')
  }

  /** The fewest bytes of a record. */
  function SmallestGlobal(v: Version): nat {
    if HasFlags(v) then 6 else 4
  }

  function ReadGlobals(v: Version, payload: bytes): Option<seq<GlobalInfo>> {
    var count := ReadVarInt(payload);
    if !count.Got? || count.value > |count.rest| / SmallestGlobal(v) then None else
    var infos := ReadAllGlobals(v, count.value, count.rest);
    if infos.Got? then Some(infos.value) else None
  }

  /** Indices in range, a name, a known visibility; any number but 0 stands for constant. */
  function CreateGlobal(env: Env, info: GlobalInfo): Option<Global> {
    if info.content >= |env.constants| || info.name >= |env.strings| || env.strings[info.name] == [] then None
    else if info.ty >= |env.types| || env.types[info.ty].None? || info.visibility > 1 then None
    else Some(Global(env.strings[info.name], env.types[info.ty].value, env.constants[info.content],
                     Encoding.FromWord(info.alignment, 64), info.visibility == 1, info.isConstant != 0))
  }

  function CreateGlobals(env: Env, infos: seq<GlobalInfo>): Option<seq<Global>> {
    if infos == [] then Some([])
    else
      var head :- CreateGlobal(env, infos[0]);
      var tail :- CreateGlobals(env, infos[1..]);
      Some([head] + tail)
  }

  // ---------------------------------------------------------------- round trip

  function InfoOf(env: Env, g: Global): GlobalInfo
    requires WriteGlobal(env, g).Some?
  {
    GlobalInfo(IndexOf(env.strings, g.name).value, IndexOf(env.types, Some(g.ty)).value, IndexOf(env.constants, g.content).value,
               ToWord(g.alignment, 64), Bit(g.isPrivate), Bit(g.isConstant))
  }

  function InfosOf(env: Env, gs: seq<Global>): (r: seq<GlobalInfo>)
    requires WriteAllGlobals(env, gs).Some?
  {
    if gs == [] then [] else [InfoOf(env, gs[0])] + InfosOf(env, gs[1..])
  }

  /** The numbers of a record; without flags the last two are 0. */
  function RecordBytes(v: Version, info: GlobalInfo): bytes {
    VarInt(info.name) + (VarInt(info.ty) + (VarInt(info.content) + (VarInt(info.alignment) + FlagBytes(v, info))))
  }

  function FlagBytes(v: Version, info: GlobalInfo): bytes {
    if HasFlags(v) then VarInt(info.visibility) + VarInt(info.isConstant) else []
  }

  predicate InfoFits(v: Version, info: GlobalInfo) {
    && info.name < TWO_TO_THE_64 && info.ty < TWO_TO_THE_64 && info.content < TWO_TO_THE_64 && info.alignment < TWO_TO_THE_64
    && info.visibility <= 1 && info.isConstant <= 1 && (!HasFlags(v) ==> info.visibility == info.isConstant == 0)
  }

  lemma {:induction false} RecordWritten(env: Env, g: Global)
    requires WriteGlobal(env, g).Some?
    ensures WriteGlobal(env, g).value == RecordBytes(env.version, InfoOf(env, g)) && InfoFits(env.version, InfoOf(env, g))
  {
    Pow2Values();
    hide VarInt, Pow2, FitsSigned;
  }

  lemma {:induction false} RecordParts(a: bytes, b: bytes, c: bytes, d: bytes, e: bytes, rest: bytes)
    ensures a + (b + (c + (d + e))) + rest == a + (b + (c + (d + (e + rest))))
  {
    Assoc(a, b + (c + (d + e)), rest);
    Assoc(b, c + (d + e), rest);
    Assoc(c, d + e, rest);
    Assoc(d, e, rest);
  }

  lemma {:induction false} FlagsReadBack(v: Version, info: GlobalInfo, rest: bytes)
    requires InfoFits(v, info)
    ensures HasFlags(v) ==> ReadVarInt(FlagBytes(v, info) + rest) == Got(info.visibility, VarInt(info.isConstant) + rest)
    ensures HasFlags(v) ==> ReadVarInt(VarInt(info.isConstant) + rest) == Got(info.isConstant, rest)
    ensures !HasFlags(v) ==> FlagBytes(v, info) + rest == rest
  {
    hide VarInt, ReadVarInt;
    Assoc(VarInt(info.visibility), VarInt(info.isConstant), rest);
    VarIntRoundTrip(info.visibility, VarInt(info.isConstant) + rest);
    VarIntRoundTrip(info.isConstant, rest);
    assert [] + rest == rest;
  }

  lemma {:induction false} RecordSize(v: Version, info: GlobalInfo)
    ensures |RecordBytes(v, info)| >= SmallestGlobal(v)
  {
    hide VarInt;
  }

  lemma {:induction false} ReadInTurn(v: Version, info: GlobalInfo, bs: bytes, r1: bytes, r2: bytes, r3: bytes,
                                      r4: bytes, rest: bytes)
    requires ReadVarInt(bs) == Got(info.name, r1) && ReadVarInt(r1) == Got(info.ty, r2)
    requires ReadVarInt(r2) == Got(info.content, r3) && ReadVarInt(r3) == Got(info.alignment, r4)
    requires r4 == FlagBytes(v, info) + rest && InfoFits(v, info)
    ensures ReadGlobal(v, bs) == Got(info, rest)
  {
    hide ReadVarInt, VarInt, FlagBytes;
    FlagsReadBack(v, info, rest);
  }

  /** One record is read back, and takes at least one byte for every number. */
  lemma {:induction false} RecordReadBack(env: Env, g: Global, rest: bytes)
    requires WriteGlobal(env, g).Some?
    ensures ReadGlobal(env.version, WriteGlobal(env, g).value + rest) == Got(InfoOf(env, g), rest)
    ensures |WriteGlobal(env, g).value| >= SmallestGlobal(env.version)
  {
    RecordWritten(env, g);
    hide VarInt, ReadVarInt, WriteGlobal, InfoOf, ReadGlobal, FlagBytes;
    var v, info := env.version, InfoOf(env, g);
    var a, b, c, d, e := VarInt(info.name), VarInt(info.ty), VarInt(info.content), VarInt(info.alignment), FlagBytes(v, info);
    RecordSize(v, info);
    RecordParts(a, b, c, d, e, rest);
    var r4 := e + rest;
    var r3 := d + r4;
    var r2 := c + r3;
    var r1 := b + r2;
    VarIntRoundTrip(info.name, r1);
    VarIntRoundTrip(info.ty, r2);
    VarIntRoundTrip(info.content, r3);
    VarIntRoundTrip(info.alignment, r4);
    ReadInTurn(v, info, a + r1, r1, r2, r3, r4, rest);
  }

  lemma {:induction false} RecordsReadBack(env: Env, gs: seq<Global>, rest: bytes)
    requires WriteAllGlobals(env, gs).Some?
    ensures ReadAllGlobals(env.version, |gs|, WriteAllGlobals(env, gs).value + rest) == Got(InfosOf(env, gs), rest)
    ensures |WriteAllGlobals(env, gs).value| >= |gs| * SmallestGlobal(env.version)
  {
    hide WriteGlobal, ReadGlobal;
    if gs == [] {
      assert [] + rest == rest;
    } else {
      var head, tail := WriteGlobal(env, gs[0]).value, WriteAllGlobals(env, gs[1..]).value;
      Assoc(head, tail, rest);
      RecordReadBack(env, gs[0], tail + rest);
      RecordsReadBack(env, gs[1..], rest);
    }
  }

  /** The global made from a record is the written one, exactly if it has a name. */
  lemma {:induction false} GlobalCreated(w: Env, r: Env, g: Global)
    requires KnowsMore(w, r) && WriteGlobal(w, g).Some?
    ensures CreateGlobal(r, InfoOf(w, g)) == if g.name != [] then Some(g) else None
  {
    hide VarInt;
    assert ToWord(g.alignment, 64) >= 0;
  }

  lemma {:induction false} GlobalsCreated(w: Env, r: Env, gs: seq<Global>)
    requires KnowsMore(w, r) && WriteAllGlobals(w, gs).Some?
    ensures CreateGlobals(r, InfosOf(w, gs)) == if forall i :: 0 <= i < |gs| ==> gs[i].name != [] then Some(gs) else None
  {
    hide WriteGlobal, CreateGlobal, InfoOf, KnowsMore;
    if gs != [] {
      GlobalCreated(w, r, gs[0]);
      GlobalsCreated(w, r, gs[1..]);
      assert gs == [gs[0]] + gs[1..];
      assert ([InfoOf(w, gs[0])] + InfosOf(w, gs[1..]))[1..] == InfosOf(w, gs[1..]);
    }
  }

  /** The section is read back, whatever follows it; the globals are, exactly if all have a name. */
  lemma {:induction false} GlobalsRoundTrip(w: Env, r: Env, gs: seq<Global>, rest: bytes)
    requires KnowsMore(w, r) && WriteGlobals(w, gs).Some?
    ensures ReadGlobals(w.version, WriteGlobals(w, gs).value + rest).Some?
    ensures CreateGlobals(r, ReadGlobals(w.version, WriteGlobals(w, gs).value + rest).value) ==
            if forall i :: 0 <= i < |gs| ==> gs[i].name != [] then Some(gs) else None
  {
    hide WriteAllGlobals, ReadAllGlobals, CreateGlobals, InfosOf, KnowsMore, VarInt, ReadVarInt;
    var body := WriteAllGlobals(w, gs).value;
    Assoc(VarInt(|gs|), body, rest);
    VarIntRoundTrip(|gs|, body + rest);
    RecordsReadBack(w, gs, rest);
    Quotient(|gs|, SmallestGlobal(w.version), |body + rest|);
    GlobalsCreated(w, r, gs);
  }

  lemma {:induction false} Quotient(n: nat, k: nat, total: nat)
    requires k > 0 && n * k <= total
    ensures n <= total / k
  {
    if n > total / k {
      Tables.MulMonotone(k, total / k + 1, n);
    }
  }
}
