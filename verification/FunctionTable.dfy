/**
  The function table: one entry per function with its name, signature, flags, location list,
  optimization hints and body, and the functions the reader makes of the entries.
  */
module FunctionTables {
  import opened Base
  import opened VarInts
  import opened Encoding
  import opened Ir
  import opened DebugIr
  import opened AttrCodec
  import opened AttrRoundTrip
  import opened OpCodec
  import opened Bodies
  import opened BodyRoundTrip
  import opened Relocation

  datatype Function = Function(name: bytes, ins: seq<Type>, outs: seq<Type>, isPrivate: bool, isEntry: bool,
                               hints: Option<Attr>, loc: Debug, ops: seq<Op>)

  datatype Info = Info(name: nat, signature: nat, flag: byte, loc: nat, hints: Option<Attr>, body: bytes)

  // ---------------------------------------------------------------- which values are used

  function UsesOfGroups(groups: seq<seq<Value>>): set<Value> {
    if groups == [] then {} else (set v | v in groups[0]) + UsesOfGroups(groups[1..])
  }

  function UsesOfOp(op: Op): set<Value>
    decreases op, 0
  {
    UsesOfGroups(op.operands) + UsesOfRegions(op.regions)
  }

  function UsesOfRegions(regions: seq<Region>): set<Value>
    decreases regions, 0
  {
    if regions == [] then {} else UsesOfBlocks(regions[0].blocks) + UsesOfRegions(regions[1..])
  }

  function UsesOfBlocks(blocks: seq<Block>): set<Value>
    decreases blocks, 0
  {
    if blocks == [] then {} else UsesOfOps(blocks[0].ops) + UsesOfBlocks(blocks[1..])
  }

  function UsesOfOps(ops: seq<Op>): set<Value>
    decreases ops, 0
  {
    if ops == [] then {} else UsesOfOp(ops[0]) + UsesOfOps(ops[1..])
  }

  // ---------------------------------------------------------------- writing

  /** Bit 0: not public; bit 1: a kernel; bit 2: hints follow. */
  function Flag(f: Function): byte {
    (if f.isPrivate then 1 else 0) + if f.isEntry then (if f.hints.Some? then 6 else 2) else 0
  }

  function WriteHints(env: Env, f: Function): Option<bytes> {
    if f.isEntry && f.hints.Some? then WriteTagged(env, f.hints.value) else Some([])
  }

  function WriteBody(b: BodyEnv, f: Function): Option<bytes> {
    WriteFunction(b, UsesOfOps(f.ops), |f.ins|, f.ops)
  }

  /** `loc` is the index of the function's list of locations, 0 when it has none. */
  function WriteEntry(b: BodyEnv, f: Function, loc: nat): Option<bytes> {
    var name :- Index(b.env.strings, f.name);
    var signature :- Index(b.env.types, Some(Func(f.ins, f.outs)));
    var locIndex :- Count(loc);
    var hints :- WriteHints(b.env, f);
    var body :- WriteBody(b, f);
    var size :- Count(|body|);
    Some(name + (signature + ([Flag(f)] + (locIndex + (hints + (size + body))))))
  }

  function WriteAllEntries(b: BodyEnv, fs: seq<Function>, locs: seq<nat>): Option<bytes>
    requires |locs| == |fs|
  {
    if fs == [] then Some([])
    else
      var head :- WriteEntry(b, fs[0], locs[0]);
      var tail :- WriteAllEntries(b, fs[1..], locs[1..]);
      Some(head + tail)
  }

  function WriteFunctionTable(b: BodyEnv, fs: seq<Function>, locs: seq<nat>): Option<bytes>
    requires |locs| == |fs|
  {
    var count :- Count(|fs|);
    var entries :- WriteAllEntries(b, fs, locs);
    Some(count + (entries + Padding(|count + entries|, 8)))
  }

  // ---------------------------------------------------------------- reading

  function ReadByte(bs: bytes): Parsed<byte> {
    if bs == [] then Fail else Got(bs[0], bs[1..])
  }

  /** From 13.4 on an unknown flag bit is an error. */
  predicate FlagKnown(v: Version, flag: byte) {
    v.AtLeast(V13_4) ==> flag < 8
  }

  predicate IsKernel(flag: byte) {
    flag / 2 % 2 == 1
  }

  function ReadHints(env: Env, flag: byte, bs: bytes): Parsed<Option<Attr>> {
    if IsKernel(flag) && flag / 4 % 2 == 1 then
      var (a, rest) :- ReadTagged(env, bs);
      Got(Some(a), rest)
    else Got(None, bs)
  }

  function ReadSized(bs: bytes): Parsed<bytes> {
    var (size, rest) :- ReadVarInt(bs);
    if size > |rest| then Fail else Got(rest[..size], rest[size..])
  }

  function ReadInfo(env: Env, bs: bytes): Parsed<Info> {
    var (name, rest) :- ReadVarInt(bs);
    var (signature, rest1) :- ReadVarInt(rest);
    var (flag, rest2) :- ReadByte(rest1);
    var (loc, rest3) :- ReadVarInt(rest2);
    if !FlagKnown(env.version, flag) then Fail else
    var (hints, rest4) :- ReadHints(env, flag, rest3);
    var (body, rest5) :- ReadSized(rest4);
    Got(Info(name, signature, flag, loc, hints, body), rest5)
  }

  function ReadInfos(env: Env, count: nat, bs: bytes): (r: Parsed<seq<Info>>)
    ensures r.Got? ==> |r.value| == count
  {
    if count == 0 then Got([], bs)
    else
      var (head, rest) :- ReadInfo(env, bs);
      var (tail, rest') :- ReadInfos(env, count - 1, rest);
      Got([head] + tail, rest')
  }

  /** What follows the last entry is not looked at. */
  function ReadFunctionTable(env: Env, payload: bytes): Option<seq<Info>> {
    var count := ReadVarInt(payload);
    if !count.Got? || count.value > |payload| then None else
    var infos := ReadInfos(env, count.value, count.rest);
    if infos.Got? then Some(infos.value) else None
  }

  /** A function from its entry; only kernels are expected. `stream` holds its locations. */
  function CreateFunction(b: BodyEnv, hintsTag: nat, info: Info, stream: LocStream): Option<Function> {
    if info.name >= |b.env.strings| || b.env.strings[info.name] == [] then None
    else if info.signature >= |b.env.types| then None else
    var ty :- b.env.types[info.signature];
    if !ty.Func? then None else
    var (loc, stream') :- Next(stream);
    if info.hints.Some? && !(info.hints.value.Custom? && info.hints.value.tag == hintsTag) then None
    else if !IsKernel(info.flag) then None else
    var (ops, _) :- ReadFunction(b, |ty.ins|, stream', info.body);
    Some(Function(b.env.strings[info.name], ty.ins, ty.outs, info.flag % 2 == 1, true, info.hints, loc, ops))
  }

  // ---------------------------------------------------------------- round trip

  function WrittenHints(f: Function): Option<Attr> {
    if f.isEntry then f.hints else None
  }

  predicate HintsReadable(env: Env, f: Function) {
    WrittenHints(f).Some? ==> ReadableTagged(env, f.hints.value)
  }

  function InfoOf(b: BodyEnv, f: Function, loc: nat): Info
    requires WriteEntry(b, f, loc).Some?
  {
    Info(IndexOf(b.env.strings, f.name).value, IndexOf(b.env.types, Some(Func(f.ins, f.outs))).value, Flag(f), loc,
         WrittenHints(f), WriteBody(b, f).value)
  }

  lemma {:induction false} FlagBits(f: Function)
    ensures Flag(f) < 8 && (Flag(f) % 2 == 1 <==> f.isPrivate) && (IsKernel(Flag(f)) <==> f.isEntry)
    ensures IsKernel(Flag(f)) && Flag(f) / 4 % 2 == 1 <==> WrittenHints(f).Some?
  {
  }

  lemma {:induction false} HintsRoundTrip(env: Env, f: Function, rest: bytes)
    requires SchemasOk(env.attrs) && WriteHints(env, f).Some?
    ensures ReadHints(env, Flag(f), WriteHints(env, f).value + rest) ==
            if HintsReadable(env, f) then Got(WrittenHints(f), rest) else Fail
  {
    hide WriteTagged, ReadTagged, ReadableTagged, Flag, IsKernel;
    FlagBits(f);
    if WrittenHints(f).Some? {
      TaggedRoundTrip(env, env, f.hints.value, rest);
    } else {
      assert [] + rest == rest;
    }
  }

  lemma {:induction false} SizedRoundTrip(body: bytes, rest: bytes)
    requires |body| < TWO_TO_THE_64
    ensures ReadSized(VarInt(|body|) + (body + rest)) == Got(body, rest)
  {
    hide VarInt, ReadVarInt;
    VarIntRoundTrip(|body|, body + rest);
    assert (body + rest)[..|body|] == body && (body + rest)[|body|..] == rest;
  }

  lemma {:induction false} EntryBytes(a: bytes, b: bytes, c: bytes, d: bytes, e: bytes, f: bytes, g: bytes, rest: bytes)
    ensures a + (b + (c + (d + (e + (f + g))))) + rest == a + (b + (c + (d + (e + (f + (g + rest))))))
  {
    Assoc(a, b + (c + (d + (e + (f + g)))), rest);
    Assoc(b, c + (d + (e + (f + g))), rest);
    Assoc(c, d + (e + (f + g)), rest);
    Assoc(d, e + (f + g), rest);
    Assoc(e, f + g, rest);
    Assoc(f, g, rest);
  }

  lemma {:induction false} InfoRoundTrip(b: BodyEnv, f: Function, loc: nat, rest: bytes)
    requires SchemasOk(b.env.attrs) && WriteEntry(b, f, loc).Some?
    ensures ReadInfo(b.env, WriteEntry(b, f, loc).value + rest) ==
            if HintsReadable(b.env, f) then Got(InfoOf(b, f, loc), rest) else Fail
  {
    hide VarInt, ReadVarInt, ReadHints, WriteHints, WriteBody, ReadSized, HintsReadable, Flag, IsKernel, WrittenHints;
    var name, signature := IndexOf(b.env.strings, f.name).value, IndexOf(b.env.types, Some(Func(f.ins, f.outs))).value;
    var hints, body := WriteHints(b.env, f).value, WriteBody(b, f).value;
    EntryBytes(VarInt(name), VarInt(signature), [Flag(f)], VarInt(loc), hints, VarInt(|body|), body, rest);
    var after5 := VarInt(|body|) + (body + rest);
    var after2 := [Flag(f)] + (VarInt(loc) + (hints + after5));
    VarIntRoundTrip(name, VarInt(signature) + after2);
    VarIntRoundTrip(signature, after2);
    assert after2[1..] == VarInt(loc) + (hints + after5);
    VarIntRoundTrip(loc, hints + after5);
    FlagBits(f);
    HintsRoundTrip(b.env, f, after5);
    SizedRoundTrip(body, rest);
  }

  function InfosOf(b: BodyEnv, fs: seq<Function>, locs: seq<nat>): (r: seq<Info>)
    requires |locs| == |fs| && WriteAllEntries(b, fs, locs).Some?
    ensures |r| == |fs|
  {
    if fs == [] then [] else [InfoOf(b, fs[0], locs[0])] + InfosOf(b, fs[1..], locs[1..])
  }

  predicate AllHintsReadable(env: Env, fs: seq<Function>) {
    forall i :: 0 <= i < |fs| ==> HintsReadable(env, fs[i])
  }

  lemma {:induction false} InfosRoundTrip(b: BodyEnv, fs: seq<Function>, locs: seq<nat>, rest: bytes)
    requires SchemasOk(b.env.attrs) && |locs| == |fs| && WriteAllEntries(b, fs, locs).Some?
    ensures ReadInfos(b.env, |fs|, WriteAllEntries(b, fs, locs).value + rest) ==
            if AllHintsReadable(b.env, fs) then Got(InfosOf(b, fs, locs), rest) else Fail
    ensures |WriteAllEntries(b, fs, locs).value| >= |fs|
    decreases |fs|
  {
    hide WriteEntry, ReadInfo, HintsReadable, InfoOf, SchemasOk;
    if fs == [] {
      assert [] + rest == rest;
    } else {
      var head, tail := WriteEntry(b, fs[0], locs[0]).value, WriteAllEntries(b, fs[1..], locs[1..]).value;
      Assoc(head, tail, rest);
      InfoRoundTrip(b, fs[0], locs[0], tail + rest);
      InfosRoundTrip(b, fs[1..], locs[1..], rest);
      EntryIsNotEmpty(b, fs[0], locs[0]);
      assert fs == [fs[0]] + fs[1..];
    }
  }

  lemma {:induction false} EntryIsNotEmpty(b: BodyEnv, f: Function, loc: nat)
    requires WriteEntry(b, f, loc).Some?
    ensures |WriteEntry(b, f, loc).value| >= 1
  {
    hide WriteBody, WriteHints;
  }

  /** The table is read back entry by entry, whatever padding follows, if the hints can be read. */
  lemma {:induction false} FunctionTableRoundTrip(b: BodyEnv, fs: seq<Function>, locs: seq<nat>)
    requires SchemasOk(b.env.attrs) && |locs| == |fs| && WriteFunctionTable(b, fs, locs).Some?
    ensures ReadFunctionTable(b.env, WriteFunctionTable(b, fs, locs).value) ==
            if AllHintsReadable(b.env, fs) then Some(InfosOf(b, fs, locs)) else None
  {
    hide VarInt, ReadVarInt, WriteAllEntries, ReadInfos, InfosOf, AllHintsReadable, SchemasOk;
    var entries := WriteAllEntries(b, fs, locs).value;
    var padding := Padding(|VarInt(|fs|) + entries|, 8);
    VarIntRoundTrip(|fs|, entries + padding);
    InfosRoundTrip(b, fs, locs, padding);
  }

  /** The function with its locations as they come back. */
  function Relocated(f: Function, relabel: Relabel): Function {
    f.(loc := relabel(f.loc), ops := MapOps(relabel, f.ops), hints := WrittenHints(f))
  }

  /** Which functions come back: named kernels with a faithful body. */
  predicate FunctionFaithful(b: BodyEnv, f: Function) {
    f.name != [] && f.isEntry && FaithfulOps(b, ArgumentsOf([], |f.ins|), [], 0, f.ops)
  }

  predicate HintsTyped(hintsTag: nat, f: Function) {
    f.hints.Some? ==> f.hints.value.Custom? && f.hints.value.tag == hintsTag
  }

  lemma {:induction false} StreamSplits(stream: LocStream, relabel: Relabel, loc: Debug, locs: seq<Debug>)
    requires Shows(stream, relabel, [loc] + locs)
    ensures Next(stream).Some? && Next(stream).value.0 == relabel(loc) && Shows(Next(stream).value.1, relabel, locs)
  {
    MapLocsSum(relabel, [loc], locs);
    var mapped := MapLocs(relabel, [loc] + locs);
    assert mapped[0] == relabel(loc) && mapped[1..] == MapLocs(relabel, locs);
  }

  /** The reader makes the same function of an entry, relocated, exactly when the function is faithful. */
  lemma {:induction false} FunctionCreated(b: BodyEnv, hintsTag: nat, f: Function, loc: nat, relabel: Relabel,
                                           stream: LocStream)
    requires LinkedBodies(b, b) && HintsTyped(hintsTag, f) && WriteEntry(b, f, loc).Some?
    requires Shows(stream, relabel, [f.loc] + LocsOfOps(f.ops))
    ensures CreateFunction(b, hintsTag, InfoOf(b, f, loc), stream) == Some(Relocated(f, relabel)) <==> FunctionFaithful(b, f)
  {
    hide LinkedBodies, Flag, IsKernel, FaithfulOps, ReadFunction, WriteFunction, MapOps, LocsOfOps, WriteHints,
         VarInt, Shows, UsesOfOps;
    StreamSplits(stream, relabel, f.loc, LocsOfOps(f.ops));
    FlagBits(f);
    FunctionReadBack(b, b, UsesOfOps(f.ops), |f.ins|, f.ops, relabel, Next(stream).value.1);
  }
}
