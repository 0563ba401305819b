/**
  Whole files: the writer puts the globals, the function table, the constants, the debug information, the
  types, the producer and the strings into sections; the reader takes them apart again, builds
  the tables in the order in which they depend on each other, and then the functions.
  */
module ModuleFiles {
  import opened Base
  import opened VarInts
  import opened Ir
  import opened DebugIr
  import opened AttrCodec
  import opened AttrRoundTrip
  import opened OpCodec
  import opened TypeCodec
  import TypeRoundTrip
  import opened TypeTables
  import opened LazyTables
  import opened Tables
  import opened DebugInfos
  import opened DebugSections
  import opened Bodies
  import opened BodyRoundTrip
  import opened Relocation
  import opened FunctionTables
  import opened Opcodes
  import TypeManagers
  import Globals
  import opened Sections

  /** What the two sides are built from: schemas, opcodes and versions. */
  datatype Format = Format(attrs: map<nat, AttrSchema>, builtins: map<nat, Version>, parametric: map<nat, TypeSchema>,
                           schemas: map<nat, OpSchema>, opcodes: map<Version, nat>, supported: set<Version>, hintsTag: nat)

  /** The tables as the writer's managers leave them. */
  datatype TableSet = TableSet(strings: seq<bytes>, types: seq<Type>, constants: seq<bytes>, debug: seq<Debug>,
                               lists: seq<seq<nat>>)

  datatype Module = Module(functions: seq<Function>, globals: seq<Globals.Global>, producer: Option<bytes>)

  /** What the reader makes of a file; without a producer it assumes the empty one. */
  datatype Loaded = Loaded(functions: seq<Function>, globals: seq<Globals.Global>, producer: bytes)

  function EnvOf(c: Format, v: Version, strings: seq<bytes>, types: seq<Option<Type>>, constants: seq<bytes>): Env {
    Env(v, strings, types, constants, c.attrs)
  }

  /** The environment of the type table, before any type is known. */
  function TypeEnvOf(c: Format, v: Version, strings: seq<bytes>, constants: seq<bytes>): TypeEnv {
    TypeEnv(EnvOf(c, v, strings, [], constants), c.builtins, c.parametric)
  }

  function BodyEnvOf(c: Format, v: Version, strings: seq<bytes>, types: seq<Option<Type>>, constants: seq<bytes>): BodyEnv {
    BodyEnv(EnvOf(c, v, strings, types, constants), c.schemas, GateOf(c.opcodes, v))
  }

  // ---------------------------------------------------------------- writing

  function TypeEntries(t: TypeEnv, types: seq<Type>): (r: Option<seq<bytes>>)
    ensures r.Some? ==> |r.value| == |types| && forall i :: 0 <= i < |types| ==> WriteType(t, types[i]) == Some(r.value[i])
  {
    if types == [] then Some([])
    else
      var head :- WriteType(t, types[0]);
      var tail :- TypeEntries(t, types[1..]);
      Some([head] + tail)
  }

  function DebugEntries(strings: seq<bytes>, list: seq<Debug>, rest: seq<Debug>): (r: Option<seq<bytes>>)
    ensures r.Some? ==> |r.value| == |rest| && forall i :: 0 <= i < |rest| ==> WriteDebug(strings, list, rest[i]) == Some(r.value[i])
    decreases |rest|
  {
    if rest == [] then Some([])
    else
      var head :- WriteDebug(strings, list, rest[0]);
      var tail :- DebugEntries(strings, list, rest[1..]);
      Some([head] + tail)
  }

  /** A section that may be left out. */
  datatype Candidate = Candidate(present: bool, section: Section)

  function Chosen(cs: seq<Candidate>): seq<Section> {
    if cs == [] then [] else (if cs[0].present then [cs[0].section] else []) + Chosen(cs[1..])
  }

  predicate HasProducer(v: Version, m: Module) {
    v.AtLeast(V13_3) && m.producer.Some?
  }

  /** The payloads in the order in which they are written. */
  datatype Parts = Parts(globals: bytes, functions: bytes, types: seq<bytes>, debug: seq<bytes>, producer: bytes)

  function PartsOf(c: Format, v: Version, tb: TableSet, m: Module, locs: seq<nat>): Option<Parts>
    requires |locs| == |m.functions|
  {
    var globals :- if m.globals != [] then Globals.WriteGlobals(EnvOf(c, v, tb.strings, Full(tb.types), tb.constants), m.globals)
                   else Some([]);
    var functions :- WriteFunctionTable(BodyEnvOf(c, v, tb.strings, Full(tb.types), tb.constants), m.functions, locs);
    if exists i :: 0 <= i < |tb.constants| && tb.constants[i] == [] then None else
    var debug :- DebugEntries(tb.strings, tb.debug, tb.debug);
    var types :- TypeEntries(With(TypeEnvOf(c, v, tb.strings, tb.constants), Full(tb.types)), tb.types);
    var producer :- if HasProducer(v, m) then Index(tb.strings, m.producer.value) else Some([]);
    Some(Parts(globals, functions, types, debug, producer))
  }

  function Candidates(v: Version, tb: TableSet, m: Module, p: Parts): seq<Candidate> {
    [Candidate(m.globals != [], Section(GLOBAL, p.globals, 1)),
     Candidate(true, Section(FUNC, p.functions, 8)),
     Candidate(tb.constants != [], Section(CONSTANT, TablePayload(tb.constants, 8), 8)),
     Candidate(tb.lists != [] || tb.debug != [], Section(DEBUG, DebugPayload(tb.lists, p.debug), 8)),
     Candidate(true, Section(TYPE, TablePayload(p.types, 4), 4)),
     Candidate(HasProducer(v, m), Section(PRODUCER, p.producer, 1)),
     Candidate(true, Section(STRING, TablePayload(tb.strings, 4), 4))]
  }

  function Ids(cs: seq<Candidate>): set<nat> {
    if cs == [] then {} else {cs[0].section.id} + Ids(cs[1..])
  }

  lemma {:induction false} ChosenAreSmall(cs: seq<Candidate>)
    requires forall id :: id in Ids(cs) ==> id < 128
    ensures SmallIds(Chosen(cs))
  {
    if cs != [] {
      assert Ids(cs) == {cs[0].section.id} + Ids(cs[1..]);
      ChosenAreSmall(cs[1..]);
    }
  }

  lemma {:induction false} IdsOfCandidates(v: Version, tb: TableSet, m: Module, p: Parts)
    ensures Ids(Candidates(v, tb, m, p)) == {GLOBAL, FUNC, CONSTANT, DEBUG, TYPE, PRODUCER, STRING}
  {
    hide TablePayload, DebugPayload;
    var cs := Candidates(v, tb, m, p);
    assert Ids(cs[7..]) == {};
    assert cs[6..][1..] == cs[7..] && cs[5..][1..] == cs[6..] && cs[4..][1..] == cs[5..] && cs[3..][1..] == cs[4..];
    assert cs[2..][1..] == cs[3..] && cs[1..][1..] == cs[2..];
    assert Ids(cs[6..]) == {STRING};
    assert Ids(cs[5..]) == {PRODUCER, STRING};
    assert Ids(cs[4..]) == {TYPE, PRODUCER, STRING};
    assert Ids(cs[3..]) == {DEBUG, TYPE, PRODUCER, STRING};
    assert Ids(cs[2..]) == {CONSTANT, DEBUG, TYPE, PRODUCER, STRING};
    assert Ids(cs[1..]) == {FUNC, CONSTANT, DEBUG, TYPE, PRODUCER, STRING};
  }

  lemma {:induction false} CandidatesAreSmall(v: Version, tb: TableSet, m: Module, p: Parts)
    ensures SmallIds(Chosen(Candidates(v, tb, m, p)))
  {
    hide Candidates;
    IdsOfCandidates(v, tb, m, p);
    ChosenAreSmall(Candidates(v, tb, m, p));
  }

  /** `locs` holds for every function the index of its list of locations. */
  function WriteModule(c: Format, v: Version, tb: TableSet, m: Module, locs: seq<nat>): Option<bytes>
    requires |locs| == |m.functions|
  {
    var p :- PartsOf(c, v, tb, m, locs);
    CandidatesAreSmall(v, tb, m, p);
    WriteFile(v, Chosen(Candidates(v, tb, m, p)))
  }

  // ---------------------------------------------------------------- reading

  function OptionalTypes(found: map<nat, bytes>): Option<seq<Option<bytes>>> {
    if TYPE in found then ReadLazyTable(found[TYPE], 4) else Some([])
  }

  function OptionalConstants(found: map<nat, bytes>): Option<seq<bytes>> {
    if CONSTANT in found then ReadTable(found[CONSTANT], 8) else Some([])
  }

  function OptionalDebug(found: map<nat, bytes>): Option<DebugData> {
    if DEBUG in found then ReadDebugSection(found[DEBUG]) else Some(DebugData([], [], []))
  }

  function ReadProducer(found: map<nat, bytes>, strings: seq<bytes>): Option<bytes> {
    if PRODUCER !in found then Some([])
    else
      var producer := ReadIndex(found[PRODUCER], strings);
      if producer.Got? then Some(producer.value) else None
  }

  function OptionalGlobals(v: Version, found: map<nat, bytes>): Option<seq<Globals.GlobalInfo>> {
    if GLOBAL in found then Globals.ReadGlobals(v, found[GLOBAL]) else Some([])
  }

  function CreateAll(b: BodyEnv, hintsTag: nat, infos: seq<Info>, d: DebugData,
                     table: seq<Option<Debug>>): Option<seq<Function>> {
    if infos == [] then Some([])
    else
      var head :- CreateFunction(b, hintsTag, infos[0], StreamAt(d, table, infos[0].loc));
      var tail :- CreateAll(b, hintsTag, infos[1..], d, table);
      Some([head] + tail)
  }

  /** All entries first, then the functions. */
  function LoadFunctions(b: BodyEnv, hintsTag: nat, payload: bytes, d: DebugData,
                         table: seq<Option<Debug>>): Option<seq<Function>> {
    var infos :- ReadFunctionTable(b.env, payload);
    CreateAll(b, hintsTag, infos, d, table)
  }

  /** The sections in the order of their dependencies; strings and functions are mandatory. */
  ghost function ReadModule(c: Format, data: bytes): Option<Loaded> {
    var v :- ReadFileHeader(data, c.supported);
    var found :- Discover(data, HEADER_SIZE, map[]);
    LoadSections(c, v, found)
  }

  ghost function LoadSections(c: Format, v: Version, found: map<nat, bytes>): Option<Loaded> {
    if STRING !in found then None else
    var strings :- ReadStrings(found[STRING]);
    var producer :- ReadProducer(found, strings);
    var typeEntries :- OptionalTypes(found);
    var constants :- OptionalConstants(found);
    var globalInfos :- OptionalGlobals(v, found);
    var debug :- OptionalDebug(found);
    if FUNC !in found then None else
    var types := Decoded(|typeEntries|, TypeParser(TypeEnvOf(c, v, strings, constants), typeEntries));
    var debugTable := Decoded(|debug.entries|, DebugParser(strings, debug.entries));
    var b := BodyEnvOf(c, v, strings, types, constants);
    var globals :- Globals.CreateGlobals(b.env, globalInfos);
    var functions :- LoadFunctions(b, c.hintsTag, found[FUNC], debug, debugTable);
    Some(Loaded(functions, globals, producer))
  }

  // ---------------------------------------------------------------- sections

  function Find(ss: seq<Section>, id: nat): Option<bytes> {
    if ss == [] then None else if ss[0].id == id then Some(ss[0].payload) else Find(ss[1..], id)
  }

  predicate CandidatesOk(cs: seq<Candidate>) {
    cs == [] ||
    ((cs[0].present ==> SectionOk(cs[0].section)) && cs[0].section.id !in Ids(cs[1..]) && CandidatesOk(cs[1..]))
  }

  lemma {:induction false} ChosenAreOk(cs: seq<Candidate>)
    requires CandidatesOk(cs)
    ensures SectionsOk(Chosen(cs)) && forall i :: 0 <= i < |Chosen(cs)| ==> Chosen(cs)[i].id in Ids(cs)
  {
    hide SectionOk;
    if cs != [] {
      ChosenAreOk(cs[1..]);
    }
  }

  lemma {:induction false} InIds(cs: seq<Candidate>, i: nat)
    requires i < |cs|
    ensures cs[i].section.id in Ids(cs)
  {
    if i > 0 {
      InIds(cs[1..], i - 1);
    }
  }

  lemma {:induction false} FindCons(present: bool, s: Section, rest: seq<Section>, id: nat)
    ensures Find((if present then [s] else []) + rest, id) == if present && s.id == id then Some(s.payload) else Find(rest, id)
  {
    if present {
      assert ([s] + rest)[1..] == rest;
    } else {
      assert [] + rest == rest;
    }
  }

  lemma {:induction false} FindChosen(cs: seq<Candidate>, i: nat)
    requires CandidatesOk(cs) && i < |cs|
    ensures Find(Chosen(cs), cs[i].section.id) == if cs[i].present then Some(cs[i].section.payload) else None
  {
    hide SectionOk;
    FindCons(cs[0].present, cs[0].section, Chosen(cs[1..]), cs[i].section.id);
    if i > 0 {
      InIds(cs[1..], i - 1);
      FindChosen(cs[1..], i - 1);
    } else if !cs[0].present {
      NotChosen(cs[1..], cs[0].section.id);
    }
  }

  lemma {:induction false} NotChosen(cs: seq<Candidate>, id: nat)
    requires id !in Ids(cs)
    ensures Find(Chosen(cs), id) == None
  {
    if cs != [] {
      NotChosen(cs[1..], id);
      FindCons(cs[0].present, cs[0].section, Chosen(cs[1..]), id);
    }
  }

  lemma {:induction false} FoundUnderId(ss: seq<Section>, id: nat)
    requires SectionsOk(ss)
    ensures id in Payloads(ss, map[]) <==> Find(ss, id).Some?
    ensures Find(ss, id).Some? ==> Payloads(ss, map[])[id] == Find(ss, id).value
  {
    hide SectionOk, Payloads;
    if Find(ss, id).Some? {
      var i := FindsAt(ss, id);
      PayloadOf(ss, map[], i);
    } else {
      FindsNothing(ss, id);
      KeptPayload(ss, map[], id);
    }
  }

  lemma {:induction false} FindsAt(ss: seq<Section>, id: nat) returns (i: nat)
    requires Find(ss, id).Some?
    ensures i < |ss| && ss[i].id == id && ss[i].payload == Find(ss, id).value
  {
    if ss[0].id == id {
      i := 0;
    } else {
      var j := FindsAt(ss[1..], id);
      i := j + 1;
    }
  }

  lemma {:induction false} FindsNothing(ss: seq<Section>, id: nat)
    requires Find(ss, id).None?
    ensures forall i :: 0 <= i < |ss| ==> ss[i].id != id
  {
    if ss != [] {
      FindsNothing(ss[1..], id);
      assert ss == [ss[0]] + ss[1..];
    }
  }

  // ---------------------------------------------------------------- what the two sides agree on

  function Unknown(d: Debug): Debug {
    UnknownLoc
  }

  /** A function without a list of its own shows no location at all. */
  function RelabelOf(loc: nat): Relabel {
    if loc == 0 then Unknown else Plain
  }

  /** The list of a function holds its own location and those of its operations. */
  predicate LocsRecorded(recorded: seq<seq<Debug>>, f: Function, loc: nat) {
    if loc == 0 then Reserved(f.loc)
    else loc <= |recorded| && recorded[loc - 1] == [f.loc] + LocsOfOps(f.ops)
  }

  /** What the managers keep: types and debug attributes in order, lists indexed, locations recorded. */
  predicate ManagersKeep(tb: TableSet, m: Module, locs: seq<nat>, recorded: seq<seq<Debug>>)
    requires |locs| == |m.functions|
  {
    && TypeManagers.InOrder(tb.types) && Closed(tb.debug)
    && Indexed(tb.debug, recorded, tb.lists) && (tb.lists != [] ==> tb.debug != [])
    && forall i :: 0 <= i < |locs| ==> LocsRecorded(recorded, m.functions[i], locs[i])
  }

  /** The definitions the two sides are generated from are sound. */
  predicate FormatOk(c: Format, v: Version, tb: TableSet) {
    TypeRoundTrip.EnvOk(TypeEnvOf(c, v, tb.strings, tb.constants)) &&
    BodyOk(BodyEnvOf(c, v, tb.strings, Full(tb.types), tb.constants))
  }

  /** What the types of the IR guarantee: debug attributes and hints of the right classes. */
  predicate IrTyped(c: Format, tb: TableSet, m: Module) {
    && (forall i :: 0 <= i < |tb.debug| ==> WellTyped(tb.debug[i]))
    && forall i :: 0 <= i < |m.functions| ==> HintsTyped(c.hintsTag, m.functions[i])
  }

  /** No type loses a legacy optional parameter, or refers to a scalar type that comes later. */
  predicate TypesSurvive(c: Format, v: Version, tb: TableSet) {
    TypesKept(TypeEnvOf(c, v, tb.strings, tb.constants), tb.types)
  }

  /** Counts and sizes stay inside the widths of the format. */
  predicate Fits(tb: TableSet, p: Parts) {
    && |tb.strings| < TWO_TO_THE_64 && |Concat(tb.strings)| < TWO_TO_THE_32
    && |p.types| < TWO_TO_THE_64 && |Concat(p.types)| < TWO_TO_THE_32
    && |tb.constants| <= MAX_COUNT && |Concat(tb.constants)| < TWO_TO_THE_64
    && DebugFits(tb.lists, p.debug)
    && |p.globals| < TWO_TO_THE_64 && |p.functions| < TWO_TO_THE_64 && |TablePayload(tb.constants, 8)| < TWO_TO_THE_64
    && |DebugPayload(tb.lists, p.debug)| < TWO_TO_THE_64 && |TablePayload(p.types, 4)| < TWO_TO_THE_64
    && |p.producer| < TWO_TO_THE_64 && |TablePayload(tb.strings, 4)| < TWO_TO_THE_64
  }

  predicate VersionOk(c: Format, v: Version) {
    v in c.supported && v.AtLeast(MIN_SUPPORTED_VERSION) && v.major < 256 && v.minor < 256 && v.tag < 0x1_0000
  }

  function RelocatedAll(fs: seq<Function>, locs: seq<nat>): (r: seq<Function>)
    requires |locs| == |fs|
    ensures |r| == |fs|
  {
    if fs == [] then [] else [Relocated(fs[0], RelabelOf(locs[0]))] + RelocatedAll(fs[1..], locs[1..])
  }

  /** The module as it comes back: locations relabelled, and the producer only if the version has one. */
  function Returned(v: Version, m: Module, locs: seq<nat>): Loaded
    requires |locs| == |m.functions|
  {
    Loaded(RelocatedAll(m.functions, locs), m.globals, if HasProducer(v, m) then m.producer.value else [])
  }

  /** Every function is a named kernel with readable hints and a faithful body, and every global has a name. */
  predicate ModuleFaithful(b: BodyEnv, m: Module) {
    FunctionsFaithful(b, m) && forall i :: 0 <= i < |m.globals| ==> m.globals[i].name != []
  }

  predicate FunctionsFaithful(b: BodyEnv, m: Module) {
    forall i :: 0 <= i < |m.functions| ==> HintsReadable(b.env, m.functions[i]) && FunctionFaithful(b, m.functions[i])
  }

  // ---------------------------------------------------------------- the sections are found

  lemma {:induction false} AlignmentsOk()
    ensures PowerOfTwo(1) && PowerOfTwo(4) && PowerOfTwo(8)
  {
    assert PowerOfTwo(2);
    assert PowerOfTwo(4);
  }

  lemma {:induction false} CandidatesFit(v: Version, tb: TableSet, m: Module, p: Parts)
    requires Fits(tb, p)
    ensures CandidatesOk(Candidates(v, tb, m, p))
  {
    AlignmentsOk();
    hide TablePayload, DebugPayload, Concat, DebugFits, PowerOfTwo, HasProducer;
    var cs := Candidates(v, tb, m, p);
    assert cs[6..][1..] == [] && cs[5..][1..] == cs[6..] && cs[4..][1..] == cs[5..] && cs[3..][1..] == cs[4..];
    assert cs[2..][1..] == cs[3..] && cs[1..][1..] == cs[2..];
    assert Ids(cs[6..]) == {STRING} && CandidatesOk(cs[6..]);
    assert Ids(cs[5..]) == {PRODUCER, STRING} && CandidatesOk(cs[5..]);
    assert Ids(cs[4..]) == {TYPE, PRODUCER, STRING} && CandidatesOk(cs[4..]);
    assert Ids(cs[3..]) == {DEBUG, TYPE, PRODUCER, STRING} && CandidatesOk(cs[3..]);
    assert Ids(cs[2..]) == {CONSTANT, DEBUG, TYPE, PRODUCER, STRING} && CandidatesOk(cs[2..]);
    assert Ids(cs[1..]) == {FUNC, CONSTANT, DEBUG, TYPE, PRODUCER, STRING} && CandidatesOk(cs[1..]);
  }

  function PayloadIf(present: bool, payload: bytes): Option<bytes> {
    if present then Some(payload) else None
  }

  function Lookup(found: map<nat, bytes>, id: nat): Option<bytes> {
    if id in found then Some(found[id]) else None
  }

  /** What the reader finds under an identifier. */
  lemma {:induction false} CandidateFound(cs: seq<Candidate>, i: nat)
    requires CandidatesOk(cs) && i < |cs|
    ensures Lookup(Payloads(Chosen(cs), map[]), cs[i].section.id) == PayloadIf(cs[i].present, cs[i].section.payload)
  {
    hide CandidatesOk, Payloads;
    ChosenAreOk(cs);
    FindChosen(cs, i);
    FoundUnderId(Chosen(cs), cs[i].section.id);
  }

  lemma {:induction false} AllFound(v: Version, tb: TableSet, m: Module, p: Parts)
    requires Fits(tb, p)
    ensures var found := Payloads(Chosen(Candidates(v, tb, m, p)), map[]);
            && Lookup(found, GLOBAL) == PayloadIf(m.globals != [], p.globals)
            && Lookup(found, FUNC) == Some(p.functions)
            && Lookup(found, CONSTANT) == PayloadIf(tb.constants != [], TablePayload(tb.constants, 8))
            && Lookup(found, DEBUG) == PayloadIf(tb.lists != [] || tb.debug != [], DebugPayload(tb.lists, p.debug))
            && Lookup(found, TYPE) == Some(TablePayload(p.types, 4))
            && Lookup(found, PRODUCER) == PayloadIf(HasProducer(v, m), p.producer)
            && Lookup(found, STRING) == Some(TablePayload(tb.strings, 4))
  {
    hide TablePayload, DebugPayload, Payloads, Chosen, CandidatesOk, Lookup;
    var cs := Candidates(v, tb, m, p);
    CandidatesFit(v, tb, m, p);
    CandidateFound(cs, 0);
    CandidateFound(cs, 1);
    CandidateFound(cs, 2);
    CandidateFound(cs, 3);
    CandidateFound(cs, 4);
    CandidateFound(cs, 5);
    CandidateFound(cs, 6);
  }

  // ---------------------------------------------------------------- the tables are rebuilt

  lemma {:induction false} TypesRebuilt(t: TypeEnv, types: seq<Type>, entries: seq<bytes>)
    requires TypeRoundTrip.EnvOk(t) && TypeManagers.InOrder(types) && TypesKept(t, types)
    requires TypeEntries(With(t, Full(types)), types) == Some(entries)
    ensures Decoded(|entries|, TypeParser(t, Full(entries))) == Full(types)
  {
    hide TypeManagers.InOrder, TypesKept, TypeRoundTrip.EnvOk, TypeEntries, Decoded;
    assert WrittenAs(t, types, Full(entries));
    TypeTableRoundTrip(t, types, Full(entries));
  }

  lemma {:induction false} DebugRebuilt(strings: seq<bytes>, list: seq<Debug>, entries: seq<bytes>)
    requires Closed(list) && DebugEntries(strings, list, list) == Some(entries)
    requires forall i :: 0 <= i < |list| ==> WellTyped(list[i])
    ensures Resolves(list, |list|, Decoded(|entries|, DebugParser(strings, Full(entries))))
  {
    hide Closed, WellTyped, DebugEntries, Decoded;
    assert WrittenTable(strings, list, Full(entries));
    DebugTableRoundTrip(strings, list, Full(entries));
  }

  lemma {:induction false} PlainShows(found: seq<Debug>, locs: seq<Debug>)
    requires PlainAll(locs) <= found
    ensures Shows(Listed(found), Plain, locs)
  {
    hide Plain;
    assert MapLocs(Plain, locs) == PlainAll(locs);
  }

  lemma {:induction false} HiddenShows(locs: seq<Debug>)
    ensures Shows(Hidden, Unknown, locs)
  {
    hide MapLocs;
  }

  /** The stream of a function shows its locations, relabelled. */
  lemma {:induction false} StreamShows(list: seq<Debug>, recorded: seq<seq<Debug>>, lists: seq<seq<nat>>, d: DebugData,
                                       table: seq<Option<Debug>>, f: Function, loc: nat)
    requires Resolves(list, |list|, table) && Indexed(list, recorded, lists) && LocsRecorded(recorded, f, loc)
    requires loc > 0 ==> d.indexOffsets == Offsets(lists, 0) && d.indices == Concat(lists) && |Concat(lists)| <= MAX_COUNT
    ensures Shows(StreamAt(d, table, loc), RelabelOf(loc), [f.loc] + LocsOfOps(f.ops))
  {
    hide Resolves, Indexed, LocsOfOps, Found, Offsets, Concat, Shows, MapLocs, PlainAll, Plain;
    var locs := [f.loc] + LocsOfOps(f.ops);
    if loc > 0 {
      StreamIsRecorded(list, recorded, lists, d.entries, table, loc - 1);
      assert d == DebugData(Offsets(lists, 0), Concat(lists), d.entries);
      PlainShows(StreamAt(d, table, loc).locs, locs);
    } else {
      HiddenShows(locs);
    }
  }

  lemma {:induction false} InfosStep(b: BodyEnv, fs: seq<Function>, locs: seq<nat>)
    requires |locs| == |fs| > 0 && WriteAllEntries(b, fs, locs).Some?
    ensures WriteEntry(b, fs[0], locs[0]).Some? && WriteAllEntries(b, fs[1..], locs[1..]).Some?
    ensures InfosOf(b, fs, locs) == [InfoOf(b, fs[0], locs[0])] + InfosOf(b, fs[1..], locs[1..])
    ensures InfoOf(b, fs[0], locs[0]).loc == locs[0]
  {
    hide WriteEntry;
  }

  lemma {:induction false} NoInfos(b: BodyEnv)
    ensures WriteAllEntries(b, [], []).Some? && InfosOf(b, [], []) == []
  {
  }

  /** All functions come back, each relabelled, exactly when every one is faithful. */
  lemma {:induction false} FunctionsCreated(b: BodyEnv, hintsTag: nat, fs: seq<Function>, locs: seq<nat>, list: seq<Debug>,
                                            recorded: seq<seq<Debug>>, lists: seq<seq<nat>>, d: DebugData,
                                            table: seq<Option<Debug>>)
    requires BodyOk(b) && SchemasOk(b.env.attrs) && |locs| == |fs| && WriteAllEntries(b, fs, locs).Some?
    requires Resolves(list, |list|, table) && Indexed(list, recorded, lists)
    requires forall i :: 0 <= i < |fs| ==> LocsRecorded(recorded, fs[i], locs[i]) && HintsTyped(hintsTag, fs[i])
    requires (exists i :: 0 <= i < |locs| && locs[i] > 0) ==>
               d.indexOffsets == Offsets(lists, 0) && d.indices == Concat(lists) && |Concat(lists)| <= MAX_COUNT
    ensures CreateAll(b, hintsTag, InfosOf(b, fs, locs), d, table) == Some(RelocatedAll(fs, locs)) <==>
            forall i :: 0 <= i < |fs| ==> FunctionFaithful(b, fs[i])
    decreases |fs|
  {
    hide BodyOk, SchemasOk, Resolves, Indexed, LocsRecorded, HintsTyped, WriteAllEntries, InfosOf, InfoOf,
         CreateFunction, FunctionFaithful, StreamAt, Shows, Relocated, RelabelOf, Offsets, Concat;
    if fs == [] {
      NoInfos(b);
    } else {
      InfosStep(b, fs, locs);
      var info, infos := InfoOf(b, fs[0], locs[0]), InfosOf(b, fs[1..], locs[1..]);
      assert ([info] + infos)[1..] == infos;
      StreamShows(list, recorded, lists, d, table, fs[0], locs[0]);
      BodiesLinked(b);
      FunctionCreated(b, hintsTag, fs[0], locs[0], RelabelOf(locs[0]), StreamAt(d, table, locs[0]));
      FunctionsCreated(b, hintsTag, fs[1..], locs[1..], list, recorded, lists, d, table);
      assert fs == [fs[0]] + fs[1..];
      var head, tail := CreateFunction(b, hintsTag, info, StreamAt(d, table, locs[0])), CreateAll(b, hintsTag, infos, d, table);
      if head.Some? && tail.Some? {
        ConsEqual(head.value, tail.value, Relocated(fs[0], RelabelOf(locs[0])), RelocatedAll(fs[1..], locs[1..]));
      }
    }
  }

  lemma {:induction false} ConsEqual<T>(a: T, s: seq<T>, b: T, t: seq<T>)
    ensures [a] + s == [b] + t <==> a == b && s == t
  {
    if [a] + s == [b] + t {
      assert ([a] + s)[0] == ([b] + t)[0];
      assert s == ([a] + s)[1..] == ([b] + t)[1..] == t;
    }
  }

  lemma {:induction false} BodiesLinked(b: BodyEnv)
    requires BodyOk(b) && SchemasOk(b.env.attrs)
    ensures LinkedBodies(b, b)
  {
    hide BodyOk, SchemasOk;
  }

  // ---------------------------------------------------------------- the whole file

  lemma {:induction false} StringsAndConstantsRead(tb: TableSet, p: Parts, found: map<nat, bytes>)
    requires Fits(tb, p)
    requires Lookup(found, STRING) == Some(TablePayload(tb.strings, 4))
    requires Lookup(found, TYPE) == Some(TablePayload(p.types, 4))
    requires Lookup(found, CONSTANT) == PayloadIf(tb.constants != [], TablePayload(tb.constants, 8))
    ensures STRING in found && ReadStrings(found[STRING]) == Some(tb.strings)
    ensures OptionalTypes(found) == Some(Full(p.types)) && OptionalConstants(found) == Some(tb.constants)
  {
    Pow2Values();
    hide TablePayload, ReadTable, ReadLazyTable, ReadStrings, Concat, Pow2, DebugFits, DebugPayload;
    StringsRoundTrip(tb.strings);
    LazyTableRoundTrip(p.types, 4);
    TableRoundTrip(tb.constants, 8);
  }

  lemma {:induction false} ProducerRead(v: Version, tb: TableSet, m: Module, p: Parts, found: map<nat, bytes>)
    requires HasProducer(v, m) ==> Index(tb.strings, m.producer.value) == Some(p.producer)
    requires Lookup(found, PRODUCER) == PayloadIf(HasProducer(v, m), p.producer)
    ensures ReadProducer(found, tb.strings) == Some(if HasProducer(v, m) then m.producer.value else [])
  {
    hide ReadIndex, Index;
    if HasProducer(v, m) {
      IndexRoundTrip(tb.strings, tb.strings, m.producer.value, []);
      assert p.producer + [] == p.producer;
    }
  }

  function DebugDataOf(tb: TableSet, p: Parts): DebugData {
    if tb.debug == [] then DebugData([], [], []) else DebugData(Offsets(tb.lists, 0), Concat(tb.lists), Full(p.debug))
  }

  lemma {:induction false} DebugRead(tb: TableSet, p: Parts, found: map<nat, bytes>)
    requires Fits(tb, p) && |p.debug| == |tb.debug| && (tb.lists != [] ==> tb.debug != [])
    requires Lookup(found, DEBUG) == PayloadIf(tb.lists != [] || tb.debug != [], DebugPayload(tb.lists, p.debug))
    ensures OptionalDebug(found) == Some(DebugDataOf(tb, p))
    ensures DebugDataOf(tb, p).entries == Full(p.debug)
  {
    hide ReadDebugSection, DebugPayload, Offsets, Concat, TablePayload, DebugFits;
    if tb.debug != [] {
      DebugSectionRoundTrip(tb.lists, p.debug);
    }
  }

  /** Without debug attributes no function has a list. */
  lemma {:induction false} ListsNeedAttributes(tb: TableSet, p: Parts, fs: seq<Function>, locs: seq<nat>,
                                               recorded: seq<seq<Debug>>)
    requires |locs| == |fs| && Indexed(tb.debug, recorded, tb.lists) && (tb.lists != [] ==> tb.debug != [])
    requires forall i :: 0 <= i < |fs| ==> LocsRecorded(recorded, fs[i], locs[i])
    requires |Concat(tb.lists)| <= MAX_COUNT
    ensures (exists i :: 0 <= i < |locs| && locs[i] > 0) ==>
              DebugDataOf(tb, p).indexOffsets == Offsets(tb.lists, 0) && DebugDataOf(tb, p).indices == Concat(tb.lists) &&
              |Concat(tb.lists)| <= MAX_COUNT
  {
    hide Offsets, Concat, LocsOfOps;
    if i :| 0 <= i < |locs| && locs[i] > 0 {
      assert LocsRecorded(recorded, fs[i], locs[i]);
      CountOfLists(tb.debug, recorded, tb.lists);
    }
  }

  /** The functions of a file, given all its tables. */
  lemma {:induction false} FunctionsLoaded(c: Format, b: BodyEnv, tb: TableSet, m: Module, locs: seq<nat>,
                                           recorded: seq<seq<Debug>>,
                                           p: Parts, table: seq<Option<Debug>>)
    requires |locs| == |m.functions| && WriteFunctionTable(b, m.functions, locs) == Some(p.functions)
    requires BodyOk(b) && SchemasOk(b.env.attrs) && Resolves(tb.debug, |tb.debug|, table)
    requires Indexed(tb.debug, recorded, tb.lists) && (tb.lists != [] ==> tb.debug != []) && |Concat(tb.lists)| <= MAX_COUNT
    requires forall i :: 0 <= i < |locs| ==> LocsRecorded(recorded, m.functions[i], locs[i]) && HintsTyped(c.hintsTag, m.functions[i])
    ensures LoadFunctions(b, c.hintsTag, p.functions, DebugDataOf(tb, p), table) == Some(RelocatedAll(m.functions, locs)) <==>
            FunctionsFaithful(b, m)
  {
    hide BodyOk, SchemasOk, Resolves, Indexed, LocsRecorded, HintsTyped, WriteAllEntries, InfosOf, CreateAll,
         HintsReadable, FunctionFaithful, ReadFunctionTable, DebugDataOf, Offsets, Concat;
    FunctionTableRoundTrip(b, m.functions, locs);
    ListsNeedAttributes(tb, p, m.functions, locs, recorded);
    FunctionsCreated(b, c.hintsTag, m.functions, locs, tb.debug, recorded, tb.lists, DebugDataOf(tb, p), table);
  }

  lemma {:induction false} GlobalsLoaded(env: Env, m: Module, p: Parts, found: map<nat, bytes>)
    requires m.globals != [] ==> Globals.WriteGlobals(env, m.globals) == Some(p.globals)
    requires Lookup(found, GLOBAL) == PayloadIf(m.globals != [], p.globals)
    ensures OptionalGlobals(env.version, found).Some?
    ensures Globals.CreateGlobals(env, OptionalGlobals(env.version, found).value) ==
            if forall i :: 0 <= i < |m.globals| ==> m.globals[i].name != [] then Some(m.globals) else None
  {
    hide Globals.WriteGlobals, Globals.ReadGlobals, Globals.CreateGlobal;
    if m.globals != [] {
      Globals.GlobalsRoundTrip(env, env, m.globals, []);
      assert p.globals + [] == p.globals;
    }
  }

  lemma {:induction false} ListsFit(tb: TableSet, p: Parts)
    requires Fits(tb, p)
    ensures |Concat(tb.lists)| <= MAX_COUNT
  {
    hide Concat;
  }

  lemma {:induction false} SectionsLoaded(c: Format, v: Version, tb: TableSet, m: Module, locs: seq<nat>,
                                          recorded: seq<seq<Debug>>,
                                          p: Parts)
    requires |locs| == |m.functions| && PartsOf(c, v, tb, m, locs) == Some(p) && Fits(tb, p)
    requires ManagersKeep(tb, m, locs, recorded) && FormatOk(c, v, tb) && IrTyped(c, tb, m) && TypesSurvive(c, v, tb)
    ensures LoadSections(c, v, Payloads(Chosen(Candidates(v, tb, m, p)), map[])) == Some(Returned(v, m, locs)) <==>
            ModuleFaithful(BodyEnvOf(c, v, tb.strings, Full(tb.types), tb.constants), m)
  {
    hide Payloads, Chosen, Candidates, ReadTable, ReadLazyTable, ReadStrings, TablePayload, DebugPayload,
         ReadDebugSection, Decoded, Full, Resolves, Indexed, LocsRecorded, HintsTyped, BodyOk, SchemasOk,
         TypeManagers.InOrder, TypesKept, Closed, WellTyped, WriteFunctionTable, ReadFunctionTable, DebugDataOf,
         FunctionsFaithful, LoadFunctions, Concat, OptionalGlobals, Globals.WriteGlobals, Globals.CreateGlobals,
         RelocatedAll, TypeEntries, DebugEntries, Fits, ReadProducer, OptionalTypes, OptionalConstants,
         OptionalDebug, Lookup, PayloadIf, HasProducer, Index, TypeParser, DebugParser;
    var found := Payloads(Chosen(Candidates(v, tb, m, p)), map[]);
    var t := TypeEnvOf(c, v, tb.strings, tb.constants);
    AllFound(v, tb, m, p);
    ListsFit(tb, p);
    StringsAndConstantsRead(tb, p, found);
    ProducerRead(v, tb, m, p, found);
    DebugRead(tb, p, found);
    FunctionsFound(found, p);
    GlobalsLoaded(EnvOf(c, v, tb.strings, Full(tb.types), tb.constants), m, p, found);
    TypesRebuilt(t, tb.types, p.types);
    DebugRebuilt(tb.strings, tb.debug, p.debug);
    var table := Decoded(|p.debug|, DebugParser(tb.strings, Full(p.debug)));
    FunctionsLoaded(c, BodyEnvOf(c, v, tb.strings, Full(tb.types), tb.constants), tb, m, locs, recorded, p, table);
  }

  lemma {:induction false} FunctionsFound(found: map<nat, bytes>, p: Parts)
    requires Lookup(found, FUNC) == Some(p.functions)
    ensures FUNC in found && found[FUNC] == p.functions
  {
  }

  /**
    Whole files round trip: of a module whose types survive the version, the reader gives back
    what was written, with its locations relabelled, if and only if every function is a named
    kernel with readable hints and a faithful body, and every global has a name.
    */
  lemma {:induction false} ModuleRoundTrip(c: Format, v: Version, tb: TableSet, m: Module, locs: seq<nat>,
                                           recorded: seq<seq<Debug>>,
                                           p: Parts)
    requires |locs| == |m.functions| && PartsOf(c, v, tb, m, locs) == Some(p) && Fits(tb, p)
    requires ManagersKeep(tb, m, locs, recorded) && FormatOk(c, v, tb) && IrTyped(c, tb, m) && TypesSurvive(c, v, tb)
    requires VersionOk(c, v)
    ensures WriteModule(c, v, tb, m, locs).Some?
    ensures ReadModule(c, WriteModule(c, v, tb, m, locs).value) == Some(Returned(v, m, locs)) <==>
            ModuleFaithful(BodyEnvOf(c, v, tb.strings, Full(tb.types), tb.constants), m)
  {
    hide PartsOf, Fits, ManagersKeep, FormatOk, IrTyped, TypesSurvive, Candidates, Chosen, CandidatesOk,
         WriteFile, Discover, ReadFileHeader, LoadSections, Payloads, SectionsOk, ModuleFaithful, BodyEnvOf,
         Returned;
    CandidatesFit(v, tb, m, p);
    CandidatesAreSmall(v, tb, m, p);
    ChosenAreOk(Candidates(v, tb, m, p));
    FileRoundTrip(v, Chosen(Candidates(v, tb, m, p)), c.supported);
    SectionsLoaded(c, v, tb, m, locs, recorded, p);
  }

  /** The size of a written module is found whatever bytes follow it. */
  lemma {:induction false} ModuleSize(c: Format, v: Version, tb: TableSet, m: Module, locs: seq<nat>, p: Parts,
                                      trailing: bytes)
    requires |locs| == |m.functions| && PartsOf(c, v, tb, m, locs) == Some(p) && Fits(tb, p) && VersionOk(c, v)
    ensures WriteModule(c, v, tb, m, locs).Some?
    ensures BytecodeSize(WriteModule(c, v, tb, m, locs).value + trailing, c.supported) ==
            Some(|WriteModule(c, v, tb, m, locs).value|)
  {
    hide PartsOf, Fits, Candidates, Chosen, CandidatesOk, WriteFile, BytecodeSize, SectionsOk;
    CandidatesFit(v, tb, m, p);
    CandidatesAreSmall(v, tb, m, p);
    ChosenAreOk(Candidates(v, tb, m, p));
    SizeIsExact(v, Chosen(Candidates(v, tb, m, p)), c.supported, trailing);
  }
}
