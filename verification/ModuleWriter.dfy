/**
  The writer from start to end, from empty tables: functions are collected, the sections are
  written one after the other while the tables grow, and what is left is the encoding of the
  module under the tables that stand in the file.
  */
module ModuleWriters {
  import opened Base
  import opened Ir
  import opened DebugIr
  import opened AttrCodec
  import opened Streams
  import opened Interning
  import opened TypeWriters
  import opened TableGrowth
  import opened SectionWriters
  import opened DebugInfos
  import opened Bodies
  import opened FunctionTables
  import opened FunctionTableWriters
  import opened ModuleFiles
  import TypeManagers
  import opened TypeTables
  import opened TypeCodec
  import opened Opcodes
  import opened Sections

  lemma {:induction false} ListsHaveAttributes(fs: seq<Function>, locs: seq<nat>, list: seq<Debug>,
                                               recorded: seq<seq<Debug>>,
                                               lists: seq<seq<nat>>)
    requires Collected(fs, locs, recorded, |fs|) && Indexed(list, recorded, lists)
    requires ListsOpened(recorded, locs)
    ensures lists != [] ==> list != []
  {
    if lists != [] {
      var i :| 0 <= i < |locs| && locs[i] > 0;
      assert ListIs(fs[i], locs[i], recorded, true);
      assert IndexedList(list, recorded[locs[i] - 1], lists[locs[i] - 1]);
      assert Interned(list, recorded[locs[i] - 1][0]);
    }
  }

  lemma {:induction false} StillOpened(before: seq<seq<Debug>>, recorded: seq<seq<Debug>>, locs: seq<nat>)
    requires ListsOpened(before, locs) && ((forall i :: 0 <= i < |locs| ==> locs[i] == 0) ==> recorded == before)
    ensures ListsOpened(recorded, locs)
  {
  }

  /** The tables as the managers hold them. */
  function TablesOf(m: Managers, debuginfo: DebugInfoWriter): TableSet
    reads m.strMgr, m.typeMgr, m.constMgr, debuginfo
  {
    TableSet(m.strMgr.keys, m.typeMgr.typeList, m.constMgr.keys, debuginfo.debuginfoList, debuginfo.debuginfoIndices)
  }

  function EnvFor(c: Format, v: Version, tb: TableSet): Env {
    EnvOf(c, v, tb.strings, Full(tb.types), tb.constants)
  }

  function FormatFor(c: Format, v: Version, tb: TableSet): BodyEnv {
    BodyEnv(EnvFor(c, v, tb), c.schemas, GateOf(c.opcodes, v))
  }

  /** Tables that the writer could have come to from these. */
  predicate Extends(tb: TableSet, more: TableSet) {
    tb.strings <= more.strings && tb.types <= more.types && tb.constants <= more.constants && more.debug == tb.debug
  }

  lemma {:induction false} ExtendsContinues(c: Format, v: Version, tb: TableSet, more: TableSet)
    requires Extends(tb, more)
    ensures Continues(EnvFor(c, v, tb), EnvFor(c, v, more)) && Grown(FormatFor(c, v, tb), FormatFor(c, v, more))
  {
    FullGrows(tb.types, more.types);
  }

  /** The section for the producer, where there is one. */
  function ProducerPart(e: Env, m: Module): Option<bytes> {
    if HasProducer(e.version, m) then Index(e.strings, m.producer.value) else Some([])
  }

  predicate SomeEmpty(constants: seq<bytes>) {
    exists i :: 0 <= i < |constants| && constants[i] == []
  }

  /** The parts of a file, given the tables under which each is written. */
  lemma {:induction false} PartsOfTables(c: Format, v: Version, tb: TableSet, m: Module, locs: seq<nat>)
    requires |locs| == |m.functions|
    ensures var e, b := EnvFor(c, v, tb), FormatFor(c, v, tb);
            var globals, functions := GlobalPart(e, m.globals), WriteFunctionTable(b, m.functions, locs);
            var debug := DebugEntries(tb.strings, tb.debug, tb.debug);
            var types := TypeEntries(TypeEnv(e, c.builtins, c.parametric), tb.types);
            var producer := ProducerPart(e, m);
            PartsOf(c, v, tb, m, locs) ==
            if globals.None? || functions.None? || SomeEmpty(tb.constants) || debug.None? || types.None? ||
               producer.None? then None
            else Some(Parts(globals.value, functions.value, types.value, debug.value, producer.value))
  {
    hide Globals.WriteGlobals, WriteFunctionTable, DebugEntries, TypeEntries, Index, Full, GateOf;
    assert With(TypeEnvOf(c, v, tb.strings, tb.constants), Full(tb.types)) ==
           TypeEnv(EnvFor(c, v, tb), c.builtins, c.parametric);
  }

  /** One part that no further tables help to write. */
  ghost predicate PartRefused(c: Format, v: Version, tb: TableSet, m: Module, locs: seq<nat>, types: seq<Type>)
    requires |locs| == |m.functions|
  {
    || (forall e :: Continues(EnvFor(c, v, tb), e) ==> GlobalPart(e, m.globals).None?)
    || (forall b :: Grown(FormatFor(c, v, tb), b) ==> WriteFunctionTable(b, m.functions, locs).None?)
    || SomeEmpty(tb.constants)
    || (forall strings :: tb.strings <= strings ==> DebugEntries(strings, tb.debug, tb.debug).None?)
    || (forall e :: Continues(EnvFor(c, v, tb), e) ==> TypeEntries(TypeEnv(e, c.builtins, c.parametric), types).None?)
    || (forall e :: Continues(EnvFor(c, v, tb), e) ==> ProducerPart(e, m).None?)
  }

  lemma {:induction false} Refused(c: Format, v: Version, tb: TableSet, m: Module, locs: seq<nat>, types: seq<Type>)
    requires |locs| == |m.functions| && types <= tb.types && PartRefused(c, v, tb, m, locs, types)
    ensures forall more :: Extends(tb, more) ==> PartsOf(c, v, more, m, locs).None?
  {
    hide GlobalPart, WriteFunctionTable, DebugEntries, TypeEntries, ProducerPart, PartsOf, EnvFor, FormatFor, Continues, Grown;
    forall more | Extends(tb, more) ensures PartsOf(c, v, more, m, locs).None? {
      ExtendsContinues(c, v, tb, more);
      PartsOfTables(c, v, more, m, locs);
      TypeEntriesPrefix(TypeEnv(EnvFor(c, v, more), c.builtins, c.parametric), types, more.types);
      if SomeEmpty(tb.constants) {
        var i :| 0 <= i < |tb.constants| && tb.constants[i] == [];
        assert more.constants[i] == [];
      }
    }
  }

  lemma {:induction false} TypeEntriesPrefix(t: TypeEnv, types: seq<Type>, more: seq<Type>)
    requires types <= more
    ensures TypeEntries(t, more).Some? ==> TypeEntries(t, types).Some?
  {
    hide WriteType;
    if types != [] {
      TypeEntriesPrefix(t, types[1..], more[1..]);
    }
  }

  /** Types whose entries add nothing to the tables: their scalar types are registered, and none holds dense elements. */
  predicate SelfSufficient(types: seq<Type>) {
    (forall i :: 0 <= i < |types| ==> TypeScalarsIn(types[..i], types[i])) && HoldNoElements(types)
  }

  predicate HoldNoElements(types: seq<Type>) {
    forall i :: 0 <= i < |types| ==> NoElementsInType(types[i])
  }

  lemma {:induction false} SurvivingAreSelfSufficient(c: Format, v: Version, tb: TableSet)
    requires TypesSurvive(c, v, tb) && HoldNoElements(tb.types)
    ensures SelfSufficient(tb.types)
  {
    hide TypeScalarsIn, NoElementsInType;
  }

  lemma {:induction false} TablesNow(c: Format, v: Version, m: Managers, debuginfo: DebugInfoWriter)
    requires m.version == v && m.attrs == c.attrs
    ensures EnvFor(c, v, TablesOf(m, debuginfo)) == m.Now() && FormatFor(c, v, TablesOf(m, debuginfo)) == FormatNow(m, c)
  {
  }

  lemma {:induction false} InOrderNow(m: Managers)
    requires m.Valid()
    ensures TypeManagers.InOrder(m.typeMgr.typeList)
  {
  }

  lemma {:induction false} TypesHave(types: seq<Type>, more: seq<Type>, constants: seq<bytes>)
    requires types <= more && SelfSufficient(more) && TypeManagers.InOrder(types)
    ensures forall i :: 0 <= i < |types| ==> HasType(Full(types), constants, types[i])
  {
    hide TypeManagers.InOrder, TypeScalarsIn, NoElementsInType, HasType, Full;
    forall i | 0 <= i < |types| ensures HasType(Full(types), constants, types[i]) {
      assert types[..i] == more[..i];
      RegisteredHas(types, constants, i);
    }
  }

  lemma {:induction false} TypesContinue(e1: Env, e2: Env, types: seq<Type>, more: seq<Type>)
    requires Continues(e1, e2) && e1.types == Full(types) && e2.types == Full(more)
    ensures types <= more
  {
    forall i | 0 <= i < |types| ensures i < |more| && types[i] == more[i] {
      assert Full(types)[i] == Some(types[i]) && Full(more)[i] == Some(more[i]);
    }
  }

  lemma {:induction false} FullInjective(types: seq<Type>, more: seq<Type>)
    requires Full(types) == Full(more)
    ensures types == more
  {
    assert |types| == |Full(types)| == |more|;
    forall i | 0 <= i < |types| ensures types[i] == more[i] {
      assert Full(types)[i] == Some(types[i]) && Full(more)[i] == Some(more[i]);
    }
  }

  /** Parts written at different moments are the parts under the tables of the end. */
  lemma {:induction false} PartsAssembled(c: Format, v: Version, tb: TableSet, m: Module, locs: seq<nat>, p: Parts,
                                          e1: Env, b2: BodyEnv, strings: seq<bytes>, e4: Env)
    requires |locs| == |m.functions|
    requires Continues(e1, EnvFor(c, v, tb)) && GlobalPart(e1, m.globals) == Some(p.globals)
    requires Grown(b2, FormatFor(c, v, tb)) && WriteFunctionTable(b2, m.functions, locs) == Some(p.functions)
    requires strings <= tb.strings && DebugEntries(strings, tb.debug, tb.debug) == Some(p.debug)
    requires Continues(e4, EnvFor(c, v, tb)) && TypeEntries(TypeEnv(e4, c.builtins, c.parametric), tb.types) == Some(p.types)
    requires ProducerPart(EnvFor(c, v, tb), m) == Some(p.producer) && !SomeEmpty(tb.constants)
    ensures PartsOf(c, v, tb, m, locs) == Some(p)
  {
    hide GlobalPart, WriteFunctionTable, DebugEntries, TypeEntries, ProducerPart, PartsOf, EnvFor, FormatFor, Continues, Grown,
         SomeEmpty;
    PartsOfTables(c, v, tb, m, locs);
    GlobalPartStable(e1, EnvFor(c, v, tb), m.globals);
    FunctionTableStable(b2, FormatFor(c, v, tb), m.functions, locs);
    DebugEntriesStable(strings, tb.strings, tb.debug, tb.debug);
    TypeEntriesStable(TypeEnv(e4, c.builtins, c.parametric), TypeEnv(EnvFor(c, v, tb), c.builtins, c.parametric), tb.types);
  }

  method PutProducer(managers: Managers, m: Module, writer: EncodingWriter) returns (ok: bool)
    requires managers.Valid() && writer.stream == []
    modifies managers.Repr(), writer`stream
    ensures managers.Valid() && Continues(old(managers.Now()), managers.Now()) && Quiet(old(managers.Now()), managers.Now())
    ensures ok <==> ProducerPart(managers.Now(), m).Some?
    ensures ok ==> writer.stream == ProducerPart(managers.Now(), m).value
    ensures !ok ==> forall e :: Continues(managers.Now(), e) ==> ProducerPart(e, m).None?
  {
    hide Managers.Valid, Managers.Now, Index;
    VersionNow(managers);
    ok := true;
    if HasProducer(managers.version, m) {
      ok := managers.PutString(m.producer.value, writer);
      VersionNow(managers);
    }
  }

  /** The payloads of the sections before the type table, and what they were written under. */
  method WriteGlobalsAndFunctions(c: Format, v: Version, m: Module, managers: Managers, debuginfo: DebugInfoWriter)
    returns (ok: bool, globals: bytes, functions: bytes, locs: seq<nat>, ghost e1: Env)
    requires managers.Valid() && managers.version == v && managers.attrs == c.attrs
    requires debuginfo.Valid() && debuginfo.opIndexMap == map[] && debuginfo.recorded == []
    modifies managers.Repr(), debuginfo
    ensures managers.Valid() && debuginfo.Valid() && |locs| == |m.functions|
    ensures !ok ==> PartRefused(c, v, TablesOf(managers, debuginfo), m, locs, [])
    ensures ok ==> Continues(e1, managers.Now()) && GlobalPart(e1, m.globals) == Some(globals)
    ensures ok ==> WriteFunctionTable(FormatNow(managers, c), m.functions, locs) == Some(functions)
    ensures ok ==> Collected(m.functions, locs, debuginfo.recorded, |m.functions|) && ListsOpened(debuginfo.recorded, locs)
    ensures ok ==> forall i :: 0 <= i < |m.functions| ==> LocsRecorded(debuginfo.recorded, m.functions[i], locs[i])
  {
    hide Managers.Valid, Managers.Now, DebugInfoWriter.Valid, Collected, Mapped, ListsOpened, LocsRecorded,
         WriteFunctionTable, GlobalPart, DebugEntries, TypeEntries, ProducerPart, EnvFor, FormatFor, TablesOf;
    var metas;
    metas, locs := BuildFunctionMap(m.functions, managers, debuginfo);
    ghost var before, e0 := debuginfo.recorded, managers.Now();
    var globalWriter := new EncodingWriter();
    ok := WriteGlobalSection(managers, m.globals, globalWriter);
    TablesNow(c, v, managers, debuginfo);
    globals, functions, e1 := globalWriter.stream, [], managers.Now();
    if !ok {
      return;
    }
    MappedLater(e0, e1, m.functions, metas);
    var functionWriter := new EncodingWriter();
    ok := WriteFunctionTableSection(managers, c, m.functions, metas, locs, debuginfo, functionWriter);
    TablesNow(c, v, managers, debuginfo);
    functions := functionWriter.stream;
    if ok {
      StillOpened(before, debuginfo.recorded, locs);
    }
  }

  /** What no further tables help to write of the sections behind the function table. */
  ghost predicate BackRefused(c: Format, m: Module, e: Env, list: seq<Debug>, types: seq<Type>) {
    || (forall strings :: e.strings <= strings ==> DebugEntries(strings, list, list).None?)
    || (forall later :: Continues(e, later) ==> TypeEntries(TypeEnv(later, c.builtins, c.parametric), types).None?)
    || (forall later :: Continues(e, later) ==> ProducerPart(later, m).None?)
  }

  /** The payloads behind the constants: debug attributes, types and the producer. */
  method WriteBack(c: Format, m: Module, managers: Managers, list: seq<Debug>)
    returns (ok: bool, debug: seq<bytes>, types: seq<bytes>, producer: bytes, ghost strings: seq<bytes>, ghost e4: Env)
    requires managers.Valid()
    modifies managers.Repr()
    ensures managers.Valid() && Continues(old(managers.Now()), managers.Now())
    ensures old(managers.typeMgr.typeList) <= managers.typeMgr.typeList
    ensures !ok ==> BackRefused(c, m, managers.Now(), list, old(managers.typeMgr.typeList))
    ensures ok ==> strings <= managers.Now().strings && DebugEntries(strings, list, list) == Some(debug)
    ensures ok ==> Continues(e4, managers.Now()) &&
                   TypeEntries(TypeEnv(e4, c.builtins, c.parametric), old(managers.typeMgr.typeList)) == Some(types)
    ensures ok ==> ProducerPart(managers.Now(), m) == Some(producer)
    ensures SelfSufficient(managers.typeMgr.typeList) ==>
              managers.typeMgr.typeList == old(managers.typeMgr.typeList) &&
              managers.constMgr.keys == old(managers.constMgr.keys)
  {
    hide Managers.Valid, Managers.Now, Continues, SelfSufficient, DebugEntries, TypeEntries, ProducerPart, HasType, Full,
         TypeManagers.InOrder;
    ghost var e0, list0 := managers.Now(), managers.typeMgr.typeList;
    NowIs(managers);
    InOrderNow(managers);
    debug, types, producer, strings, e4 := [], [], [], [], e0;
    var debugEntries := WriteDebugEntries(managers, list);
    ghost var e3 := managers.Now();
    NowIs(managers);
    TypesContinue(e0, e3, list0, managers.typeMgr.typeList);
    FullInjective(list0, managers.typeMgr.typeList);
    strings := e3.strings;
    if debugEntries.None? {
      return false, debug, types, producer, strings, e4;
    }
    var typeEntries := WriteTypeEntries(managers, c);
    e4 := managers.Now();
    NowIs(managers);
    Transitive(e0, e3, e4);
    TypesContinue(e0, e4, list0, managers.typeMgr.typeList);
    if SelfSufficient(managers.typeMgr.typeList) {
      TypesHave(list0, managers.typeMgr.typeList, e3.constants);
      FullInjective(list0, managers.typeMgr.typeList);
    }
    if typeEntries.None? {
      return false, debug, types, producer, strings, e4;
    }
    ghost var list4 := managers.typeMgr.typeList;
    var writer := new EncodingWriter();
    ok := PutProducer(managers, m, writer);
    NowIs(managers);
    Transitive(e0, e4, managers.Now());
    FullInjective(list4, managers.typeMgr.typeList);
    StringsContinue(e3, e4, managers.Now());
    debug, types, producer := debugEntries.value, typeEntries.value, writer.stream;
  }

  lemma {:induction false} StringsContinue(e1: Env, e2: Env, e3: Env)
    requires Continues(e1, e2) && Continues(e2, e3)
    ensures e1.strings <= e3.strings
  {
  }

  lemma {:induction false} NowIs(m: Managers)
    ensures m.Now().strings == m.strMgr.keys && m.Now().types == Full(m.typeMgr.typeList)
    ensures m.Now().constants == m.constMgr.keys
  {
  }

  /** The payloads of all sections in the order in which they are written, from empty tables. */
  method WriteParts(c: Format, v: Version, m: Module)
    returns (p: Option<Parts>, constants: seq<bytes>, tb: TableSet, locs: seq<nat>, ghost recorded: seq<seq<Debug>>)
    ensures |locs| == |m.functions|
    ensures p.None? ==> forall more :: Extends(tb, more) ==> PartsOf(c, v, more, m, locs).None?
    ensures p.Some? && SelfSufficient(tb.types) ==>
              constants == tb.constants && PartsOf(c, v, tb, m, locs) == p && ManagersKeep(tb, m, locs, recorded)
  {
    hide Managers.Valid, Managers.Now, DebugInfoWriter.Valid, Collected, ListsOpened, LocsRecorded, Continues, ManagersKeep,
         SelfSufficient, PartsOf, Extends, WriteFunctionTable, GlobalPart, DebugEntries, TypeEntries, ProducerPart, SomeEmpty,
         EnvFor, FormatFor, TypeManagers.InOrder, Full, PartRefused, BackRefused, GateOf;
    var managers := new Managers(v, c.attrs);
    var debuginfo := new DebugInfoWriter();
    var ok, globals, functions;
    ghost var e1;
    ok, globals, functions, locs, e1 := WriteGlobalsAndFunctions(c, v, m, managers, debuginfo);
    p, constants, tb, recorded := None, managers.constMgr.keys, TablesOf(managers, debuginfo), debuginfo.recorded;
    ghost var e2, b2 := managers.Now(), FormatNow(managers, c);
    if !ok || SomeEmpty(constants) {
      ConstantRefused(c, v, tb, m, locs);
      Refused(c, v, tb, m, locs, []);
      return;
    }
    ghost var types := managers.typeMgr.typeList;
    var debug, entries, producer;
    ghost var strings, e4;
    ok, debug, entries, producer, strings, e4 := WriteBack(c, m, managers, debuginfo.debuginfoList);
    tb := TablesOf(managers, debuginfo);
    TablesNow(c, v, managers, debuginfo);
    NowIs(managers);
    if !ok {
      BackPartRefused(c, v, tb, m, locs, types);
      Refused(c, v, tb, m, locs, types);
      return;
    }
    InOrderNow(managers);
    p := Some(Parts(globals, functions, entries, debug, producer));
    if SelfSufficient(tb.types) {
      Transitive(e1, e2, managers.Now());
      GrownNow(b2, managers, c, e2);
      PartsAssembled(c, v, tb, m, locs, p.value, e1, b2, strings, e4);
      EndState(m, locs, tb, debuginfo);
    }
  }

  lemma {:induction false} GrownNow(b: BodyEnv, m: Managers, c: Format, e: Env)
    requires b == BodyEnv(e, c.schemas, GateOf(c.opcodes, m.version)) && Continues(e, m.Now())
    ensures Grown(b, FormatNow(m, c))
  {
    hide Continues, Managers.Now, GateOf;
  }

  lemma {:induction false} ConstantRefused(c: Format, v: Version, tb: TableSet, m: Module, locs: seq<nat>)
    requires |locs| == |m.functions|
    ensures SomeEmpty(tb.constants) ==> PartRefused(c, v, tb, m, locs, [])
  {
    hide SomeEmpty, GlobalPart, WriteFunctionTable, DebugEntries, TypeEntries, ProducerPart, EnvFor, FormatFor, Continues, Grown;
  }

  lemma {:induction false} BackPartRefused(c: Format, v: Version, tb: TableSet, m: Module, locs: seq<nat>, types: seq<Type>)
    requires |locs| == |m.functions| && BackRefused(c, m, EnvFor(c, v, tb), tb.debug, types)
    ensures PartRefused(c, v, tb, m, locs, types)
  {
    hide SomeEmpty, GlobalPart, WriteFunctionTable, DebugEntries, TypeEntries, ProducerPart, FormatFor, Continues, Grown, Full;
  }

  /**
    The writer from start to end, from empty tables. Where it fails no tables that continue
    its own would do better. Where the types add nothing to the tables when they are written,
    it returns the encoding of the module under the tables it ends with, and the file is read
    back as `ModuleRoundTrip` says.
    */
  method WriteBytecode(c: Format, v: Version, m: Module) returns (r: Option<bytes>, tb: TableSet, locs: seq<nat>)
    ensures |locs| == |m.functions|
    ensures r.None? ==> forall more :: Extends(tb, more) ==> WriteModule(c, v, more, m, locs).None?
    ensures r.Some? && SelfSufficient(tb.types) ==> r == WriteModule(c, v, tb, m, locs)
    ensures r.Some? && FormatOk(c, v, tb) && IrTyped(c, tb, m) && TypesSurvive(c, v, tb) && VersionOk(c, v) &&
            HoldNoElements(tb.types) && Fits(tb, PartsOf(c, v, tb, m, locs).value) ==>
              ReadsBack(c, v, tb, m, locs, r.value)
  {
    hide Fits, FormatOk, IrTyped, TypesSurvive, VersionOk, Candidates, Chosen, WriteSections, ManagersKeep,
         ReadsBack, PartsOf, SelfSufficient, HoldNoElements, Extends;
    if v.Before(MIN_SUPPORTED_VERSION) {
      return None, TableSet([], [], [], [], []), seq(|m.functions|, _ => 0);
    }
    ghost var recorded;
    var p, constants;
    p, constants, tb, locs, recorded := WriteParts(c, v, m);
    if p.None? {
      return None, tb, locs;
    }
    var written := tb.(constants := constants);
    CandidatesAreSmall(v, written, m, p.value);
    r := WriteFile(v, Chosen(Candidates(v, written, m, p.value)));
    if TypesSurvive(c, v, tb) && HoldNoElements(tb.types) {
      SurvivingAreSelfSufficient(c, v, tb);
    }
    if SelfSufficient(tb.types) {
      RoundTripFollows(c, v, tb, m, locs, recorded, p.value);
    }
  }

  /** The module comes back from these bytes, exactly if it is faithful. */
  ghost predicate ReadsBack(c: Format, v: Version, tb: TableSet, m: Module, locs: seq<nat>, data: bytes)
    requires |locs| == |m.functions|
  {
    var b := BodyEnvOf(c, v, tb.strings, Full(tb.types), tb.constants);
    ReadModule(c, data) == Some(Returned(v, m, locs)) <==> ModuleFaithful(b, m)
  }

  lemma {:induction false} EndState(m: Module, locs: seq<nat>, tb: TableSet, debuginfo: DebugInfoWriter)
    requires debuginfo.Valid() && |locs| == |m.functions| && Collected(m.functions, locs, debuginfo.recorded, |m.functions|)
    requires TypeManagers.InOrder(tb.types) && tb.debug == debuginfo.debuginfoList && tb.lists == debuginfo.debuginfoIndices
    requires forall i :: 0 <= i < |m.functions| ==> LocsRecorded(debuginfo.recorded, m.functions[i], locs[i])
    requires ListsOpened(debuginfo.recorded, locs)
    ensures ManagersKeep(tb, m, locs, debuginfo.recorded)
  {
    hide LocsRecorded, TypeManagers.InOrder, Indexed, Collected, ListsOpened, Closed;
    ListsHaveAttributes(m.functions, locs, tb.debug, debuginfo.recorded, tb.lists);
  }

  lemma {:induction false} RoundTripFollows(c: Format, v: Version, tb: TableSet, m: Module, locs: seq<nat>,
                                            recorded: seq<seq<Debug>>, p: Parts)
    requires |locs| == |m.functions| && PartsOf(c, v, tb, m, locs) == Some(p) && ManagersKeep(tb, m, locs, recorded)
    ensures Fits(tb, p) && VersionOk(c, v) && FormatOk(c, v, tb) && IrTyped(c, tb, m) && TypesSurvive(c, v, tb) ==>
              WriteModule(c, v, tb, m, locs).Some? && ReadsBack(c, v, tb, m, locs, WriteModule(c, v, tb, m, locs).value)
  {
    hide Fits, FormatOk, IrTyped, TypesSurvive, VersionOk, ManagersKeep, PartsOf, WriteModule, ReadModule,
         ModuleFaithful, Returned, BodyEnvOf;
    if Fits(tb, p) && VersionOk(c, v) && FormatOk(c, v, tb) && IrTyped(c, tb, m) && TypesSurvive(c, v, tb) {
      ModuleRoundTrip(c, v, tb, m, locs, recorded, p);
    }
  }
}
