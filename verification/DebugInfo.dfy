/**
  The debug table and the location streams. The writer interns locations after the
  attributes they refer to and records one list of indices per function; the reader decodes
  the table on demand and hands the locations of a function out one by one.
  */
module DebugInfos {
  import opened Base
  import opened VarInts
  import opened DebugIr
  import opened LazyTables
  import opened Tables

  const TAG_COMPILE_UNIT := 1
  const TAG_FILE := 2
  const TAG_LEXICAL_BLOCK := 3
  const TAG_LOC := 4
  const TAG_SUBPROGRAM := 5
  const TAG_CALL_SITE := 6

  /** Index 0 stands for an unknown location; entries of the table are counted from 1. */
  predicate Reserved(d: Debug) {
    d.UnknownLoc? || d.FileLineColLoc?
  }

  /** The attribute as it comes back: plain file locations are not kept. */
  function Plain(d: Debug): Debug {
    match d
    case FileLineColLoc(_, _, _) => UnknownLoc
    case CompileUnit(file) => CompileUnit(Plain(file))
    case LexicalBlock(scope, file, line, column) => LexicalBlock(Plain(scope), Plain(file), line, column)
    case Subprogram(file, line, name, linkage, unit, scopeLine) =>
      Subprogram(Plain(file), line, name, linkage, Plain(unit), scopeLine)
    case Loc(scope, fileName, line, column) => Loc(Plain(scope), fileName, line, column)
    case CallSite(callee, caller) => CallSite(Plain(callee), Plain(caller))
    case NameLoc(name, child) => NameLoc(name, Plain(child))
    case _ => d
  }

  function Deps(d: Debug): seq<Debug> {
    match d
    case CompileUnit(file) => [file]
    case LexicalBlock(scope, file, _, _) => [scope, file]
    case Subprogram(file, _, _, _, unit, _) => [file, unit]
    case Loc(scope, _, _, _) => [scope]
    case CallSite(callee, caller) => [callee, caller]
    case NameLoc(_, child) => [child]
    case _ => []
  }

  predicate IsLocation(d: Debug) {
    d.UnknownLoc? || d.FileLineColLoc? || d.Loc? || d.CallSite? || d.NameLoc?
  }

  predicate IsScope(d: Debug) {
    d.LexicalBlock? || d.Subprogram?
  }

  /** The classes of the parts, as the IR guarantees them, and numbers of 32 bits. */
  predicate WellTyped(d: Debug) {
    match d
    case CompileUnit(file) => file.File?
    case LexicalBlock(scope, file, line, column) => IsScope(scope) && file.File? && line < TWO_TO_THE_32 && column < TWO_TO_THE_32
    case Subprogram(file, line, _, _, unit, scopeLine) =>
      file.File? && unit.CompileUnit? && line < TWO_TO_THE_32 && scopeLine < TWO_TO_THE_32
    case Loc(scope, _, line, column) => IsScope(scope) && line < TWO_TO_THE_32 && column < TWO_TO_THE_32
    case CallSite(callee, caller) => IsLocation(callee) && IsLocation(caller)
    case _ => true
  }

  function Size(d: Debug): (n: nat)
    ensures n >= 1
  {
    match d
    case CompileUnit(file) => 1 + Size(file)
    case LexicalBlock(scope, file, _, _) => 1 + Size(scope) + Size(file)
    case Subprogram(file, _, _, _, unit, _) => 1 + Size(file) + Size(unit)
    case Loc(scope, _, _, _) => 1 + Size(scope)
    case CallSite(callee, caller) => 1 + Size(callee) + Size(caller)
    case NameLoc(_, child) => 1 + Size(child)
    case _ => 1
  }

  // ---------------------------------------------------------------- the writer

  /** An attribute may be referred to: it has a reserved index or an entry. */
  predicate Interned(list: seq<Debug>, d: Debug) {
    Reserved(d) || d in list
  }

  predicate DepsInterned(list: seq<Debug>, d: Debug) {
    forall i :: 0 <= i < |Deps(d)| ==> Interned(list, Deps(d)[i])
  }

  function IndexFor(list: seq<Debug>, d: Debug): nat {
    if Reserved(d) then 0
    else match IndexOf(list, d)
         case Some(i) => i + 1
         case None => 0
  }

  /** Entries are distinct, none is reserved, and each refers to earlier ones only. */
  predicate Closed(list: seq<Debug>) {
    && (forall i, j :: 0 <= i < j < |list| ==> list[i] != list[j])
    && forall i :: 0 <= i < |list| ==> !Reserved(list[i]) && DepsInterned(list[..i], list[i])
  }

  lemma {:induction false} IndexForStable(list: seq<Debug>, more: seq<Debug>, d: Debug)
    requires list <= more && Interned(list, d)
    ensures Interned(more, d) && IndexFor(more, d) == IndexFor(list, d)
  {
    if !Reserved(d) {
      IndexOfStable(list, more, d);
    }
  }

  /** A list of indices that stands for a list of locations. */
  predicate IndexedList(list: seq<Debug>, locs: seq<Debug>, indices: seq<nat>) {
    |indices| == |locs| &&
    forall k :: 0 <= k < |locs| ==> Interned(list, locs[k]) && indices[k] == IndexFor(list, locs[k])
  }

  predicate Indexed(list: seq<Debug>, recorded: seq<seq<Debug>>, lists: seq<seq<nat>>) {
    |lists| == |recorded| && forall f :: 0 <= f < |recorded| ==> IndexedList(list, recorded[f], lists[f])
  }

  lemma {:induction false} IndexedStable(list: seq<Debug>, more: seq<Debug>, recorded: seq<seq<Debug>>,
                                         lists: seq<seq<nat>>)
    requires list <= more && Indexed(list, recorded, lists)
    ensures Indexed(more, recorded, lists)
  {
    hide Interned, IndexFor;
    forall f, k | 0 <= f < |recorded| && 0 <= k < |recorded[f]|
      ensures Interned(more, recorded[f][k]) && lists[f][k] == IndexFor(more, recorded[f][k])
    {
      assert IndexedList(list, recorded[f], lists[f]);
      IndexForStable(list, more, recorded[f][k]);
    }
  }

  class DebugInfoWriter {
    var debuginfoList: seq<Debug>
    var diIndexMap: map<Debug, nat>
    var debuginfoIndices: seq<seq<nat>>
    var opIndexMap: map<nat, nat>
    ghost var recorded: seq<seq<Debug>>

    constructor ()
      ensures Valid() && recorded == [] && debuginfoList == [] && opIndexMap == map[]
    {
      debuginfoList, diIndexMap, debuginfoIndices, opIndexMap := [], map[], [], map[];
      recorded := [];
    }

    /** `recorded` holds, function by function, the locations behind the indices. */
    ghost predicate Valid()
      reads this
    {
      && TableValid()
      && Indexed(debuginfoList, recorded, debuginfoIndices)
      && (forall op :: op in opIndexMap ==> 1 <= opIndexMap[op] <= |opIndexMap|)
    }

    ghost predicate TableValid()
      reads this`debuginfoList, this`diIndexMap
    {
      && Closed(debuginfoList)
      && (forall d :: d in diIndexMap <==> d in debuginfoList)
      && (forall i :: 0 <= i < |debuginfoList| ==> diIndexMap[debuginfoList[i]] == i + 1)
    }

    /** A function is numbered when it is first seen, unless its own location is reserved. */
    method GetOpIndex(op: nat, loc: Debug) returns (index: nat)
      requires Valid()
      modifies this`opIndexMap
      ensures Valid() && (op in old(opIndexMap) ==> index == old(opIndexMap)[op] && opIndexMap == old(opIndexMap))
      ensures op !in old(opIndexMap) && Reserved(loc) ==> index == 0 && opIndexMap == old(opIndexMap)
      ensures op !in old(opIndexMap) && !Reserved(loc) ==>
                index == |old(opIndexMap)| + 1 && opIndexMap == old(opIndexMap)[op := index]
    {
      if op in opIndexMap {
        return opIndexMap[op];
      }
      if Reserved(loc) {
        return 0;
      }
      index := |opIndexMap| + 1;
      opIndexMap := opIndexMap[op := index];
    }

    /** Appends the location to the list of the function; index 0 records nothing. */
    method AddDebugInfo(opIndex: nat, d: Debug)
      requires Valid()
      modifies this
      ensures Valid() && old(debuginfoList) <= debuginfoList && opIndexMap == old(opIndexMap)
      ensures recorded == RecordOne(old(recorded), opIndex, d)
    {
      if opIndex < 1 {
        return;
      }
      ghost var list := debuginfoList;
      var index := GetDebugInfoIndex(d);
      IndexedStable(list, debuginfoList, recorded, debuginfoIndices);
      hide TableValid, Interned, IndexFor, Indexed;
      Push(opIndex - 1, index, d);
    }

    method Push(f: nat, index: nat, ghost d: Debug)
      requires Indexed(debuginfoList, recorded, debuginfoIndices)
      requires Interned(debuginfoList, d) && index == IndexFor(debuginfoList, d)
      modifies this`debuginfoIndices, this`recorded
      ensures Indexed(debuginfoList, recorded, debuginfoIndices)
      ensures recorded == Appended(old(recorded), f, d)
    {
      hide Interned, IndexFor;
      if f >= |debuginfoIndices| {
        debuginfoIndices := debuginfoIndices + seq(f + 1 - |debuginfoIndices|, _ => []);
        recorded := recorded + seq(f + 1 - |recorded|, _ => []);
      }
      debuginfoIndices := debuginfoIndices[f := debuginfoIndices[f] + [index]];
      recorded := recorded[f := recorded[f] + [d]];
    }

    /** Whatever the attribute refers to is interned before it. */
    method GetDebugInfoIndex(d: Debug) returns (index: nat)
      requires TableValid()
      modifies this`debuginfoList, this`diIndexMap
      ensures TableValid() && old(debuginfoList) <= debuginfoList
      ensures Interned(debuginfoList, d) && index == IndexFor(debuginfoList, d)
      ensures Interned(old(debuginfoList), d) ==> debuginfoList == old(debuginfoList)
      ensures forall e :: e in debuginfoList && e !in old(debuginfoList) ==> Size(e) <= Size(d)
      decreases Size(d)
    {
      if d in diIndexMap {
        FirstIndex(debuginfoList, d, diIndexMap[d]);
        return diIndexMap[d];
      }
      if Reserved(d) {
        return 0;
      }
      RegisterDebugInfo(d);
      index := |debuginfoList| + 1;
      ghost var list := debuginfoList;
      diIndexMap := diIndexMap[d := index];
      debuginfoList := debuginfoList + [d];
      ClosedExtends(list, d);
      FirstIndex(debuginfoList, d, index);
    }

    method RegisterDebugInfo(d: Debug)
      requires TableValid()
      modifies this`debuginfoList, this`diIndexMap
      ensures TableValid() && old(debuginfoList) <= debuginfoList && DepsInterned(debuginfoList, d)
      ensures forall e :: e in debuginfoList && e !in old(debuginfoList) ==> Size(e) < Size(d)
      decreases Size(d), 0
    {
      for i := 0 to |Deps(d)|
        invariant TableValid() && old(debuginfoList) <= debuginfoList
        invariant forall k :: 0 <= k < i ==> Interned(debuginfoList, Deps(d)[k])
        invariant forall e :: e in debuginfoList && e !in old(debuginfoList) ==> Size(e) < Size(d)
      {
        DepIsSmaller(d, i);
        var _ := GetDebugInfoIndex(Deps(d)[i]);
      }
    }
  }

  /** The lists after a location was recorded for function `f`; missing lists are empty. */
  ghost function Appended(recorded: seq<seq<Debug>>, f: nat, d: Debug): seq<seq<Debug>> {
    var resized := if f < |recorded| then recorded else recorded + seq(f + 1 - |recorded|, _ => []);
    resized[f := resized[f] + [d]]
  }

  /** One call of AddDebugInfo: index 0 records nothing. */
  ghost function RecordOne(recorded: seq<seq<Debug>>, opIndex: nat, d: Debug): seq<seq<Debug>> {
    if opIndex == 0 then recorded else Appended(recorded, opIndex - 1, d)
  }

  ghost function RecordAll(recorded: seq<seq<Debug>>, opIndex: nat, locs: seq<Debug>): seq<seq<Debug>>
    decreases |locs|
  {
    if locs == [] then recorded else RecordAll(RecordOne(recorded, opIndex, locs[0]), opIndex, locs[1..])
  }

  lemma {:induction false} RecordSum(recorded: seq<seq<Debug>>, opIndex: nat, a: seq<Debug>, b: seq<Debug>)
    ensures RecordAll(recorded, opIndex, a + b) == RecordAll(RecordAll(recorded, opIndex, a), opIndex, b)
    decreases |a|
  {
    hide RecordOne;
    if a == [] {
      assert a + b == b;
    } else {
      assert (a + b)[1..] == a[1..] + b;
      RecordSum(RecordOne(recorded, opIndex, a[0]), opIndex, a[1..], b);
    }
  }

  /** Recording a list for one function puts it at the end of that function's list and changes no other. */
  lemma {:induction false} RecordedAtEnd(recorded: seq<seq<Debug>>, opIndex: nat, locs: seq<Debug>, f: nat)
    requires opIndex > 0 && locs != []
    ensures var after := RecordAll(recorded, opIndex, locs);
            && |after| == (if opIndex > |recorded| then opIndex else |recorded|)
            && (f < |after| ==> after[f] == (if f < |recorded| then recorded[f] else []) + if f == opIndex - 1 then locs else [])
    decreases |locs|
  {
    if |locs| > 1 {
      RecordedAtEnd(RecordOne(recorded, opIndex, locs[0]), opIndex, locs[1..], f);
      assert locs == [locs[0]] + locs[1..];
    } else {
      assert locs[1..] == [] && locs == [locs[0]];
      assert RecordAll(RecordOne(recorded, opIndex, locs[0]), opIndex, []) == RecordOne(recorded, opIndex, locs[0]);
    }
  }

  lemma {:induction false} DepIsSmaller(d: Debug, i: nat)
    requires i < |Deps(d)|
    ensures Size(Deps(d)[i]) < Size(d)
  {
  }

  lemma {:induction false} FirstIndex(list: seq<Debug>, d: Debug, index: nat)
    requires Closed(list) && 0 < index <= |list| && list[index - 1] == d
    ensures IndexFor(list, d) == index
  {
    IndexOfIsFirst(list, d, index - 1);
  }

  lemma {:induction false} ClosedExtends(list: seq<Debug>, d: Debug)
    requires Closed(list) && d !in list && !Reserved(d) && DepsInterned(list, d)
    ensures Closed(list + [d])
  {
    var more := list + [d];
    assert more[..|list|] == list;
    assert forall i :: 0 <= i < |list| ==> more[..i] == list[..i];
  }

  // ---------------------------------------------------------------- serialization

  function WriteRef(list: seq<Debug>, d: Debug): Option<bytes> {
    if Interned(list, d) && |list| < TWO_TO_THE_64 - 1 then Some(VarInt(IndexFor(list, d))) else None
  }

  function WriteString(strings: seq<bytes>, s: bytes): Option<bytes> {
    var i :- IndexOf(strings, s);
    if i < TWO_TO_THE_64 then Some(VarInt(i)) else None
  }

  /** One entry, written with the finished table; other attributes are refused. */
  function WriteDebug(strings: seq<bytes>, list: seq<Debug>, d: Debug): Option<bytes> {
    match d
    case CompileUnit(file) =>
      var file' :- WriteRef(list, file);
      Some(VarInt(TAG_COMPILE_UNIT) + file')
    case File(name, directory) =>
      var name' :- WriteString(strings, name);
      var directory' :- WriteString(strings, directory);
      Some(VarInt(TAG_FILE) + (name' + directory'))
    case LexicalBlock(scope, file, line, column) =>
      var scope' :- WriteRef(list, scope);
      var file' :- WriteRef(list, file);
      Some(VarInt(TAG_LEXICAL_BLOCK) + (scope' + (file' + (VarInt(line) + VarInt(column)))))
    case Loc(scope, fileName, line, column) =>
      var scope' :- WriteRef(list, scope);
      var fileName' :- WriteString(strings, fileName);
      Some(VarInt(TAG_LOC) + (scope' + (fileName' + (VarInt(line) + VarInt(column)))))
    case Subprogram(file, line, name, linkage, unit, scopeLine) =>
      var file' :- WriteRef(list, file);
      var name' :- WriteString(strings, name);
      var linkage' :- WriteString(strings, linkage);
      var unit' :- WriteRef(list, unit);
      Some(VarInt(TAG_SUBPROGRAM) + (file' + (VarInt(line) + (name' + (linkage' + (unit' + VarInt(scopeLine)))))))
    case CallSite(callee, caller) =>
      var callee' :- WriteRef(list, callee);
      var caller' :- WriteRef(list, caller);
      Some(VarInt(TAG_CALL_SITE) + (callee' + caller'))
    case _ => None
  }

  // ---------------------------------------------------------------- the reader

  function ReadRef(table: seq<Option<Debug>>, bs: bytes): (r: Parsed<Debug>)
    ensures r.Missing? ==> r.index < |table| && table[r.index].None?
  {
    var (i, rest) :- ReadVarInt(bs);
    if i == 0 then Got(UnknownLoc, rest)
    else if i - 1 >= |table| then Fail
    else if table[i - 1].None? then Missing(i - 1)
    else Got(table[i - 1].value, rest)
  }

  function ReadString(strings: seq<bytes>, bs: bytes): (r: Parsed<bytes>)
    ensures !r.Missing?
  {
    var (i, rest) :- ReadVarInt(bs);
    if i < |strings| then Got(strings[i], rest) else Fail
  }

  /** A reference to an attribute of a given class. */
  function ReadFile(table: seq<Option<Debug>>, bs: bytes): (r: Parsed<Debug>)
    ensures r.Missing? ==> r.index < |table| && table[r.index].None?
  {
    var (d, rest) :- ReadRef(table, bs);
    if d.File? then Got(d, rest) else Fail
  }

  function ReadScope(table: seq<Option<Debug>>, bs: bytes): (r: Parsed<Debug>)
    ensures r.Missing? ==> r.index < |table| && table[r.index].None?
  {
    var (d, rest) :- ReadRef(table, bs);
    if IsScope(d) then Got(d, rest) else Fail
  }

  function ReadUnit(table: seq<Option<Debug>>, bs: bytes): (r: Parsed<Debug>)
    ensures r.Missing? ==> r.index < |table| && table[r.index].None?
  {
    var (d, rest) :- ReadRef(table, bs);
    if d.CompileUnit? then Got(d, rest) else Fail
  }

  function ReadLocation(table: seq<Option<Debug>>, bs: bytes): (r: Parsed<Debug>)
    ensures r.Missing? ==> r.index < |table| && table[r.index].None?
  {
    var (d, rest) :- ReadRef(table, bs);
    if IsLocation(d) then Got(d, rest) else Fail
  }

  function ReadCompileUnit(table: seq<Option<Debug>>, bs: bytes): Parsed<Debug> {
    var (file, rest) :- ReadFile(table, bs);
    Got(CompileUnit(file), rest)
  }

  function ReadDIFile(strings: seq<bytes>, bs: bytes): Parsed<Debug> {
    var (name, rest) :- ReadString(strings, bs);
    var (directory, rest') :- ReadString(strings, rest);
    Got(File(name, directory), rest')
  }

  function ReadLexicalBlock(table: seq<Option<Debug>>, bs: bytes): Parsed<Debug> {
    var (scope, rest) :- ReadScope(table, bs);
    var (file, rest) :- ReadFile(table, rest);
    var (line, rest) :- ReadVarInt(rest);
    var (column, rest) :- ReadVarInt(rest);
    Got(LexicalBlock(scope, file, line, column), rest)
  }

  function ReadLoc(strings: seq<bytes>, table: seq<Option<Debug>>, bs: bytes): Parsed<Debug> {
    var (scope, rest) :- ReadScope(table, bs);
    var (fileName, rest) :- ReadString(strings, rest);
    var (line, rest) :- ReadVarInt(rest);
    var (column, rest) :- ReadVarInt(rest);
    Got(Loc(scope, fileName, line, column), rest)
  }

  function ReadSubprogram(strings: seq<bytes>, table: seq<Option<Debug>>, bs: bytes): Parsed<Debug> {
    var (file, rest) :- ReadFile(table, bs);
    var (line, rest) :- ReadVarInt(rest);
    var (name, rest) :- ReadString(strings, rest);
    var (linkage, rest) :- ReadString(strings, rest);
    var (unit, rest) :- ReadUnit(table, rest);
    var (scopeLine, rest) :- ReadVarInt(rest);
    Got(Subprogram(file, line, name, linkage, unit, scopeLine), rest)
  }

  function ReadCallSite(table: seq<Option<Debug>>, bs: bytes): Parsed<Debug> {
    var (callee, rest) :- ReadLocation(table, bs);
    var (caller, rest) :- ReadLocation(table, rest);
    Got(CallSite(callee, caller), rest)
  }

  /** Any other tag is an unknown location. */
  function ReadDebug(strings: seq<bytes>, table: seq<Option<Debug>>, bs: bytes): Parsed<Debug> {
    var (raw, rest) :- ReadVarInt(bs);
    var tag := raw % 256;
    if tag == TAG_COMPILE_UNIT then ReadCompileUnit(table, rest)
    else if tag == TAG_FILE then ReadDIFile(strings, rest)
    else if tag == TAG_LEXICAL_BLOCK then ReadLexicalBlock(table, rest)
    else if tag == TAG_LOC then ReadLoc(strings, table, rest)
    else if tag == TAG_SUBPROGRAM then ReadSubprogram(strings, table, rest)
    else if tag == TAG_CALL_SITE then ReadCallSite(table, rest)
    else Got(UnknownLoc, rest)
  }

  function ParseDebug(strings: seq<bytes>, entries: seq<Option<bytes>>, i: nat, table: seq<Option<Debug>>): Step<Debug> {
    if i < |entries| && entries[i].Some? then
      match ReadDebug(strings, table, entries[i].value)
      case Fail => Failed
      case Missing(index) => Needs(index)
      case Got(d, _) => Done(d)
    else Failed
  }

  function DebugParser(strings: seq<bytes>, entries: seq<Option<bytes>>): Parser<Debug> {
    (i: nat, table) => ParseDebug(strings, entries, i, table)
  }

  predicate Again<T(==)>(t1: seq<Option<Debug>>, t2: seq<Option<Debug>>, r1: Parsed<T>, r2: Parsed<T>) {
    (r1.Missing? ==> r1.index < |t1| && t1[r1.index].None?) &&
    (r2 == r1 || (r1.Missing? && r1.index < |t2| && t2[r1.index].Some?))
  }

  lemma {:induction false} RefAgain(t1: seq<Option<Debug>>, t2: seq<Option<Debug>>, bs: bytes)
    requires Below(t1, t2)
    ensures Again(t1, t2, ReadRef(t1, bs), ReadRef(t2, bs)) && Again(t1, t2, ReadFile(t1, bs), ReadFile(t2, bs))
    ensures Again(t1, t2, ReadScope(t1, bs), ReadScope(t2, bs)) && Again(t1, t2, ReadUnit(t1, bs), ReadUnit(t2, bs))
    ensures Again(t1, t2, ReadLocation(t1, bs), ReadLocation(t2, bs))
  {
    hide ReadVarInt;
  }

  lemma {:induction false} LexicalBlockAgain(t1: seq<Option<Debug>>, t2: seq<Option<Debug>>, bs: bytes)
    requires Below(t1, t2)
    ensures Again(t1, t2, ReadLexicalBlock(t1, bs), ReadLexicalBlock(t2, bs))
  {
    hide ReadVarInt, ReadScope, ReadFile;
    RefAgain(t1, t2, bs);
    if ReadScope(t1, bs).Got? {
      RefAgain(t1, t2, ReadScope(t1, bs).rest);
    }
  }

  lemma {:induction false} LocAgain(strings: seq<bytes>, t1: seq<Option<Debug>>, t2: seq<Option<Debug>>, bs: bytes)
    requires Below(t1, t2)
    ensures Again(t1, t2, ReadLoc(strings, t1, bs), ReadLoc(strings, t2, bs))
  {
    hide ReadVarInt, ReadScope, ReadString;
    RefAgain(t1, t2, bs);
  }

  lemma {:induction false} SubprogramAgain(strings: seq<bytes>, t1: seq<Option<Debug>>, t2: seq<Option<Debug>>, bs: bytes)
    requires Below(t1, t2)
    ensures Again(t1, t2, ReadSubprogram(strings, t1, bs), ReadSubprogram(strings, t2, bs))
  {
    hide ReadVarInt, ReadFile, ReadString, ReadUnit;
    RefAgain(t1, t2, bs);
    var file := ReadFile(t1, bs);
    if file.Got? && ReadVarInt(file.rest).Got? {
      var name := ReadString(strings, ReadVarInt(file.rest).rest);
      if name.Got? && ReadString(strings, name.rest).Got? {
        RefAgain(t1, t2, ReadString(strings, name.rest).rest);
      }
    }
  }

  lemma {:induction false} CallSiteAgain(t1: seq<Option<Debug>>, t2: seq<Option<Debug>>, bs: bytes)
    requires Below(t1, t2)
    ensures Again(t1, t2, ReadCallSite(t1, bs), ReadCallSite(t2, bs))
  {
    hide ReadLocation;
    RefAgain(t1, t2, bs);
    if ReadLocation(t1, bs).Got? {
      RefAgain(t1, t2, ReadLocation(t1, bs).rest);
    }
  }

  lemma {:induction false} DebugAgain(strings: seq<bytes>, t1: seq<Option<Debug>>, t2: seq<Option<Debug>>, bs: bytes)
    requires Below(t1, t2)
    ensures Again(t1, t2, ReadDebug(strings, t1, bs), ReadDebug(strings, t2, bs))
  {
    hide ReadVarInt, ReadFile, ReadDIFile, ReadLexicalBlock, ReadLoc, ReadSubprogram, ReadCallSite;
    var raw := ReadVarInt(bs);
    if raw.Got? {
      RefAgain(t1, t2, raw.rest);
      LexicalBlockAgain(t1, t2, raw.rest);
      LocAgain(strings, t1, t2, raw.rest);
      SubprogramAgain(strings, t1, t2, raw.rest);
      CallSiteAgain(t1, t2, raw.rest);
      FileHasNoRefs(strings, raw.rest);
    }
  }

  lemma {:induction false} FileHasNoRefs(strings: seq<bytes>, bs: bytes)
    ensures !ReadDIFile(strings, bs).Missing?
  {
    hide ReadString;
  }

  lemma {:induction false} DebugParserIsSequential(strings: seq<bytes>, entries: seq<Option<bytes>>)
    ensures Sequential(|entries|, DebugParser(strings, entries))
  {
    hide ReadDebug;
    var parse := DebugParser(strings, entries);
    forall i: nat, t1: seq<Option<Debug>>, t2: seq<Option<Debug>> {:trigger parse(i, t1), parse(i, t2)}
      | i < |entries| && |t1| == |entries| && Below(t1, t2)
      ensures Resumes(t1, t2, parse(i, t1), parse(i, t2))
    {
      if entries[i].Some? {
        DebugAgain(strings, t1, t2, entries[i].value);
      }
    }
  }

  // ---------------------------------------------------------------- round trip of the table

  /** The table holds, for every attribute interned in `list`, what comes back of it. */
  predicate Resolves(list: seq<Debug>, count: nat, table: seq<Option<Debug>>)
    requires count <= |list|
  {
    |table| == |list| && forall j :: 0 <= j < count ==> table[j] == Some(Plain(list[j]))
  }

  lemma {:induction false} RefReadBack(list: seq<Debug>, count: nat, table: seq<Option<Debug>>, d: Debug, rest: bytes)
    requires count <= |list| && Resolves(list, count, table) && Interned(list[..count], d) && WriteRef(list, d).Some?
    ensures ReadRef(table, WriteRef(list, d).value + rest) == Got(Plain(d), rest)
  {
    VarIntRoundTrip(IndexFor(list, d), rest);
    if !Reserved(d) {
      IndexOfStable(list[..count], list, d);
    }
  }

  lemma {:induction false} StringReadBack(strings: seq<bytes>, s: bytes, rest: bytes)
    requires WriteString(strings, s).Some?
    ensures ReadString(strings, WriteString(strings, s).value + rest) == Got(s, rest)
  {
    VarIntRoundTrip(IndexOf(strings, s).value, rest);
  }

  lemma {:induction false} PlainClasses(d: Debug)
    ensures (d.File? ==> Plain(d).File?) && (IsScope(d) ==> IsScope(Plain(d)))
    ensures (d.CompileUnit? ==> Plain(d).CompileUnit?) && (IsLocation(d) ==> IsLocation(Plain(d)))
  {
  }

  lemma {:induction false} BlockReadBack(strings: seq<bytes>, list: seq<Debug>, count: nat,
                                         table: seq<Option<Debug>>, d: Debug)
    requires d.LexicalBlock? && WellTyped(d) && count <= |list| && Resolves(list, count, table)
    requires DepsInterned(list[..count], d) && WriteDebug(strings, list, d).Some?
    ensures ReadDebug(strings, table, WriteDebug(strings, list, d).value) == Got(Plain(d), [])
  {
    hide WriteRef, ReadRef, ReadVarInt, VarInt, Interned, Resolves;
    var scope, file := WriteRef(list, d.scope).value, WriteRef(list, d.file).value;
    var numbers := VarInt(d.line) + VarInt(d.column);
    assert Interned(list[..count], Deps(d)[0]) && Interned(list[..count], Deps(d)[1]);
    VarIntRoundTrip(TAG_LEXICAL_BLOCK, scope + (file + numbers));
    RefReadBack(list, count, table, d.scope, file + numbers);
    RefReadBack(list, count, table, d.file, numbers);
    PlainClasses(d.scope);
    PlainClasses(d.file);
    NumbersReadBack(d.line, d.column);
  }

  lemma {:induction false} NumbersReadBack(line: nat, column: nat)
    requires line < TWO_TO_THE_32 && column < TWO_TO_THE_32
    ensures ReadVarInt(VarInt(line) + VarInt(column)) == Got(line, VarInt(column))
    ensures ReadVarInt(VarInt(column)) == Got(column, [])
  {
    VarIntRoundTrip(line, VarInt(column));
    VarIntRoundTrip(column, []);
    assert VarInt(column) + [] == VarInt(column);
  }

  lemma {:induction false} LocReadBack(strings: seq<bytes>, list: seq<Debug>, count: nat,
                                       table: seq<Option<Debug>>, d: Debug)
    requires d.Loc? && WellTyped(d) && count <= |list| && Resolves(list, count, table)
    requires DepsInterned(list[..count], d) && WriteDebug(strings, list, d).Some?
    ensures ReadDebug(strings, table, WriteDebug(strings, list, d).value) == Got(Plain(d), [])
  {
    hide WriteRef, ReadRef, ReadVarInt, VarInt, Interned, Resolves, WriteString, ReadString;
    var scope, fileName := WriteRef(list, d.scope).value, WriteString(strings, d.fileName).value;
    var numbers := VarInt(d.line) + VarInt(d.column);
    assert Interned(list[..count], Deps(d)[0]);
    VarIntRoundTrip(TAG_LOC, scope + (fileName + numbers));
    RefReadBack(list, count, table, d.scope, fileName + numbers);
    StringReadBack(strings, d.fileName, numbers);
    PlainClasses(d.scope);
    NumbersReadBack(d.line, d.column);
  }

  lemma {:induction false} SubprogramReadBack(strings: seq<bytes>, list: seq<Debug>, count: nat,
                                              table: seq<Option<Debug>>, d: Debug)
    requires d.Subprogram? && WellTyped(d) && count <= |list| && Resolves(list, count, table)
    requires DepsInterned(list[..count], d) && WriteDebug(strings, list, d).Some?
    ensures ReadDebug(strings, table, WriteDebug(strings, list, d).value) == Got(Plain(d), [])
  {
    hide WriteRef, ReadRef, ReadVarInt, VarInt, Interned, Resolves, WriteString, ReadString;
    var file, unit := WriteRef(list, d.file).value, WriteRef(list, d.unit).value;
    var name, linkage := WriteString(strings, d.name).value, WriteString(strings, d.linkageName).value;
    assert Interned(list[..count], Deps(d)[0]) && Interned(list[..count], Deps(d)[1]);
    var end := VarInt(d.scopeLine);
    VarIntRoundTrip(TAG_SUBPROGRAM, file + (VarInt(d.line) + (name + (linkage + (unit + end)))));
    RefReadBack(list, count, table, d.file, VarInt(d.line) + (name + (linkage + (unit + end))));
    VarIntRoundTrip(d.line, name + (linkage + (unit + end)));
    StringReadBack(strings, d.name, linkage + (unit + end));
    StringReadBack(strings, d.linkageName, unit + end);
    RefReadBack(list, count, table, d.unit, end);
    NumbersReadBack(d.scopeLine, d.scopeLine);
    PlainClasses(d.file);
    PlainClasses(d.unit);
  }

  lemma {:induction false} CallSiteReadBack(strings: seq<bytes>, list: seq<Debug>, count: nat,
                                            table: seq<Option<Debug>>, d: Debug)
    requires d.CallSite? && WellTyped(d) && count <= |list| && Resolves(list, count, table)
    requires DepsInterned(list[..count], d) && WriteDebug(strings, list, d).Some?
    ensures ReadDebug(strings, table, WriteDebug(strings, list, d).value) == Got(Plain(d), [])
  {
    hide WriteRef, ReadRef, ReadVarInt, VarInt, Interned, Resolves;
    var callee, caller := WriteRef(list, d.callee).value, WriteRef(list, d.caller).value;
    assert Interned(list[..count], Deps(d)[0]) && Interned(list[..count], Deps(d)[1]);
    VarIntRoundTrip(TAG_CALL_SITE, callee + caller);
    RefReadBack(list, count, table, d.callee, caller);
    RefReadBack(list, count, table, d.caller, []);
    assert caller + [] == caller;
    PlainClasses(d.callee);
    PlainClasses(d.caller);
  }

  lemma {:induction false} UnitOrFileReadBack(strings: seq<bytes>, list: seq<Debug>, count: nat,
                                              table: seq<Option<Debug>>, d: Debug)
    requires (d.CompileUnit? || d.File?) && WellTyped(d) && count <= |list| && Resolves(list, count, table)
    requires DepsInterned(list[..count], d) && WriteDebug(strings, list, d).Some?
    ensures ReadDebug(strings, table, WriteDebug(strings, list, d).value) == Got(Plain(d), [])
  {
    hide WriteRef, ReadRef, ReadVarInt, VarInt, Interned, Resolves, WriteString, ReadString;
    if d.CompileUnit? {
      var file := WriteRef(list, d.file).value;
      assert Interned(list[..count], Deps(d)[0]);
      VarIntRoundTrip(TAG_COMPILE_UNIT, file);
      RefReadBack(list, count, table, d.file, []);
      assert file + [] == file;
      PlainClasses(d.file);
    } else {
      var name, directory := WriteString(strings, d.name).value, WriteString(strings, d.directory).value;
      VarIntRoundTrip(TAG_FILE, name + directory);
      StringReadBack(strings, d.name, directory);
      StringReadBack(strings, d.directory, []);
      assert directory + [] == directory;
    }
  }

  predicate WrittenTable(strings: seq<bytes>, list: seq<Debug>, entries: seq<Option<bytes>>) {
    |entries| == |list| &&
    forall i :: 0 <= i < |list| ==> WellTyped(list[i]) && entries[i].Some? && WriteDebug(strings, list, list[i]) == entries[i]
  }

  lemma {:induction false} EntryReadBack(strings: seq<bytes>, list: seq<Debug>, entries: seq<Option<bytes>>, i: nat,
                                         table: seq<Option<Debug>>)
    requires Closed(list) && WrittenTable(strings, list, entries) && i < |list| && Resolves(list, i, table)
    ensures ParseDebug(strings, entries, i, table) == Done(Plain(list[i]))
  {
    hide WriteDebug, ReadDebug, Resolves, DepsInterned;
    var d := list[i];
    if d.LexicalBlock? {
      BlockReadBack(strings, list, i, table, d);
    } else if d.Loc? {
      LocReadBack(strings, list, i, table, d);
    } else if d.Subprogram? {
      SubprogramReadBack(strings, list, i, table, d);
    } else if d.CallSite? {
      CallSiteReadBack(strings, list, i, table, d);
    } else {
      OnlyThese(strings, list, d);
      UnitOrFileReadBack(strings, list, i, table, d);
    }
  }

  lemma {:induction false} OnlyThese(strings: seq<bytes>, list: seq<Debug>, d: Debug)
    requires WriteDebug(strings, list, d).Some?
    ensures d.LexicalBlock? || d.Loc? || d.Subprogram? || d.CallSite? || d.CompileUnit? || d.File?
  {
  }

  function PlainAll(list: seq<Debug>): (r: seq<Debug>)
    ensures |r| == |list|
  {
    seq(|list|, i requires 0 <= i < |list| => Plain(list[i]))
  }

  /** The reader's lookups, in any order and with any cache, give every interned attribute back. */
  lemma {:induction false} DebugTableRoundTrip(strings: seq<bytes>, list: seq<Debug>, entries: seq<Option<bytes>>)
    requires Closed(list) && WrittenTable(strings, list, entries)
    ensures Sequential(|entries|, DebugParser(strings, entries))
    ensures Resolves(list, |list|, Decoded(|entries|, DebugParser(strings, entries)))
  {
    hide Round, Sequential, WriteDebug, ReadDebug, WellTyped;
    DebugParserIsSequential(strings, entries);
    var n, parse := |list|, DebugParser(strings, entries);
    forall i: nat, table: seq<Option<Debug>> {:trigger parse(i, table)}
      | i < n && |table| == n && (forall j :: 0 <= j < i ==> table[j] == Some(PlainAll(list)[j]))
      ensures parse(i, table) == Done(PlainAll(list)[i])
    {
      EntryReadBack(strings, list, entries, i, table);
    }
    OrderedTableDecodes(n, parse, PlainAll(list), n);
  }

  // ---------------------------------------------------------------- the streams of locations

  /** What an index stands for, given the decoded table. */
  function Resolve(table: seq<Option<Debug>>, index: nat): Option<Debug> {
    if index == 0 then Some(UnknownLoc)
    else if index - 1 < |table| then table[index - 1]
    else None
  }

  /** The locations from `start` on, up to one that cannot be read. */
  function Found(indices: seq<nat>, table: seq<Option<Debug>>, start: nat): seq<Debug>
    decreases |indices| - start
  {
    if start >= |indices| || Resolve(table, indices[start]).None? then []
    else [Resolve(table, indices[start]).value] + Found(indices, table, start + 1)
  }

  /** The locations of a function from the `k`-th on; index 0 hides them all. */
  function StreamFrom(indices: seq<nat>, indexOffsets: seq<nat>, table: seq<Option<Debug>>, opIndex: nat,
                      k: nat): LocStream {
    if opIndex == 0 then Hidden
    else if opIndex - 1 >= |indexOffsets| || |indices| > MAX_COUNT || indexOffsets[opIndex - 1] > MAX_COUNT then Listed([])
    else Listed(Found(indices, table, indexOffsets[opIndex - 1] + k))
  }

  /** One function's location iterator. */
  class Iterator {
    const indices: seq<nat>
    const indexOffsets: seq<nat>
    const table: seq<Option<Debug>>
    const opIndex: nat
    var opIndexOffset: nat

    constructor (indices: seq<nat>, indexOffsets: seq<nat>, table: seq<Option<Debug>>, opIndex: nat)
      ensures this.indices == indices && this.indexOffsets == indexOffsets && this.table == table
      ensures this.opIndex == opIndex && opIndexOffset == 0
    {
      this.indices, this.indexOffsets, this.table, this.opIndex := indices, indexOffsets, table, opIndex;
      opIndexOffset := 0;
    }

    /** The locations that are still to come. */
    function Stream(): LocStream
      reads this
    {
      StreamFrom(indices, indexOffsets, table, opIndex, opIndexOffset)
    }

    method Next() returns (r: Option<Debug>)
      modifies this
      ensures match DebugIr.Next(old(Stream()))
              case None => r == None
              case Some((loc, later)) => r == Some(loc) && Stream() == later
    {
      if opIndex == 0 {
        return Some(UnknownLoc);
      }
      if opIndex - 1 >= |indexOffsets| {
        return None;
      }
      var offset := indexOffsets[opIndex - 1];
      if |indices| > MAX_COUNT || offset > MAX_COUNT {
        return None;
      }
      FoundStep(indices, table, offset + opIndexOffset);
      if offset + opIndexOffset >= |indices| {
        return None;
      }
      r := Resolve(table, indices[offset + opIndexOffset]);
      opIndexOffset := opIndexOffset + 1;
    }
  }

  lemma {:induction false} FoundStep(indices: seq<nat>, table: seq<Option<Debug>>, start: nat)
    ensures start >= |indices| || Resolve(table, indices[start]).None? ==> Found(indices, table, start) == []
    ensures start < |indices| && Resolve(table, indices[start]).Some? ==>
              Found(indices, table, start) != [] && Found(indices, table, start)[0] == Resolve(table, indices[start]).value &&
              Found(indices, table, start)[1..] == Found(indices, table, start + 1)
  {
  }

  lemma {:induction false} FoundPart(indices: seq<nat>, table: seq<Option<Debug>>, start: nat, k: nat)
    requires start + k <= |indices| && forall i :: start <= i < start + k ==> Resolve(table, indices[i]).Some?
    ensures Found(indices, table, start) ==
            seq(k, i requires 0 <= i < k => Resolve(table, indices[start + i]).value) + Found(indices, table, start + k)
    decreases k
  {
    hide Resolve;
    if k > 0 {
      FoundPart(indices, table, start + 1, k - 1);
      var tail := seq(k - 1, i requires 0 <= i < k - 1 => Resolve(table, indices[start + 1 + i]).value);
      assert seq(k, i requires 0 <= i < k => Resolve(table, indices[start + i]).value) ==
             [Resolve(table, indices[start]).value] + tail;
    }
  }

  lemma {:induction false} ResolvedRef(list: seq<Debug>, table: seq<Option<Debug>>, d: Debug)
    requires Resolves(list, |list|, table) && Interned(list, d)
    ensures Resolve(table, IndexFor(list, d)) == Some(Plain(d))
  {
  }

  lemma {:induction false} AllResolve(list: seq<Debug>, recorded: seq<seq<Debug>>, lists: seq<seq<nat>>,
                                      table: seq<Option<Debug>>)
    requires Resolves(list, |list|, table) && Indexed(list, recorded, lists)
    ensures forall i :: 0 <= i < |Concat(lists)| ==> Resolve(table, Concat(lists)[i]).Some?
  {
    hide Resolves, Interned, IndexFor, Resolve;
    if lists != [] {
      AllResolve(list, recorded[1..], lists[1..], table);
      forall k | 0 <= k < |lists[0]| ensures Resolve(table, lists[0][k]).Some? {
        ResolvedRef(list, table, recorded[0][k]);
      }
    }
  }

  /**
    The stream of function `f` starts with the locations recorded for it, in the order in
    which they were recorded (up to plain file locations, which become unknown).
    */
  lemma {:induction false} StreamsRoundTrip(list: seq<Debug>, recorded: seq<seq<Debug>>, lists: seq<seq<nat>>,
                                            table: seq<Option<Debug>>, f: nat)
    requires Resolves(list, |list|, table) && Indexed(list, recorded, lists) && f < |recorded|
    ensures forall i :: 0 <= i < |Concat(lists)| ==> Resolve(table, Concat(lists)[i]).Some?
    ensures PlainAll(recorded[f]) <= Found(Concat(lists), table, Offsets(lists, 0)[f])
  {
    hide Resolves, Interned, IndexFor, Resolve, Concat, Offsets;
    AllResolve(list, recorded, lists, table);
    var indices, start, k := Concat(lists), Offsets(lists, 0)[f], |recorded[f]|;
    SliceIsEntry(lists, f);
    FoundPart(indices, table, start, k);
    var part := seq(k, i requires 0 <= i < k => Resolve(table, indices[start + i]).value);
    forall i | 0 <= i < k ensures part[i] == PlainAll(recorded[f])[i] {
      ItemAtOffset(lists, f, i);
      ResolvedRef(list, table, recorded[f][i]);
    }
    assert part == PlainAll(recorded[f]);
  }
}
