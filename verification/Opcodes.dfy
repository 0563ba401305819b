/**
  Which opcodes a version knows: the table built when the tools are generated holds one
  number for every version, the highest opcode, filled forward over versions that add none.
  Versions are compared without their tag here.
  */
module Opcodes {
  import opened Base
  import opened Bodies

  /** An opcode, the version of its operation, and whether it is public. */
  datatype Record = Record(opcode: nat, since: Version, isPublic: bool)

  function Release(v: Version): Version {
    Version(v.major, v.minor, 0)
  }

  // ---------------------------------------------------------------- sorting the versions

  /** A version that is listed twice changes nothing, so it is kept once. */
  function Insert(v: Version, vs: seq<Version>): (r: seq<Version>)
    ensures forall u :: u in r <==> u == v || u in vs
  {
    if vs == [] || v.Before(vs[0]) then [v] + vs
    else if v == vs[0] then vs
    else [vs[0]] + Insert(v, vs[1..])
  }

  function Sort(vs: seq<Version>): (r: seq<Version>)
    ensures forall u :: u in r <==> u in vs
  {
    if vs == [] then [] else Insert(vs[0], Sort(vs[1..]))
  }

  predicate Ascending(vs: seq<Version>) {
    forall i, j :: 0 <= i < j < |vs| ==> vs[i].Before(vs[j])
  }

  lemma {:induction false} InsertAscends(v: Version, vs: seq<Version>)
    requires Ascending(vs)
    ensures Ascending(Insert(v, vs))
  {
    if vs != [] && !v.Before(vs[0]) && v != vs[0] {
      InsertAscends(v, vs[1..]);
      var tail := Insert(v, vs[1..]);
      forall j | 0 <= j < |tail| ensures vs[0].Before(tail[j]) {
        assert tail[j] in tail;
      }
    }
  }

  lemma {:induction false} SortAscends(vs: seq<Version>)
    ensures Ascending(Sort(vs))
  {
    if vs != [] {
      SortAscends(vs[1..]);
      InsertAscends(vs[0], Sort(vs[1..]));
    }
  }

  // ---------------------------------------------------------------- the table

  /** The highest public opcode a version itself introduces, 0 if there is none. */
  function Introduced(records: seq<Record>, v: Version): nat {
    if records == [] then 0
    else
      var before := Introduced(records[..|records| - 1], v);
      var r := records[|records| - 1];
      if r.isPublic && r.since == v && r.opcode > before then r.opcode else before
  }

  /** Filled forward: where a version introduces nothing, the one before it decides. */
  function Filled(records: seq<Record>, sorted: seq<Version>, i: nat): nat
    requires i <= |sorted|
  {
    if i == 0 then 0
    else
      var own := Introduced(records, sorted[i - 1]);
      if own == 0 then Filled(records, sorted, i - 1) else own
  }

  predicate HasRecord(records: seq<Record>, v: Version) {
    exists i :: 0 <= i < |records| && records[i].isPublic && records[i].since == v
  }

  /** What the two loops leave in the map; versions that are not supported keep their own entry. */
  ghost predicate IsTable(records: seq<Record>, supported: seq<Version>, table: map<Version, nat>) {
    var sorted := Sort(supported);
    && (forall v :: v in table <==> v in supported || HasRecord(records, v))
    && (forall i: nat :: i < |sorted| ==> EntryIs(records, sorted, i, table))
    && (forall v :: v in table && v !in supported ==> table[v] == Introduced(records, v))
  }

  predicate EntryIs(records: seq<Record>, sorted: seq<Version>, i: nat, table: map<Version, nat>)
    requires i < |sorted|
  {
    sorted[i] in table && table[sorted[i]] == Filled(records, sorted, i + 1)
  }

  /** First the highest opcode each version introduces, then the forward fill. */
  method BuildTable(records: seq<Record>, supported: seq<Version>) returns (table: map<Version, nat>)
    ensures IsTable(records, supported, table)
  {
    hide Introduced, Filled, HasRecord;
    table := map[];
    forall v: Version ensures IsRaw([], v, table) {
      NoneIntroduced(v);
    }
    for i := 0 to |records|
      invariant forall v :: IsRaw(records[..i], v, table)
    {
      var r := records[i];
      ghost var before, now := table, records[..i + 1];
      assert now[..i] == records[..i];
      if r.isPublic {
        var highest := if r.since in table then table[r.since] else 0;
        table := table[r.since := if r.opcode > highest then r.opcode else highest];
      }
      forall v: Version ensures IsRaw(now, v, table) {
        assert IsRaw(records[..i], v, before);
        OneRecordMore(now, v);
      }
    }
    assert records[..|records|] == records;
    table := FillForward(records, supported, table);
  }

  lemma {:induction false} NoneIntroduced(v: Version)
    ensures Introduced([], v) == 0 && !HasRecord([], v)
  {
  }

  predicate IntroducedStep(records: seq<Record>, v: Version)
    requires records != []
  {
    var last, before := records[|records| - 1], records[..|records| - 1];
    && (HasRecord(records, v) <==> HasRecord(before, v) || (last.isPublic && last.since == v))
    && Introduced(records, v) ==
       if last.isPublic && last.since == v && last.opcode > Introduced(before, v) then last.opcode else Introduced(before, v)
  }

  lemma {:induction false} OneRecordMore(records: seq<Record>, v: Version)
    requires records != []
    ensures IntroducedStep(records, v)
  {
    var last, before := records[|records| - 1], records[..|records| - 1];
    if HasRecord(records, v) && !(last.isPublic && last.since == v) {
      var i :| 0 <= i < |records| && records[i].isPublic && records[i].since == v;
      assert before[i] == records[i];
    }
    if HasRecord(before, v) {
      var i :| 0 <= i < |before| && before[i].isPublic && before[i].since == v;
      assert records[i] == before[i];
    }
  }

  predicate IsRaw(records: seq<Record>, v: Version, raw: map<Version, nat>) {
    (v in raw <==> HasRecord(records, v)) && Introduced(records, v) == if v in raw then raw[v] else 0
  }

  method FillForward(records: seq<Record>, supported: seq<Version>, raw: map<Version,
                     nat>) returns (table: map<Version, nat>)
    requires forall v :: IsRaw(records, v, raw)
    ensures IsTable(records, supported, table)
  {
    hide Introduced, HasRecord, Sort;
    var sorted := Sort(supported);
    SortAscends(supported);
    table := raw;
    var previous := 0;
    for i := 0 to |sorted|
      invariant previous == Filled(records, sorted, i)
      invariant forall j: nat :: j < i ==> EntryIs(records, sorted, j, table)
      invariant forall v :: v in table <==> v in sorted[..i] || v in raw
      invariant forall v :: v in raw && v !in sorted[..i] ==> table[v] == raw[v]
    {
      var v := sorted[i];
      assert v !in sorted[..i];
      var own := if v in table then table[v] else 0;
      assert own == Introduced(records, v) by {
        assert IsRaw(records, v, raw);
      }
      assert sorted[..i + 1] == sorted[..i] + [v];
      if own == 0 {
        own := previous;
      }
      ghost var before := table;
      table := table[v := own];
      previous := own;
      forall j: nat | j < i + 1 ensures EntryIs(records, sorted, j, table) {
        if j < i {
          assert sorted[j] in sorted[..i];
          assert EntryIs(records, sorted, j, before);
        }
      }
    }
    assert sorted[..|sorted|] == sorted;
    forall v ensures v in table <==> v in supported || HasRecord(records, v) {
      assert IsRaw(records, v, raw);
    }
    forall v | v in table && v !in supported ensures table[v] == Introduced(records, v) {
      assert IsRaw(records, v, raw);
    }
  }

  // ---------------------------------------------------------------- the gate

  /** The test the writer and the reader make before anything else of an operation. */
  predicate Available(table: map<Version, nat>, opcode: nat, v: Version) {
    Release(v) in table && opcode <= table[Release(v)]
  }

  /** The versions in which the public operations came are versions of the format. */
  predicate AllSupported(records: seq<Record>, supported: seq<Version>) {
    (forall v :: v in supported ==> v == Release(v)) &&
    forall i :: 0 <= i < |records| && records[i].isPublic ==> records[i].since in supported
  }

  predicate InOrder(a: Record, b: Record) {
    a.isPublic && b.isPublic && a.since.Before(b.since) ==> a.opcode < b.opcode
  }

  /** Later operations have higher opcodes, and opcode 0 belongs to the oldest version. */
  predicate WellNumbered(records: seq<Record>, supported: seq<Version>) {
    && (forall i, j :: 0 <= i < |records| && 0 <= j < |records| ==> InOrder(records[i], records[j]))
    && (forall i, v :: 0 <= i < |records| && v in supported ==> ZeroIsOldest(records[i], v))
  }

  predicate ZeroIsOldest(r: Record, v: Version) {
    r.isPublic && r.opcode == 0 ==> v.AtLeast(r.since)
  }

  predicate GateExact(records: seq<Record>, table: map<Version, nat>, i: nat, v: Version)
    requires i < |records|
  {
    Available(table, records[i].opcode, v) <==> v.AtLeast(records[i].since)
  }

  lemma {:induction false} IntroducedIsHighest(records: seq<Record>, v: Version, i: nat)
    requires i < |records| && records[i].isPublic && records[i].since == v
    ensures records[i].opcode <= Introduced(records, v)
  {
    if i < |records| - 1 {
      IntroducedIsHighest(records[..|records| - 1], v, i);
    }
  }

  lemma {:induction false} IntroducedIsTaken(records: seq<Record>, v: Version) returns (i: nat)
    requires Introduced(records, v) > 0
    ensures i < |records| && records[i].isPublic && records[i].since == v && records[i].opcode == Introduced(records, v)
  {
    var before := records[..|records| - 1];
    i := |records| - 1;
    if Introduced(before, v) == Introduced(records, v) {
      i := IntroducedIsTaken(before, v);
    }
  }

  lemma {:induction false} FilledIsExact(records: seq<Record>, supported: seq<Version>, k: nat, i: nat)
    requires AllSupported(records, supported) && WellNumbered(records, supported)
    requires k < |Sort(supported)| && i < |records| && records[i].isPublic
    ensures records[i].opcode <= Filled(records, Sort(supported), k + 1) <==>
            Sort(supported)[k].AtLeast(records[i].since)
  {
    hide Introduced, Sort;
    var sorted, r := Sort(supported), records[i];
    SortAscends(supported);
    var v := sorted[k];
    assert v in supported && sorted[0] in supported;
    assert ZeroIsOldest(r, sorted[0]);
    var at :| 0 <= at < |sorted| && sorted[at] == r.since;
    if r.since == v {
      IntroducedIsHighest(records, v, i);
    }
    if Introduced(records, v) > 0 {
      var j := IntroducedIsTaken(records, v);
      assert InOrder(records[i], records[j]) && InOrder(records[j], records[i]);
    } else if k > 0 {
      FilledIsExact(records, supported, k - 1, i);
      assert sorted[k - 1].Before(v);
    }
  }

  /**
    The gate lets an operation pass in exactly the versions from its own on, for every public
    opcode and every version of the format, if and only if the opcodes are well numbered.
    */
  lemma {:induction false} GateIsExact(records: seq<Record>, supported: seq<Version>, table: map<Version, nat>)
    requires IsTable(records, supported, table) && AllSupported(records, supported)
    ensures WellNumbered(records, supported) <==>
            forall i: nat, v :: i < |records| && records[i].isPublic && v in supported ==> GateExact(records, table, i, v)
  {
    hide Introduced, Filled, Sort;
    if WellNumbered(records, supported) {
      forall i: nat, v | i < |records| && records[i].isPublic && v in supported ensures GateExact(records, table, i, v) {
        var k: nat :| k < |Sort(supported)| && Sort(supported)[k] == v;
        assert EntryIs(records, Sort(supported), k, table);
        FilledIsExact(records, supported, k, i);
      }
    }
    if forall i: nat, v :: i < |records| && records[i].isPublic && v in supported ==> GateExact(records, table, i, v) {
      forall i: nat, j: nat | i < |records| && j < |records| ensures InOrder(records[i], records[j]) {
        if records[i].isPublic && records[j].isPublic {
          assert GateExact(records, table, i, records[i].since) && GateExact(records, table, j, records[i].since);
        }
      }
      forall i: nat, v | i < |records| && v in supported ensures ZeroIsOldest(records[i], v) {
        SupportedInTable(records, supported, table, v);
        assert records[i].isPublic ==> GateExact(records, table, i, v);
      }
    }
  }

  lemma {:induction false} SupportedInTable(records: seq<Record>, supported: seq<Version>, table: map<Version,
                                            nat>, v: Version)
    requires IsTable(records, supported, table) && v in supported
    ensures v in table
  {
  }

  /** Without a public opcode of its own, an operation's version must be listed: here it is not. */
  lemma {:induction false} UnlistedVersionIsLost(table: map<Version, nat>)
    requires IsTable([Record(5, Version(13, 2, 0), true)], [Version(13, 1, 0), Version(13, 3, 0)], table)
    ensures !Available(table, 5, Version(13, 3, 0)) && Available(table, 5, Version(13, 2, 0))
  {
    var records, a, b := [Record(5, Version(13, 2, 0), true)], Version(13, 1, 0), Version(13, 3, 0);
    assert [a, b][1..] == [b] && [b][1..] == [];
    assert Sort([a, b]) == [a, b];
    assert records[..0] == [];
    assert Introduced(records, a) == 0 && Introduced(records, b) == 0 && Introduced(records, Version(13, 2, 0)) == 5;
    assert Filled(records, [a, b], 1) == 0;
    assert EntryIs(records, [a, b], 1, table);
    assert HasRecord(records, Version(13, 2, 0)) by {
      assert records[0].isPublic;
    }
  }

  /** In a function body: the gate of a version is the highest opcode of its table entry. */
  function GateOf(table: map<Version, nat>, v: Version): Option<nat> {
    if Release(v) in table then Some(table[Release(v)]) else None
  }

  /** The body writer refuses an operation that the version does not have, whatever else it holds. */
  lemma {:induction false} NewerOperationIsRefused(records: seq<Record>, supported: seq<Version>, table: map<Version, nat>,
                                                   b: BodyEnv, uses: set<Value>, scope: seq<Value>, path: Path, op: Op, i: nat)
    requires IsTable(records, supported, table) && AllSupported(records, supported) && WellNumbered(records, supported)
    requires Release(b.env.version) in supported && b.maxOpcode == GateOf(table, b.env.version)
    requires i < |records| && records[i].isPublic && records[i].opcode == op.opcode
    requires Release(b.env.version).Before(records[i].since)
    ensures WriteOp(b, uses, scope, path, op) == None
  {
    GateIsExact(records, supported, table);
    assert GateExact(records, table, i, Release(b.env.version));
  }
}
