/**
  The writers of the sections, from the map of functions to the type table. What each leaves
  on its stream is the encoding under the tables it leaves behind; where it fails no further
  entries of the tables would help.
  */
module SectionWriters {
  import opened Base
  import opened VarInts
  import opened Encoding
  import opened Ir
  import opened DebugIr
  import opened AttrCodec
  import opened AttrTables
  import opened Streams
  import opened Interning
  import opened AttrWriters
  import opened TypeWriters
  import opened TableGrowth
  import opened DebugInfos
  import opened Bodies
  import opened FunctionTables
  import opened FunctionTableWriters
  import opened ModuleFiles
  import opened TypeCodec
  import Globals
  import opened Opcodes

  /** The lists while the first `k` bodies are written: no two functions share one. */
  predicate Collected(fs: seq<Function>, locs: seq<nat>, recorded: seq<seq<Debug>>, k: nat) {
    && |locs| == |fs|
    && (forall i :: 0 <= i < |fs| ==> ListIs(fs[i], locs[i], recorded, i < k))
    && (forall i, j :: 0 <= i < j < |fs| && locs[i] > 0 ==> locs[i] != locs[j])
  }

  predicate ListIs(f: Function, loc: nat, recorded: seq<seq<Debug>>, written: bool) {
    if loc == 0 then Reserved(f.loc)
    else !Reserved(f.loc) && loc <= |recorded| && recorded[loc - 1] == [f.loc] + if written then LocsOfOps(f.ops) else []
  }

  // ---------------------------------------------------------------- the map of functions

  /** The indices of a function's name and signature, as they were when the functions were collected. */
  datatype FunctionMetadata = FunctionMetadata(nameIndex: nat, signatureIndex: nat)

  predicate MetadataOf(e: Env, f: Function, meta: FunctionMetadata) {
    IndexOf(e.strings, f.name) == Some(meta.nameIndex) &&
    IndexOf(e.types, Some(Func(f.ins, f.outs))) == Some(meta.signatureIndex)
  }

  predicate Mapped(e: Env, fs: seq<Function>, metas: seq<FunctionMetadata>) {
    |metas| == |fs| && forall i :: 0 <= i < |fs| ==> MetadataOf(e, fs[i], metas[i])
  }

  lemma {:induction false} MetadataLater(e1: Env, e2: Env, f: Function, meta: FunctionMetadata)
    requires Continues(e1, e2) && MetadataOf(e1, f, meta)
    ensures MetadataOf(e2, f, meta)
  {
    IndexOfStable(e1.strings, e2.strings, f.name);
    IndexOfStable(e1.types, e2.types, Some(Func(f.ins, f.outs)));
  }

  lemma {:induction false} MappedLater(e1: Env, e2: Env, fs: seq<Function>, metas: seq<FunctionMetadata>)
    requires Continues(e1, e2) && Mapped(e1, fs, metas)
    ensures Mapped(e2, fs, metas)
  {
    hide MetadataOf;
    forall i | 0 <= i < |fs| ensures MetadataOf(e2, fs[i], metas[i]) {
      MetadataLater(e1, e2, fs[i], metas[i]);
    }
  }

  /**
    Every function's name and signature are interned; it gets an index, and its own location
    goes to the front of its list.
    */
  method BuildFunctionMap(fs: seq<Function>, m: Managers, debuginfo: DebugInfoWriter)
    returns (metas: seq<FunctionMetadata>, locs: seq<nat>)
    requires m.Valid() && debuginfo.Valid() && debuginfo.opIndexMap == map[] && debuginfo.recorded == []
    modifies m.Repr(), debuginfo
    ensures m.Valid() && Continues(old(m.Now()), m.Now()) && Mapped(m.Now(), fs, metas)
    ensures debuginfo.Valid() && |locs| == |fs| && Collected(fs, locs, debuginfo.recorded, 0)
    ensures ListsOpened(debuginfo.recorded, locs)
  {
    hide DebugInfoWriter.Valid, LocsOfOps, ListsOpened, Managers.Valid, Managers.Now, Continues, Mapped, Collected;
    NothingCollected();
    assert ListsOpened([], []) by {
      NothingOpened();
    }
    metas, locs := [], [];
    Reflexive(m.Now());
    NothingMapped(m.Now());
    for i := 0 to |fs|
      invariant m.Valid() && Continues(old(m.Now()), m.Now()) && Mapped(m.Now(), fs[..i], metas)
      invariant debuginfo.Valid() && Collected(fs[..i], locs, debuginfo.recorded, 0)
      invariant |debuginfo.recorded| == |debuginfo.opIndexMap|
      invariant ListsOpened(debuginfo.recorded, locs)
      invariant |locs| == i && forall op :: op in debuginfo.opIndexMap ==> op < i
      invariant forall k :: 0 <= k < i ==> locs[k] <= |debuginfo.recorded|
    {
      ghost var recorded, e := debuginfo.recorded, m.Now();
      var meta := MapOne(fs[i], fs[..i], metas, m);
      Transitive(old(m.Now()), e, m.Now());
      var index := debuginfo.GetOpIndex(i, fs[i].loc);
      debuginfo.AddDebugInfo(index, fs[i].loc);
      assert index > 0 ==> debuginfo.recorded == recorded + [[fs[i].loc]] by {
        if index > 0 {
          NewList(recorded, fs[i].loc);
        }
      }
      OneMore(recorded, debuginfo.recorded, locs, index);
      OneMoreCollected(fs[..i], fs[i], locs, recorded, debuginfo.recorded, index);
      metas, locs := metas + [meta], locs + [index];
      assert fs[..i + 1] == fs[..i] + [fs[i]];
    }
    assert fs[..|fs|] == fs;
  }

  lemma {:induction false} NothingCollected()
    ensures Collected([], [], [], 0)
  {
  }

  /** A function with a list of its own, or none. */
  lemma {:induction false} OneMoreCollected(fs: seq<Function>, f: Function, locs: seq<nat>, recorded: seq<seq<Debug>>,
                                            after: seq<seq<Debug>>, index: nat)
    requires Collected(fs, locs, recorded, 0) && (forall k :: 0 <= k < |locs| ==> locs[k] <= |recorded|)
    requires if index == 0 then Reserved(f.loc) && after == recorded
             else !Reserved(f.loc) && index == |recorded| + 1 && after == recorded + [[f.loc]]
    ensures Collected(fs + [f], locs + [index], after, 0)
  {
    hide LocsOfOps;
    forall i | 0 <= i < |fs + [f]| ensures ListIs((fs + [f])[i], (locs + [index])[i], after, false) {
      if i < |fs| {
        assert ListIs(fs[i], locs[i], recorded, false);
      } else {
        assert [f.loc] + [] == [f.loc];
      }
    }
  }

  lemma {:induction false} NothingMapped(e: Env)
    ensures Mapped(e, [], [])
  {
  }

  method MapOne(f: Function, ghost before: seq<Function>, ghost metas: seq<FunctionMetadata>, m: Managers)
    returns (meta: FunctionMetadata)
    requires m.Valid() && Mapped(m.Now(), before, metas)
    modifies m.Repr()
    ensures m.Valid() && Continues(old(m.Now()), m.Now()) && Mapped(m.Now(), before + [f], metas + [meta])
  {
    hide Managers.Valid, Managers.Now, Mapped, Continues, IndexOf;
    ghost var e0 := m.Now();
    var nameIndex := m.StringIndex(f.name);
    ghost var e1 := m.Now();
    var signatureIndex := m.TypeIndex(Func(f.ins, f.outs));
    meta := FunctionMetadata(nameIndex, signatureIndex);
    NameLater(e1, m.Now(), f.name);
    Transitive(e0, e1, m.Now());
    MappedLater(e0, m.Now(), before, metas);
    MapGrows(m.Now(), before, metas, f, meta);
  }

  lemma {:induction false} NameLater(e1: Env, e2: Env, s: bytes)
    requires Continues(e1, e2) && IndexOf(e1.strings, s).Some?
    ensures IndexOf(e2.strings, s) == IndexOf(e1.strings, s)
  {
    IndexOfStable(e1.strings, e2.strings, s);
  }

  lemma {:induction false} MapGrows(e: Env, before: seq<Function>, metas: seq<FunctionMetadata>, f: Function,
                                    meta: FunctionMetadata)
    requires Mapped(e, before, metas) && MetadataOf(e, f, meta)
    ensures Mapped(e, before + [f], metas + [meta])
  {
    hide MetadataOf;
  }

  /** There are lists only if some function has one. */
  predicate ListsOpened(recorded: seq<seq<Debug>>, locs: seq<nat>) {
    recorded != [] ==> exists i :: 0 <= i < |locs| && locs[i] > 0
  }

  lemma {:induction false} NothingOpened()
    ensures ListsOpened([], [])
  {
  }

  lemma {:induction false} OneMore(recorded: seq<seq<Debug>>, after: seq<seq<Debug>>, locs: seq<nat>, index: nat)
    requires ListsOpened(recorded, locs) && (index == 0 ==> after == recorded)
    ensures ListsOpened(after, locs + [index])
  {
    if index == 0 && recorded != [] {
      var i :| 0 <= i < |locs| && locs[i] > 0;
      assert (locs + [index])[i] > 0;
    } else {
      assert (locs + [index])[|locs|] == index;
    }
  }

  lemma {:induction false} NewList(recorded: seq<seq<Debug>>, d: Debug)
    ensures RecordOne(recorded, |recorded| + 1, d) == recorded + [[d]]
  {
    var resized := recorded + seq(|recorded| + 1 - |recorded|, _ => []);
    assert resized[|recorded|] + [d] == [d];
    assert resized[|recorded| := [d]] == recorded + [[d]];
  }

  lemma {:induction false} HiddenRecordsNothing(recorded: seq<seq<Debug>>, locs: seq<Debug>)
    ensures RecordAll(recorded, 0, locs) == recorded
    decreases |locs|
  {
    if locs != [] {
      HiddenRecordsNothing(recorded, locs[1..]);
    }
  }

  /** Writing a body completes the list of its function and touches no other. */
  lemma {:induction false} BodyCollected(fs: seq<Function>, locs: seq<nat>, recorded: seq<seq<Debug>>, k: nat)
    requires k < |fs| && Collected(fs, locs, recorded, k)
    ensures Collected(fs, locs, RecordAll(recorded, locs[k], LocsOfOps(fs[k].ops)), k + 1)
  {
    hide RecordAll, LocsOfOps;
    var added := LocsOfOps(fs[k].ops);
    var after := RecordAll(recorded, locs[k], added);
    if locs[k] == 0 {
      HiddenRecordsNothing(recorded, added);
    } else if added == [] {
      RecordNothing(recorded, locs[k]);
      assert [fs[k].loc] + added == [fs[k].loc] + [];
    }
    forall i | 0 <= i < |fs| ensures ListIs(fs[i], locs[i], after, i < k + 1) {
      assert ListIs(fs[i], locs[i], recorded, i < k);
      if locs[i] > 0 && locs[k] > 0 && added != [] {
        RecordedAtEnd(recorded, locs[k], added, locs[i] - 1);
        assert i != k ==> locs[i] != locs[k];
        assert recorded[locs[i] - 1] + [] == recorded[locs[i] - 1];
        assert [fs[k].loc] + [] == [fs[k].loc];
      }
    }
  }

  // ---------------------------------------------------------------- the function table

  /** The hints of a kernel, or nothing. */
  method PutHints(m: Managers, f: Function, writer: EncodingWriter) returns (ok: bool)
    requires m.Valid()
    modifies m.Repr(), writer`stream
    ensures m.Valid() && Wrote(old(m.Now()), m.Now(), ok, old(writer.stream), writer.stream, WriteHints(m.Now(), f))
    ensures !ok ==> forall e :: Continues(m.Now(), e) ==> WriteHints(e, f).None?
  {
    hide Managers.Valid, Managers.Now, Wrote, WriteTagged;
    NothingNeeded(m.Now(), writer.stream);
    ok := true;
    if f.isEntry && f.hints.Some? {
      ok := WriteSelfContained(m, f.hints.value, writer);
    }
  }

  lemma {:induction false} HintsStable(e1: Env, e2: Env, f: Function)
    requires Continues(e1, e2) && WriteHints(e1, f).Some?
    ensures WriteHints(e2, f) == WriteHints(e1, f)
  {
    hide WriteTagged, Covered;
    if f.isEntry && f.hints.Some? {
      WriteTaggedStable(e1, e2, f.hints.value);
    }
  }

  /** What comes before the body. */
  function EntryHeader(e: Env, f: Function, meta: FunctionMetadata, loc: nat): Option<bytes> {
    Joined(Joined(Joined(Joined(Count(meta.nameIndex), Count(meta.signatureIndex)), Some([Flag(f)])), Count(loc)),
           WriteHints(e, f))
  }

  lemma {:induction false} EntryIsHeaderThenBody(b: BodyEnv, f: Function, meta: FunctionMetadata, loc: nat)
    requires MetadataOf(b.env, f, meta)
    ensures WriteEntry(b, f, loc) ==
            Joined(EntryHeader(b.env, f, meta, loc),
                   if WriteBody(b, f).None? then None
                   else Joined(Count(|WriteBody(b, f).value|), WriteBody(b, f)))
  {
    hide WriteHints, WriteBody, Flag, IndexOf, VarInt;
    if WriteEntry(b, f, loc).Some? {
      var body := WriteBody(b, f).value;
      EntryAssembled(VarInt(meta.nameIndex), VarInt(meta.signatureIndex), [Flag(f)], VarInt(loc),
                     WriteHints(b.env, f).value, VarInt(|body|), body);
    }
  }

  method WriteEntryHeader(m: Managers, f: Function, meta: FunctionMetadata, loc: nat, writer: EncodingWriter)
    returns (ok: bool)
    requires m.Valid()
    modifies m.Repr(), writer`stream
    ensures m.Valid() && Wrote(old(m.Now()), m.Now(), ok, old(writer.stream), writer.stream, EntryHeader(m.Now(), f, meta, loc))
    ensures !ok ==> forall e :: Continues(m.Now(), e) ==> EntryHeader(e, f, meta, loc).None?
  {
    hide Managers.Valid, Managers.Now, WriteHints, Flag, VarInt, Wrote;
    ghost var before := writer.stream;
    NothingWrote(m.Now(), before, before);
    if meta.nameIndex >= TWO_TO_THE_64 || meta.signatureIndex >= TWO_TO_THE_64 || loc >= TWO_TO_THE_64 {
      return false;
    }
    writer.WriteVarInt(meta.nameIndex);
    writer.WriteVarInt(meta.signatureIndex);
    writer.WriteBytes([Flag(f)]);
    writer.WriteVarInt(loc);
    ghost var header := VarInt(meta.nameIndex) + VarInt(meta.signatureIndex) + [Flag(f)] + VarInt(loc);
    FourInFront(before, VarInt(meta.nameIndex), VarInt(meta.signatureIndex), [Flag(f)], VarInt(loc));
    ok := PutHints(m, f, writer);
    WroteBehind(old(m.Now()), m.Now(), ok, before, header, writer.stream, WriteHints(m.Now(), f));
  }

  lemma {:induction false} FourInFront(s: bytes, a: bytes, b: bytes, c: bytes, d: bytes)
    ensures s + a + b + c + d == s + (a + b + c + d)
  {
    Assoc(s, a, b);
    Assoc(s, a + b, c);
    Assoc(s, a + b + c, d);
  }

  /** The tables at this moment, and what the operations are. */
  function FormatNow(m: Managers, c: Format): BodyEnv
    reads m.strMgr, m.typeMgr, m.constMgr
  {
    BodyEnv(m.Now(), c.schemas, GateOf(c.opcodes, m.version))
  }

  /** The body of a function, on a stream of its own. */
  method WriteFunctionBody(m: Managers, c: Format, f: Function, loc: nat, debuginfo: DebugInfoWriter)
    returns (body: Option<bytes>)
    requires m.Valid() && debuginfo.Valid()
    modifies m.Repr(), debuginfo
    ensures m.Valid() && debuginfo.Valid() && Grown(old(FormatNow(m, c)), FormatNow(m, c))
    ensures body == WriteBody(FormatNow(m, c), f)
    ensures body.Some? ==> debuginfo.recorded == RecordAll(old(debuginfo.recorded), loc, LocsOfOps(f.ops))
    ensures body.None? ==> forall later :: Grown(FormatNow(m, c), later) ==> WriteBody(later, f).None?
  {
    hide DebugInfoWriter.Valid, Managers.Valid, Managers.Now, WriteFunction, RecordAll, LocsOfOps, UsesOfOps, GateOf, Grown;
    var functionBody := new EncodingWriter();
    var bodyWriter := new FunctionTableWriter(m, c.schemas, GateOf(c.opcodes, m.version), UsesOfOps(f.ops), debuginfo);
    var ok := bodyWriter.WriteFunctionBody(loc, |f.ins|, f.ops, functionBody);
    assert bodyWriter.Format() == FormatNow(m, c);
    assert ok ==> [] + WriteBody(FormatNow(m, c), f).value == WriteBody(FormatNow(m, c), f).value;
    body := if ok then Some(functionBody.stream) else None;
  }

  method WriteOneEntry(m: Managers, c: Format, f: Function, meta: FunctionMetadata, loc: nat,
                       debuginfo: DebugInfoWriter, writer: EncodingWriter)
    returns (ok: bool)
    requires m.Valid() && debuginfo.Valid() && MetadataOf(m.Now(), f, meta)
    modifies m.Repr(), writer`stream, debuginfo
    ensures m.Valid() && debuginfo.Valid() && Grown(old(FormatNow(m, c)), FormatNow(m, c))
    ensures ok <==> WriteEntry(FormatNow(m, c), f, loc).Some?
    ensures ok ==> writer.stream == old(writer.stream) + WriteEntry(FormatNow(m, c), f, loc).value
    ensures ok ==> debuginfo.recorded == RecordAll(old(debuginfo.recorded), loc, LocsOfOps(f.ops))
    ensures !ok ==> forall later :: Grown(FormatNow(m, c), later) ==> WriteEntry(later, f, loc).None?
  {
    hide DebugInfoWriter.Valid, Managers.Valid, Managers.Now, WriteBody, VarInt, RecordAll, LocsOfOps, EntryHeader,
         MetadataOf, WriteEntry, GateOf, Continues;
    ghost var before, b0 := writer.stream, FormatNow(m, c);
    ok := WriteEntryHeader(m, f, meta, loc, writer);
    MetadataLater(b0.env, m.Now(), f, meta);
    EntryIsHeaderThenBody(FormatNow(m, c), f, meta, loc);
    if !ok {
      EntryRefused(FormatNow(m, c), f, meta, loc);
      return false;
    }
    ghost var b1, header := FormatNow(m, c), EntryHeader(m.Now(), f, meta, loc).value;
    var body := WriteFunctionBody(m, c, f, loc, debuginfo);
    ghost var b2 := FormatNow(m, c);
    GrownTwice(b0, b1, b2);
    MetadataLater(b1.env, b2.env, f, meta);
    HeaderOfEntryStable(b1.env, b2.env, f, meta, loc);
    EntryIsHeaderThenBody(b2, f, meta, loc);
    if body.None? || |body.value| >= TWO_TO_THE_64 {
      if body.Some? {
        BodyStays(b2, f);
      }
      EntryRefused(b2, f, meta, loc);
      return false;
    }
    writer.WriteVarInt(|body.value|);
    writer.WriteBytes(body.value);
    Assoc(before + header, VarInt(|body.value|), body.value);
    Assoc(before, header, VarInt(|body.value|) + body.value);
  }

  /** A header or body that no later table helps to write, or a body that is too long. */
  lemma {:induction false} EntryRefused(b: BodyEnv, f: Function, meta: FunctionMetadata, loc: nat)
    requires MetadataOf(b.env, f, meta)
    requires (forall e :: Continues(b.env, e) ==> EntryHeader(e, f, meta, loc).None?) ||
             (forall later :: Grown(b, later) ==> WriteBody(later, f).None? || Count(|WriteBody(later, f).value|).None?)
    ensures forall later :: Grown(b, later) ==> WriteEntry(later, f, loc).None?
  {
    hide Continues, EntryHeader, WriteBody, WriteEntry, MetadataOf, Count;
    forall later | Grown(b, later) ensures WriteEntry(later, f, loc).None? {
      MetadataLater(b.env, later.env, f, meta);
      EntryIsHeaderThenBody(later, f, meta, loc);
    }
  }

  lemma {:induction false} BodyStays(b: BodyEnv, f: Function)
    requires WriteBody(b, f).Some?
    ensures forall later :: Grown(b, later) ==> WriteBody(later, f) == WriteBody(b, f)
  {
    hide Grown, WriteOps, UsesOfOps;
    forall later | Grown(b, later) ensures WriteBody(later, f) == WriteBody(b, f) {
      OpsStable(b, later, UsesOfOps(f.ops), ArgumentsOf([], |f.ins|), [], 0, f.ops);
    }
  }

  lemma {:induction false} HeaderOfEntryStable(e1: Env, e2: Env, f: Function, meta: FunctionMetadata, loc: nat)
    requires Continues(e1, e2) && EntryHeader(e1, f, meta, loc).Some?
    ensures EntryHeader(e2, f, meta, loc) == EntryHeader(e1, f, meta, loc)
  {
    hide WriteHints, Count, Continues;
    HintsStable(e1, e2, f);
  }

  lemma {:induction false} EntryAssembled(a: bytes, b: bytes, c: bytes, d: bytes, e: bytes, f: bytes, g: bytes)
    ensures a + (b + (c + (d + (e + (f + g))))) == a + b + c + d + e + (f + g)
  {
    Assoc(a, b, c + (d + (e + (f + g))));
    Assoc(a + b, c, d + (e + (f + g)));
    Assoc(a + b + c, d, e + (f + g));
    Assoc(a + b + c + d, e, f + g);
  }

  lemma {:induction false} EntriesFrom(b: BodyEnv, fs: seq<Function>, locs: seq<nat>, i: nat, written: bytes)
    requires |locs| == |fs| && i < |fs|
    ensures After(written, WriteAllEntries(b, fs[i..], locs[i..])) ==
            match WriteEntry(b, fs[i], locs[i])
            case None => None
            case Some(head) => After(written + head, WriteAllEntries(b, fs[i + 1..], locs[i + 1..]))
  {
    hide WriteEntry;
    assert fs[i..][1..] == fs[i + 1..] && locs[i..][1..] == locs[i + 1..];
    var tail := WriteAllEntries(b, fs[i + 1..], locs[i + 1..]);
    if WriteEntry(b, fs[i], locs[i]).Some? && tail.Some? {
      Assoc(written, WriteEntry(b, fs[i], locs[i]).value, tail.value);
    }
  }

  /** Under all later tables, `done` and the entries from `i` on are what the entries are. */
  ghost predicate EntriesLeft(b: BodyEnv, fs: seq<Function>, locs: seq<nat>, done: bytes, i: nat)
    requires |locs| == |fs| && i <= |fs|
  {
    forall later :: Grown(b, later) ==>
                      WriteAllEntries(later, fs, locs) == After(done, WriteAllEntries(later, fs[i..], locs[i..]))
  }

  lemma {:induction false} EntriesStart(b: BodyEnv, fs: seq<Function>, locs: seq<nat>)
    requires |locs| == |fs|
    ensures EntriesLeft(b, fs, locs, [], 0)
  {
    hide Grown, WriteAllEntries;
    assert fs[0..] == fs && locs[0..] == locs;
    forall later | Grown(b, later)
      ensures WriteAllEntries(later, fs, locs) == After([], WriteAllEntries(later, fs[0..], locs[0..]))
    {
      AfterNothing(WriteAllEntries(later, fs, locs));
    }
  }

  lemma {:induction false} EntriesStep(b1: BodyEnv, b2: BodyEnv, fs: seq<Function>, locs: seq<nat>, done: bytes, i: nat)
    requires |locs| == |fs| && i < |fs| && Grown(b1, b2) && EntriesLeft(b1, fs, locs, done, i)
    ensures var head := WriteEntry(b2, fs[i], locs[i]);
            if head.Some? then EntriesLeft(b2, fs, locs, done + head.value, i + 1) else WriteAllEntries(b2, fs, locs).None?
    ensures (forall later :: Grown(b2, later) ==> WriteEntry(later, fs[i], locs[i]).None?) ==>
              forall later :: Grown(b2, later) ==> WriteAllEntries(later, fs, locs).None?
  {
    hide Grown, WriteEntry, WriteAllEntries;
    GrownItself(b2);
    EntriesFrom(b2, fs, locs, i, done);
    var head := WriteEntry(b2, fs[i], locs[i]);
    forall later | Grown(b2, later) && WriteEntry(later, fs[i], locs[i]).None?
      ensures WriteAllEntries(later, fs, locs).None?
    {
      GrownTwice(b1, b2, later);
      EntriesFrom(later, fs, locs, i, done);
    }
    if head.Some? {
      forall later | Grown(b2, later)
        ensures WriteAllEntries(later, fs, locs) == After(done + head.value, WriteAllEntries(later, fs[i + 1..], locs[i + 1..]))
      {
        GrownTwice(b1, b2, later);
        EntryStable(b2, later, fs[i], locs[i]);
        EntriesFrom(later, fs, locs, i, done);
      }
    }
  }

  lemma {:induction false} EntriesEnd(b: BodyEnv, fs: seq<Function>, locs: seq<nat>, done: bytes)
    requires |locs| == |fs| && EntriesLeft(b, fs, locs, done, |fs|)
    ensures WriteAllEntries(b, fs, locs) == Some(done)
  {
    GrownItself(b);
    assert done + [] == done;
  }

  /**
    The table on the stream of its section is the pure encoding under the tables it leaves
    behind, and every function has the list of locations that whole files are read back by.
    */
  method WriteFunctionTableSection(m: Managers, c: Format, fs: seq<Function>, metas: seq<FunctionMetadata>,
                                   locs: seq<nat>, debuginfo: DebugInfoWriter, writer: EncodingWriter)
    returns (ok: bool)
    requires m.Valid() && debuginfo.Valid() && Collected(fs, locs, debuginfo.recorded, 0) && Mapped(m.Now(), fs, metas)
    requires writer.stream == [] && writer.requiredAlignment == 1
    modifies m.Repr(), writer, debuginfo
    ensures m.Valid() && debuginfo.Valid() && Grown(old(FormatNow(m, c)), FormatNow(m, c))
    ensures ok <==> WriteFunctionTable(FormatNow(m, c), fs, locs).Some?
    ensures ok ==> writer.stream == WriteFunctionTable(FormatNow(m, c), fs, locs).value && writer.requiredAlignment == 8
    ensures ok ==> forall i :: 0 <= i < |fs| ==> LocsRecorded(debuginfo.recorded, fs[i], locs[i])
    ensures ok ==> Collected(fs, locs, debuginfo.recorded, |fs|)
    ensures ok && (forall i :: 0 <= i < |fs| ==> locs[i] == 0) ==> debuginfo.recorded == old(debuginfo.recorded)
    ensures !ok ==> forall later :: Grown(FormatNow(m, c), later) ==> WriteFunctionTable(later, fs, locs).None?
  {
    hide DebugInfoWriter.Valid, Managers.Valid, Managers.Now, WriteEntry, VarInt, RecordAll, LocsOfOps,
         WriteAllEntries, EntriesLeft, Grown, Mapped, MetadataOf, Padding;
    GrownItself(FormatNow(m, c));
    if |fs| >= TWO_TO_THE_64 {
      return false;
    }
    writer.WriteVarInt(|fs|);
    ghost var count, entries: bytes := VarInt(|fs|), [];
    assert writer.stream == count && count + entries == count;
    EntriesStart(FormatNow(m, c), fs, locs);
    for i := 0 to |fs|
      invariant m.Valid() && debuginfo.Valid() && Collected(fs, locs, debuginfo.recorded, i)
      invariant Mapped(m.Now(), fs, metas)
      invariant writer.stream == count + entries && writer.requiredAlignment == 1
      invariant (forall k :: 0 <= k < |fs| ==> locs[k] == 0) ==> debuginfo.recorded == old(debuginfo.recorded)
      invariant Grown(old(FormatNow(m, c)), FormatNow(m, c)) && EntriesLeft(FormatNow(m, c), fs, locs, entries, i)
    {
      BodyCollected(fs, locs, debuginfo.recorded, i);
      HiddenRecordsNothing(debuginfo.recorded, LocsOfOps(fs[i].ops));
      MappedOne(m.Now(), fs, metas, i);
      ghost var before, e := FormatNow(m, c), m.Now();
      ok := WriteOneEntry(m, c, fs[i], metas[i], locs[i], debuginfo, writer);
      ContinuesNow(before, m, c, e);
      MappedLater(e, m.Now(), fs, metas);
      GrownTwice(old(FormatNow(m, c)), before, FormatNow(m, c));
      EntriesStep(before, FormatNow(m, c), fs, locs, entries, i);
      if !ok {
        return false;
      }
      Assoc(count, entries, WriteEntry(FormatNow(m, c), fs[i], locs[i]).value);
      entries := entries + WriteEntry(FormatNow(m, c), fs[i], locs[i]).value;
    }
    EntriesEnd(FormatNow(m, c), fs, locs, entries);
    writer.AlignTo(8);
    Assoc(count, entries, Padding(|count + entries|, 8));
    ok := true;
  }

  lemma {:induction false} MappedOne(e: Env, fs: seq<Function>, metas: seq<FunctionMetadata>, i: nat)
    requires Mapped(e, fs, metas) && i < |fs|
    ensures |metas| == |fs| && MetadataOf(e, fs[i], metas[i])
  {
    hide MetadataOf;
  }

  lemma {:induction false} ContinuesNow(before: BodyEnv, m: Managers, c: Format, e: Env)
    requires Grown(before, FormatNow(m, c)) && before.env == e
    ensures Continues(e, m.Now())
  {
    hide Continues, Managers.Now;
  }

  // ---------------------------------------------------------------- globals

  lemma {:induction false} OneMoreGlobal(e: Env, gs: seq<Globals.Global>, i: nat)
    requires i < |gs|
    ensures Globals.WriteAllGlobals(e, gs[..i + 1]) ==
            Joined(Globals.WriteAllGlobals(e, gs[..i]), Globals.WriteGlobal(e, gs[i]))
    ensures Globals.WriteGlobal(e, gs[i]).None? ==> Globals.WriteAllGlobals(e, gs).None?
    decreases |gs|
  {
    hide Globals.WriteGlobal;
    var head := Globals.WriteGlobal(e, gs[0]);
    if i == 0 {
      OnlyFirst(gs);
      JoinedNothing(head);
    } else {
      Shifted(gs, i);
      OneMoreGlobal(e, gs[1..], i - 1);
      JoinedAssoc(head, Globals.WriteAllGlobals(e, gs[1..][..i - 1]), Globals.WriteGlobal(e, gs[i]));
    }
  }

  /** Name, type and content of a global, each interned. */
  method PutReferences(m: Managers, g: Globals.Global, writer: EncodingWriter) returns (ok: bool)
    requires m.Valid()
    modifies m.Repr(), writer`stream
    ensures m.Valid() && Wrote(old(m.Now()), m.Now(), ok, old(writer.stream), writer.stream, References(m.Now(), g))
    ensures !ok ==> forall e :: Continues(m.Now(), e) ==> References(e, g).None?
  {
    hide Managers.Valid, Managers.Now, Index;
    ok := m.PutString(g.name, writer);
    if !ok {
      return false;
    }
    ghost var e1 := m.Now();
    ok := m.PutType(g.ty, writer);
    StringSettled(e1, m.Now(), g.name);
    if !ok {
      return false;
    }
    ghost var e2 := m.Now();
    ok := m.PutConstant(g.content, writer);
    StringSettled(e2, m.Now(), g.name);
    TypeSettled(e2, m.Now(), g.ty);
  }

  function References(e: Env, g: Globals.Global): Option<bytes> {
    Joined(Joined(Index(e.strings, g.name), Index(e.types, Some(g.ty))), Index(e.constants, g.content))
  }

  /** Alignment and flags. */
  function Plain(v: Version, g: Globals.Global): bytes
    requires FitsSigned(g.alignment, 64)
  {
    VarInt(ToWord(g.alignment, 64)) +
    if Globals.HasFlags(v) then VarInt(Globals.Bit(g.isPrivate)) + VarInt(Globals.Bit(g.isConstant)) else []
  }

  lemma {:induction false} GlobalIsReferencesThenPlain(e: Env, g: Globals.Global)
    ensures Globals.WriteGlobal(e, g) ==
            if (!Globals.HasFlags(e.version) && (g.isPrivate || g.isConstant)) || !FitsSigned(g.alignment, 64) then None
            else Joined(References(e, g), Some(Plain(e.version, g)))
  {
    hide Index, VarInt, ToWord, FitsSigned, Globals.HasFlags;
    if Globals.WriteGlobal(e, g).Some? {
      var name, ty := Index(e.strings, g.name).value, Index(e.types, Some(g.ty)).value;
      var content := Index(e.constants, g.content).value;
      Assoc(name, ty, content + Plain(e.version, g));
      Assoc(name + ty, content, Plain(e.version, g));
    }
  }

  method WriteOneGlobal(m: Managers, g: Globals.Global, writer: EncodingWriter) returns (ok: bool)
    requires m.Valid()
    modifies m.Repr(), writer`stream
    ensures m.Valid() && Wrote(old(m.Now()), m.Now(), ok, old(writer.stream), writer.stream, Globals.WriteGlobal(m.Now(), g))
    ensures !ok ==> forall e :: Continues(m.Now(), e) ==> Globals.WriteGlobal(e, g).None?
  {
    hide Managers.Valid, Managers.Now, Globals.WriteGlobal, References, VarInt, ToWord, FitsSigned, Globals.HasFlags, Continues;
    ghost var before := writer.stream;
    VersionNow(m);
    Reflexive(m.Now());
    GlobalIsReferencesThenPlain(m.Now(), g);
    if (!Globals.HasFlags(m.version) && (g.isPrivate || g.isConstant)) || !FitsSigned(g.alignment, 64) {
      forall e | Continues(m.Now(), e) ensures Globals.WriteGlobal(e, g).None? {
        GlobalIsReferencesThenPlain(e, g);
      }
      return false;
    }
    ok := PutReferences(m, g, writer);
    VersionNow(m);
    GlobalIsReferencesThenPlain(m.Now(), g);
    forall e | Continues(m.Now(), e) && References(e, g).None? ensures Globals.WriteGlobal(e, g).None? {
      GlobalIsReferencesThenPlain(e, g);
    }
    if ok {
      writer.WriteBytes(Plain(m.version, g));
      Assoc(before, References(m.Now(), g).value, Plain(m.version, g));
    }
  }

  /** The section of globals on a stream, written record by record; without globals there is none. */
  method WriteGlobalSection(m: Managers, gs: seq<Globals.Global>, writer: EncodingWriter) returns (ok: bool)
    requires m.Valid() && writer.stream == []
    modifies m.Repr(), writer`stream
    ensures m.Valid() && Continues(old(m.Now()), m.Now()) && (ok <==> GlobalPart(m.Now(), gs).Some?)
    ensures ok ==> writer.stream == GlobalPart(m.Now(), gs).value
    ensures !ok ==> forall e :: Continues(m.Now(), e) ==> GlobalPart(e, gs).None?
  {
    hide Managers.Valid, Managers.Now, Globals.WriteGlobal, Globals.WriteAllGlobals, VarInt, Continues;
    Reflexive(m.Now());
    if gs == [] {
      return true;
    }
    if |gs| >= TWO_TO_THE_64 {
      return false;
    }
    writer.WriteVarInt(|gs|);
    ghost var count, records: bytes := VarInt(|gs|), [];
    NoGlobals(m.Now(), gs);
    for i := 0 to |gs|
      invariant m.Valid() && Continues(old(m.Now()), m.Now()) && writer.stream == count + records
      invariant Globals.WriteAllGlobals(m.Now(), gs[..i]) == Some(records)
    {
      ghost var e := m.Now();
      ok := WriteOneGlobal(m, gs[i], writer);
      Transitive(old(m.Now()), e, m.Now());
      OneMoreGlobal(m.Now(), gs, i);
      if !ok {
        forall later | Continues(m.Now(), later) ensures Globals.WriteAllGlobals(later, gs).None? {
          OneMoreGlobal(later, gs, i);
        }
        return false;
      }
      AllGlobalsStable(e, m.Now(), gs[..i]);
      Assoc(count, records, Globals.WriteGlobal(m.Now(), gs[i]).value);
      records := records + Globals.WriteGlobal(m.Now(), gs[i]).value;
    }
    assert gs[..|gs|] == gs;
    ok := true;
  }

  lemma {:induction false} NoGlobals(e: Env, gs: seq<Globals.Global>)
    ensures Globals.WriteAllGlobals(e, gs[..0]) == Some([])
  {
  }

  function GlobalPart(e: Env, gs: seq<Globals.Global>): Option<bytes> {
    if gs != [] then Globals.WriteGlobals(e, gs) else Some([])
  }

  lemma {:induction false} GlobalPartStable(e1: Env, e2: Env, gs: seq<Globals.Global>)
    requires Continues(e1, e2) && GlobalPart(e1, gs).Some?
    ensures GlobalPart(e2, gs) == GlobalPart(e1, gs)
  {
    hide Globals.WriteGlobals, Continues;
    if gs != [] {
      GlobalsStable(e1, e2, gs);
    }
  }

  // ---------------------------------------------------------------- debug attributes

  lemma {:induction false} DebugGrown(strings1: seq<bytes>, strings2: seq<bytes>, list: seq<Debug>, d: Debug)
    requires strings1 <= strings2 && WriteDebug(strings1, list, d).Some?
    ensures WriteDebug(strings2, list, d) == WriteDebug(strings1, list, d)
  {
    hide VarInt, IndexOf, WriteRef;
    match d
    case File(name, directory) =>
      StringGrown(strings1, strings2, name);
      StringGrown(strings1, strings2, directory);
    case Loc(_, fileName, _, _) => StringGrown(strings1, strings2, fileName);
    case Subprogram(_, _, name, linkage, _, _) =>
      StringGrown(strings1, strings2, name);
      StringGrown(strings1, strings2, linkage);
    case _ =>
  }

  lemma {:induction false} StringGrown(strings1: seq<bytes>, strings2: seq<bytes>, s: bytes)
    requires strings1 <= strings2 && WriteString(strings1, s).Some?
    ensures WriteString(strings2, s) == WriteString(strings1, s)
  {
    IndexOfStable(strings1, strings2, s);
  }

  /** The strings of a debug attribute, in the order in which they are written. */
  function StringsOf(d: Debug): seq<bytes> {
    match d
    case File(name, directory) => [name, directory]
    case Loc(_, fileName, _, _) => [fileName]
    case Subprogram(_, _, name, linkage, _, _) => [name, linkage]
    case _ => []
  }

  lemma {:induction false} DebugRefused(strings: seq<bytes>, more: seq<bytes>, list: seq<Debug>, d: Debug)
    requires strings <= more && WriteDebug(strings, list, d).None?
    requires forall i :: 0 <= i < |StringsOf(d)| ==> StringsOf(d)[i] in strings
    ensures WriteDebug(more, list, d).None?
  {
    hide VarInt, IndexOf, WriteRef;
    forall i | 0 <= i < |StringsOf(d)| ensures WriteString(more, StringsOf(d)[i]) == WriteString(strings, StringsOf(d)[i]) {
      IndexOfStable(strings, more, StringsOf(d)[i]);
    }
    match d
    case File(name, directory) => assert StringsOf(d)[0] == name && StringsOf(d)[1] == directory;
    case Loc(_, fileName, _, _) => assert StringsOf(d)[0] == fileName;
    case Subprogram(_, _, name, linkage, _, _) => assert StringsOf(d)[0] == name && StringsOf(d)[1] == linkage;
    case _ =>
  }

  /**
    One debug attribute. Its strings are interned in the order in which they are written; the
    attributes it refers to have been interned with it.
    */
  method SerializeDebugInfo(m: Managers, list: seq<Debug>, d: Debug) returns (entry: Option<bytes>)
    requires m.Valid()
    modifies m.Repr()
    ensures m.Valid() && Continues(old(m.Now()), m.Now()) && Quiet(old(m.Now()), m.Now())
    ensures entry == WriteDebug(m.Now().strings, list, d)
    ensures entry.None? ==> forall more :: m.Now().strings <= more ==> WriteDebug(more, list, d).None?
  {
    hide Managers.Valid, Managers.Now, WriteDebug, Continues, StringsOf, IndexOf;
    Reflexive(m.Now());
    var strings := StringsOf(d);
    for i := 0 to |strings|
      invariant m.Valid() && Continues(old(m.Now()), m.Now()) && Quiet(old(m.Now()), m.Now())
      invariant forall k :: 0 <= k < i ==> strings[k] in m.Now().strings
    {
      ghost var e := m.Now();
      var _ := m.StringIndex(strings[i]);
      Transitive(old(m.Now()), e, m.Now());
      MoreStrings(e, m.Now(), strings[..i]);
      assert IndexOf(m.Now().strings, strings[i]).Some?;
      assert forall k :: 0 <= k < i ==> strings[..i][k] == strings[k];
    }
    entry := WriteDebug(m.strMgr.keys, list, d);
    StringsNow(m);
    forall more | m.Now().strings <= more && entry.None? ensures WriteDebug(more, list, d).None? {
      DebugRefused(m.Now().strings, more, list, d);
    }
  }

  lemma {:induction false} StringsNow(m: Managers)
    ensures m.Now().strings == m.strMgr.keys
  {
  }

  lemma {:induction false} MoreStrings(e1: Env, e2: Env, strings: seq<bytes>)
    requires Continues(e1, e2) && forall k :: 0 <= k < |strings| ==> strings[k] in e1.strings
    ensures forall k :: 0 <= k < |strings| ==> strings[k] in e2.strings
  {
  }

  lemma {:induction false} DebugEntriesAre(strings: seq<bytes>, list: seq<Debug>, rest: seq<Debug>, entries: seq<bytes>)
    requires |entries| == |rest| && forall i :: 0 <= i < |rest| ==> WriteDebug(strings, list, rest[i]) == Some(entries[i])
    ensures DebugEntries(strings, list, rest) == Some(entries)
    decreases |rest|
  {
    hide WriteDebug;
    if rest != [] {
      DebugEntriesAre(strings, list, rest[1..], entries[1..]);
      assert entries == [entries[0]] + entries[1..];
    }
  }

  /** All debug attributes, one after the other. */
  method WriteDebugEntries(m: Managers, list: seq<Debug>) returns (r: Option<seq<bytes>>)
    requires m.Valid()
    modifies m.Repr()
    ensures m.Valid() && Continues(old(m.Now()), m.Now()) && Quiet(old(m.Now()), m.Now())
    ensures r == DebugEntries(m.Now().strings, list, list)
    ensures r.None? ==> forall more :: m.Now().strings <= more ==> DebugEntries(more, list, list).None?
  {
    hide Managers.Valid, Managers.Now, WriteDebug, Continues, DebugEntries;
    Reflexive(m.Now());
    var entries: seq<bytes> := [];
    for i := 0 to |list|
      invariant m.Valid() && Continues(old(m.Now()), m.Now()) && Quiet(old(m.Now()), m.Now()) && |entries| == i
      invariant forall k :: 0 <= k < i ==> WriteDebug(m.Now().strings, list, list[k]) == Some(entries[k])
    {
      ghost var e := m.Now();
      var entry := SerializeDebugInfo(m, list, list[i]);
      Transitive(old(m.Now()), e, m.Now());
      if entry.None? {
        return None;
      }
      forall k | 0 <= k < i ensures WriteDebug(m.Now().strings, list, list[k]) == Some(entries[k]) {
        DebugLater(e, m.Now(), list, list[k]);
      }
      entries := entries + [entry.value];
    }
    DebugEntriesAre(m.Now().strings, list, list, entries);
    r := Some(entries);
  }

  lemma {:induction false} DebugLater(e1: Env, e2: Env, list: seq<Debug>, d: Debug)
    requires Continues(e1, e2) && WriteDebug(e1.strings, list, d).Some?
    ensures WriteDebug(e2.strings, list, d) == WriteDebug(e1.strings, list, d)
  {
    hide WriteDebug;
    DebugGrown(e1.strings, e2.strings, list, d);
  }

  lemma {:induction false} DebugEntriesStable(strings1: seq<bytes>, strings2: seq<bytes>, list: seq<Debug>, rest: seq<Debug>)
    requires strings1 <= strings2 && DebugEntries(strings1, list, rest).Some?
    ensures DebugEntries(strings2, list, rest) == DebugEntries(strings1, list, rest)
    decreases |rest|
  {
    hide WriteDebug;
    if rest != [] {
      DebugGrown(strings1, strings2, list, rest[0]);
      DebugEntriesStable(strings1, strings2, list, rest[1..]);
    }
  }

  // ---------------------------------------------------------------- types

  lemma {:induction false} TypeEntriesAre(t: TypeEnv, types: seq<Type>, entries: seq<bytes>)
    requires |entries| == |types| && forall i :: 0 <= i < |types| ==> WriteType(t, types[i]) == Some(entries[i])
    ensures TypeEntries(t, types) == Some(entries)
  {
    hide WriteType;
    if types != [] {
      TypeEntriesAre(t, types[1..], entries[1..]);
      assert entries == [entries[0]] + entries[1..];
    }
  }

  lemma {:induction false} TypeEntriesStable(t1: TypeEnv, t2: TypeEnv, types: seq<Type>)
    requires Continues(t1.env, t2.env) && t2 == t1.(env := t2.env) && TypeEntries(t1, types).Some?
    ensures TypeEntries(t2, types) == TypeEntries(t1, types)
  {
    hide WriteType, Continues;
    if types != [] {
      TypeGrown(t1, t2, types[0]);
      TypeEntriesStable(t1, t2, types[1..]);
    }
  }

  /**
    The types the table holds when its section is begun, one after the other. Nothing but
    strings is interned on the way, if the tables have what the types mention.
    */
  method WriteTypeEntries(m: Managers, c: Format) returns (r: Option<seq<bytes>>)
    requires m.Valid()
    modifies m.Repr()
    ensures m.Valid() && Continues(old(m.Now()), m.Now())
    ensures r == TypeEntries(TypeEnv(m.Now(), c.builtins, c.parametric), old(m.typeMgr.typeList))
    ensures r.None? ==> forall e :: Continues(m.Now(), e) ==>
                                      TypeEntries(TypeEnv(e, c.builtins, c.parametric), old(m.typeMgr.typeList)).None?
    ensures (forall i :: 0 <= i < |old(m.typeMgr.typeList)| ==>
                           HasType(old(m.Now()).types, old(m.Now()).constants, old(m.typeMgr.typeList)[i])) ==>
              Quiet(old(m.Now()), m.Now())
  {
    hide Managers.Valid, Managers.Now, WriteType, Continues, TypeEntries, HasType;
    Reflexive(m.Now());
    var typeList, entries: seq<bytes> := m.typeMgr.typeList, [];
    for i := 0 to |typeList|
      invariant m.Valid() && Continues(old(m.Now()), m.Now()) && |entries| == i
      invariant (forall k :: 0 <= k < |typeList| ==> HasType(old(m.Now()).types, old(m.Now()).constants, typeList[k])) ==>
                  Quiet(old(m.Now()), m.Now())
      invariant forall k :: 0 <= k < i ==> WriteType(TypeEnv(m.Now(), c.builtins, c.parametric), typeList[k]) == Some(entries[k])
    {
      ghost var e := m.Now();
      var writer := new EncodingWriter();
      var ok := SerializeType(m, c.builtins, c.parametric, typeList[i], writer);
      ContinuesAfter(e, m.Now(), ok, [], writer.stream, WriteType(TypeEnv(m.Now(), c.builtins, c.parametric), typeList[i]));
      Transitive(old(m.Now()), e, m.Now());
      if !ok {
        return None;
      }
      forall k | 0 <= k < i
        ensures WriteType(TypeEnv(m.Now(), c.builtins, c.parametric), typeList[k]) == Some(entries[k])
      {
        TypeGrown(TypeEnv(e, c.builtins, c.parametric), TypeEnv(m.Now(), c.builtins, c.parametric), typeList[k]);
      }
      entries := entries + [writer.stream];
    }
    TypeEntriesAre(TypeEnv(m.Now(), c.builtins, c.parametric), typeList, entries);
    r := Some(entries);
  }

  lemma {:induction false} ContinuesAfter(e1: Env, e2: Env, ok: bool, before: bytes, after: bytes, written: Option<bytes>)
    requires Wrote(e1, e2, ok, before, after, written)
    ensures Continues(e1, e2) && (ok ==> before == [] ==> written == Some(after))
  {
    if ok && before == [] {
      assert [] + written.value == written.value;
    }
  }
}
