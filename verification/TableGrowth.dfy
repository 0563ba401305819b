/**
  The writer interns types, strings and constants while it writes. What it has written with
  the tables of that moment is what the final tables give: operations, bodies, entries of the
  function table and globals keep their bytes when the tables grow behind them.
  */
module TableGrowth {
  import opened Base
  import opened Ir
  import opened DebugIr
  import opened AttrCodec
  import opened AttrTables
  import opened OpCodec
  import opened Bodies
  import opened FunctionTables
  import Globals

  /** The same format, with tables that continue the first ones. */
  predicate Grown(b1: BodyEnv, b2: BodyEnv) {
    Continues(b1.env, b2.env) && b1.schemas == b2.schemas && b1.maxOpcode == b2.maxOpcode
  }

  // ---------------------------------------------------------------- heads

  lemma {:induction false} FieldStable(e1: Env, e2: Env, f: FieldSchema, a: Option<Attr>)
    requires Continues(e1, e2) && WriteField(e1, f, a).Some?
    ensures WriteField(e2, f, a) == WriteField(e1, f, a)
  {
    hide Write, Covered;
    if a.Some? && Write(e1, f.kind, a.value).Some? {
      WriteStable(e1, e2, f.kind, a.value);
    }
  }

  lemma {:induction false} FieldsStable(e1: Env, e2: Env, fs: seq<FieldSchema>, attrs: seq<Option<Attr>>)
    requires |attrs| == |fs| && Continues(e1, e2) && WriteFields(e1, fs, attrs).Some?
    ensures WriteFields(e2, fs, attrs) == WriteFields(e1, fs, attrs)
  {
    hide WriteField;
    if fs != [] {
      FieldStable(e1, e2, fs[0], attrs[0]);
      FieldsStable(e1, e2, fs[1..], attrs[1..]);
    }
  }

  /** An operation without its regions. */
  lemma {:induction false} HeadStable(e1: Env, e2: Env, s: OpSchema, h: Head, used: seq<bool>)
    requires Shaped(s, h) && |used| == |h.results| && Continues(e1, e2) && WriteHead(e1, s, h, used).Some?
    ensures WriteHead(e2, s, h, used) == WriteHead(e1, s, h, used)
  {
    hide WriteFlags, WriteFields, WriteOperands, WriteTypes, WrittenResults, Presence, OpSchema.CountsResults, Continues, Count;
    SameVersion(e1, e2);
    TypesStable(e1, e2, WrittenResults(s, e1.version, h.results, used).value);
    FieldsStable(e1, e2, s.attrs, h.attrs);
  }

  lemma {:induction false} SameVersion(e1: Env, e2: Env)
    requires Continues(e1, e2)
    ensures e1.version == e2.version
  {
  }

  // ---------------------------------------------------------------- trees

  /** An operation with all its regions. */
  lemma {:induction false} OpStable(b1: BodyEnv, b2: BodyEnv, uses: set<Value>, scope: seq<Value>, path: Path, op: Op)
    requires Grown(b1, b2) && WriteOp(b1, uses, scope, path, op).Some?
    ensures WriteOp(b2, uses, scope, path, op) == WriteOp(b1, uses, scope, path, op)
    decreases op, 0
  {
    hide WriteHead, WriteRegions, Shaped, Continues, Supported, Count;
    var s, head := b1.schemas[op.opcode], HeadOf(scope, op);
    HeadStable(b1.env, b2.env, s, head, UsedResults(uses, path, |op.results|));
    RegionsStable(b1, b2, uses, scope, path, 0, op.regions);
  }

  lemma {:induction false} RegionsStable(b1: BodyEnv, b2: BodyEnv, uses: set<Value>, scope: seq<Value>, path: Path, r: nat,
                                         regions: seq<Region>)
    requires Grown(b1, b2) && WriteRegions(b1, uses, scope, path, r, regions).Some?
    ensures WriteRegions(b2, uses, scope, path, r, regions) == WriteRegions(b1, uses, scope, path, r, regions)
    decreases regions, 0
  {
    hide WriteRegion, Grown;
    if regions != [] {
      RegionStable(b1, b2, uses, scope, path + [r], regions[0]);
      RegionsStable(b1, b2, uses, scope, path, r + 1, regions[1..]);
    }
  }

  lemma {:induction false} RegionStable(b1: BodyEnv, b2: BodyEnv, uses: set<Value>, scope: seq<Value>, path: Path,
                                        region: Region)
    requires Grown(b1, b2) && WriteRegion(b1, uses, scope, path, region).Some?
    ensures WriteRegion(b2, uses, scope, path, region) == WriteRegion(b1, uses, scope, path, region)
    decreases region, 0
  {
    hide WriteBlocks, Grown, Count;
    BlocksStable(b1, b2, uses, scope, path, 0, region.blocks);
  }

  lemma {:induction false} BlocksStable(b1: BodyEnv, b2: BodyEnv, uses: set<Value>, scope: seq<Value>, region: Path, i: nat,
                                        blocks: seq<Block>)
    requires Grown(b1, b2) && WriteBlocks(b1, uses, scope, region, i, blocks).Some?
    ensures WriteBlocks(b2, uses, scope, region, i, blocks) == WriteBlocks(b1, uses, scope, region, i, blocks)
    decreases blocks, 0
  {
    hide WriteBlock, Grown;
    if blocks != [] {
      BlockStable(b1, b2, uses, scope, region + [i], blocks[0]);
      BlocksStable(b1, b2, uses, scope, region, i + 1, blocks[1..]);
    }
  }

  lemma {:induction false} BlockStable(b1: BodyEnv, b2: BodyEnv, uses: set<Value>, scope: seq<Value>, path: Path, block: Block)
    requires Grown(b1, b2) && WriteBlock(b1, uses, scope, path, block).Some?
    ensures WriteBlock(b2, uses, scope, path, block) == WriteBlock(b1, uses, scope, path, block)
    decreases block, 0
  {
    hide WriteOps, WriteTypes, Continues, Count;
    TypesStable(b1.env, b2.env, block.args);
    OpsStable(b1, b2, uses, scope + ArgumentsOf(path, |block.args|), path, 0, block.ops);
  }

  lemma {:induction false} OpsStable(b1: BodyEnv, b2: BodyEnv, uses: set<Value>, scope: seq<Value>, block: Path, i: nat,
                                     ops: seq<Op>)
    requires Grown(b1, b2) && WriteOps(b1, uses, scope, block, i, ops).Some?
    ensures WriteOps(b2, uses, scope, block, i, ops) == WriteOps(b1, uses, scope, block, i, ops)
    decreases ops, 0
  {
    hide WriteOp, Grown, Defined;
    if ops != [] {
      OpStable(b1, b2, uses, scope, block + [i], ops[0]);
      SameNumbering(b1, b2, block + [i], ops[0]);
      OpsStable(b1, b2, uses, scope + Defined(b1, block + [i], ops[0]), block, i + 1, ops[1..]);
    }
  }

  lemma {:induction false} SameNumbering(b1: BodyEnv, b2: BodyEnv, path: Path, op: Op)
    requires Grown(b1, b2)
    ensures Defined(b2, path, op) == Defined(b1, path, op)
  {
  }

  // ---------------------------------------------------------------- functions and globals

  /** An entry of the function table: name, signature, hints and body. */
  lemma {:induction false} EntryStable(b1: BodyEnv, b2: BodyEnv, f: Function, loc: nat)
    requires Grown(b1, b2) && WriteEntry(b1, f, loc).Some?
    ensures WriteEntry(b2, f, loc) == WriteEntry(b1, f, loc)
  {
    hide Index, WriteTagged, WriteOps, Count, Covered, UsesOfOps;
    StringSettled(b1.env, b2.env, f.name);
    TypeSettled(b1.env, b2.env, Func(f.ins, f.outs));
    if f.isEntry && f.hints.Some? {
      WriteTaggedStable(b1.env, b2.env, f.hints.value);
    }
    OpsStable(b1, b2, UsesOfOps(f.ops), ArgumentsOf([], |f.ins|), [], 0, f.ops);
  }

  lemma {:induction false} GlobalStable(e1: Env, e2: Env, g: Globals.Global)
    requires Continues(e1, e2) && Globals.WriteGlobal(e1, g).Some?
    ensures Globals.WriteGlobal(e2, g) == Globals.WriteGlobal(e1, g)
  {
    StringSettled(e1, e2, g.name);
    TypeSettled(e1, e2, g.ty);
    IndexOfStable(e1.constants, e2.constants, g.content);
  }

  lemma {:induction false} GlobalsStable(e1: Env, e2: Env, gs: seq<Globals.Global>)
    requires Continues(e1, e2) && Globals.WriteGlobals(e1, gs).Some?
    ensures Globals.WriteGlobals(e2, gs) == Globals.WriteGlobals(e1, gs)
  {
    AllGlobalsStable(e1, e2, gs);
  }

  lemma {:induction false} AllGlobalsStable(e1: Env, e2: Env, gs: seq<Globals.Global>)
    requires Continues(e1, e2) && Globals.WriteAllGlobals(e1, gs).Some?
    ensures Globals.WriteAllGlobals(e2, gs) == Globals.WriteAllGlobals(e1, gs)
  {
    hide Globals.WriteGlobal;
    if gs != [] {
      GlobalStable(e1, e2, gs[0]);
      AllGlobalsStable(e1, e2, gs[1..]);
    }
  }

  lemma {:induction false} GrownTwice(b1: BodyEnv, b2: BodyEnv, b3: BodyEnv)
    requires Grown(b1, b2) && Grown(b2, b3)
    ensures Grown(b1, b3)
  {
  }

  lemma {:induction false} AllEntriesStable(b1: BodyEnv, b2: BodyEnv, fs: seq<Function>, locs: seq<nat>)
    requires |locs| == |fs| && Grown(b1, b2) && WriteAllEntries(b1, fs, locs).Some?
    ensures WriteAllEntries(b2, fs, locs) == WriteAllEntries(b1, fs, locs)
  {
    hide WriteEntry, Grown;
    if fs != [] {
      EntryStable(b1, b2, fs[0], locs[0]);
      AllEntriesStable(b1, b2, fs[1..], locs[1..]);
    }
  }

  /** The whole function table. */
  lemma {:induction false} FunctionTableStable(b1: BodyEnv, b2: BodyEnv, fs: seq<Function>, locs: seq<nat>)
    requires |locs| == |fs| && Grown(b1, b2) && WriteFunctionTable(b1, fs, locs).Some?
    ensures WriteFunctionTable(b2, fs, locs) == WriteFunctionTable(b1, fs, locs)
  {
    hide Grown, WriteAllEntries, Count;
    AllEntriesStable(b1, b2, fs, locs);
  }
}
