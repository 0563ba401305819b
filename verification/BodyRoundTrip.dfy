/**
  The simulation between the writer's and the reader's walk over a function body. Both
  sides keep the same numbering of values at every step, so that the reader rebuilds the
  very tree that was written, each operand bound to the same value.
  */
module BodyRoundTrip {
  import opened Base
  import opened VarInts
  import opened Ir
  import opened DebugIr
  import opened AttrCodec
  import opened AttrRoundTrip
  import opened OpCodec
  import opened OpRoundTrip
  import opened Bodies

  /** Schemas are sound, and the opcode gate never admits an operation its version lacks. */
  predicate BodyOk(b: BodyEnv) {
    forall opcode :: opcode in b.schemas ==>
      && opcode < TWO_TO_THE_32
      && SchemaOk(b.schemas[opcode])
      && b.schemas[opcode].regions <= MAX_COUNT
      && (b.Available(opcode) ==> b.env.version.AtLeast(b.schemas[opcode].since))
  }

  predicate LinkedBodies(w: BodyEnv, r: BodyEnv) {
    Linked(w.env, r.env) && w.schemas == r.schemas && w.maxOpcode == r.maxOpcode && BodyOk(w)
  }

  // ---------------------------------------------------------------- what the reader rebuilds

  /** None: the reader reports an error. */
  function RestoreOp(b: BodyEnv, scope: seq<Value>, path: Path, op: Op, stream: LocStream): Option<(Op, LocStream)>
    decreases op, 0
  {
    if op.opcode !in b.schemas || !Shaped(b.schemas[op.opcode], HeadOf(scope, op)) || Next(stream).None? then None else
    var s, head := b.schemas[op.opcode], HeadOf(scope, op);
    if !ReadableHead(b.env, s, head, |scope|) then None else
    var (loc, stream') := Next(stream).value;
    var nested :- RestoreRegions(b, scope, path, 0, op.regions, stream');
    var h := Restored(s, b.env.version, head);
    Some((Op(op.opcode, h.results, h.attrs, BindAll(scope, h.operands), nested.0, loc), nested.1))
  }

  function RestoreRegions(b: BodyEnv, scope: seq<Value>, path: Path, r: nat, regions: seq<Region>, stream: LocStream):
    Option<(seq<Region>, LocStream)>
    decreases regions, 0
  {
    if regions == [] then Some(([], stream))
    else
      var head :- RestoreRegion(b, scope, path + [r], regions[0], stream);
      var tail :- RestoreRegions(b, scope, path, r + 1, regions[1..], head.1);
      Some(([head.0] + tail.0, tail.1))
  }

  function RestoreRegion(b: BodyEnv, scope: seq<Value>, path: Path, region: Region, stream: LocStream):
    Option<(Region, LocStream)>
    decreases region, 0
  {
    var blocks :- RestoreBlocks(b, scope, path, 0, region.blocks, stream);
    Some((Region(blocks.0), blocks.1))
  }

  function RestoreBlocks(b: BodyEnv, scope: seq<Value>, region: Path, i: nat, blocks: seq<Block>, stream: LocStream):
    Option<(seq<Block>, LocStream)>
    decreases blocks, 0
  {
    if blocks == [] then Some(([], stream))
    else
      var head :- RestoreBlock(b, scope, region + [i], blocks[0], stream);
      var tail :- RestoreBlocks(b, scope, region, i + 1, blocks[1..], head.1);
      Some(([head.0] + tail.0, tail.1))
  }

  function RestoreBlock(b: BodyEnv, scope: seq<Value>, path: Path, block: Block, stream: LocStream):
    Option<(Block, LocStream)>
    decreases block, 0
  {
    var ops :- RestoreOps(b, scope + ArgumentsOf(path, |block.args|), path, 0, block.ops, stream);
    if EndsInTerminator(b, ops.0) then Some((Block(block.args, ops.0), ops.1)) else None
  }

  function RestoreOps(b: BodyEnv, scope: seq<Value>, block: Path, i: nat, ops: seq<Op>, stream: LocStream):
    Option<(seq<Op>, LocStream)>
    decreases ops, 0
  {
    if ops == [] then Some(([], stream))
    else
      var head :- RestoreOp(b, scope, block + [i], ops[0], stream);
      var tail :- RestoreOps(b, scope + Defined(b, block + [i], ops[0]), block, i + 1, ops[1..], head.1);
      Some(([head.0] + tail.0, tail.1))
  }

  function Outcome<T>(restored: Option<T>, rest: bytes): Parsed<T> {
    if restored.None? then Fail else Got(restored.value, rest)
  }

  // ---------------------------------------------------------------- the simulation

  /** Both sides number the same results. */
  lemma {:induction false} SameDefined(w: BodyEnv, r: BodyEnv, scope: seq<Value>, path: Path, op: Op, stream: LocStream)
    requires LinkedBodies(w, r) && RestoreOp(w, scope, path, op, stream).Some?
    ensures Defined(r, path, RestoreOp(w, scope, path, op, stream).value.0) == Defined(w, path, op)
  {
  }

  lemma {:induction false} OneOpRoundTrip(w: BodyEnv, r: BodyEnv, uses: set<Value>, scope: seq<Value>, path: Path, op: Op,
                                       stream: LocStream, rest: bytes)
    requires LinkedBodies(w, r) && WriteOp(w, uses, scope, path, op).Some?
    ensures ReadOp(r, scope, path, stream, WriteOp(w, uses, scope, path, op).value + rest) ==
            Outcome(RestoreOp(w, scope, path, op, stream), rest)
    decreases op, 0
  {
    hide ReadHead, WriteHead, ReadableHead, Restored, WriteRegions, ReadRegions, RestoreRegions, Shaped,
         SchemaOk, BindAll, Supported, VarInt, ReadVarInt, Linked;
    var s, head := w.schemas[op.opcode], HeadOf(scope, op);
    var fields := WriteHead(w.env, s, head, UsedResults(uses, path, |op.results|)).value;
    var count := if s.regions > 0 then VarInt(|op.regions|) else [];
    var regions := WriteRegions(w, uses, scope, path, 0, op.regions).value;
    OpBytes(VarInt(op.opcode), fields, count, regions, rest);
    VarIntRoundTrip(op.opcode, fields + (count + (regions + rest)));
    SmallOpcode(op.opcode);
    HeadRoundTrip(w.env, r.env, s, head, UsedResults(uses, path, |op.results|), |scope|, count + (regions + rest));
    if s.regions > 0 {
      CountRoundTrip(|op.regions|, regions + rest);
    } else {
      Empty(regions + rest);
    }
    if Next(stream).Some? {
      RegionsRoundTrip(w, r, uses, scope, path, 0, op.regions, Next(stream).value.1, rest);
    }
  }

  lemma {:induction false} OpBytes(a: bytes, b: bytes, c: bytes, d: bytes, rest: bytes)
    ensures a + (b + (c + d)) + rest == a + (b + (c + (d + rest)))
  {
  }

  lemma {:induction false} Empty(bs: bytes)
    ensures [] + bs == bs
  {
  }

  lemma {:induction false} SmallOpcode(n: nat)
    requires n < TWO_TO_THE_32
    ensures n % TWO_TO_THE_32 == n
  {
  }

  lemma {:induction false} RegionsRoundTrip(w: BodyEnv, r: BodyEnv, uses: set<Value>, scope: seq<Value>, path: Path, i: nat,
                                            regions: seq<Region>, stream: LocStream, rest: bytes)
    requires LinkedBodies(w, r) && WriteRegions(w, uses, scope, path, i, regions).Some?
    ensures ReadRegions(r, scope, path, i, |regions|, stream, WriteRegions(w, uses, scope, path, i, regions).value + rest) ==
            Outcome(RestoreRegions(w, scope, path, i, regions, stream), rest)
    decreases regions, 0
  {
    hide LinkedBodies, WriteRegion, ReadRegion, RestoreRegion;
    if regions == [] {
      Empty(rest);
    } else {
      var head := WriteRegion(w, uses, scope, path + [i], regions[0]).value;
      var tail := WriteRegions(w, uses, scope, path, i + 1, regions[1..]).value;
      Assoc(head, tail, rest);
      RegionRoundTrip(w, r, uses, scope, path + [i], regions[0], stream, tail + rest);
      var restored := RestoreRegion(w, scope, path + [i], regions[0], stream);
      if restored.Some? {
        RegionsRoundTrip(w, r, uses, scope, path, i + 1, regions[1..], restored.value.1, rest);
      }
    }
  }

  lemma {:induction false} RegionRoundTrip(w: BodyEnv, r: BodyEnv, uses: set<Value>, scope: seq<Value>, path: Path,
                                           region: Region, stream: LocStream, rest: bytes)
    requires LinkedBodies(w, r) && WriteRegion(w, uses, scope, path, region).Some?
    ensures ReadRegion(r, scope, path, stream, WriteRegion(w, uses, scope, path, region).value + rest) ==
            Outcome(RestoreRegion(w, scope, path, region, stream), rest)
    decreases region, 0
  {
    hide LinkedBodies, WriteBlocks, ReadBlocks, RestoreBlocks;
    var count := VarInt(|region.blocks|);
    var blocks := WriteBlocks(w, uses, scope, path, 0, region.blocks).value;
    Assoc(count, blocks, rest);
    VarIntRoundTrip(|region.blocks|, blocks + rest);
    BlocksRoundTrip(w, r, uses, scope, path, 0, region.blocks, stream, rest);
  }

  lemma {:induction false} BlocksRoundTrip(w: BodyEnv, r: BodyEnv, uses: set<Value>, scope: seq<Value>,
                                           region: Path, i: nat,
                                           blocks: seq<Block>, stream: LocStream, rest: bytes)
    requires LinkedBodies(w, r) && WriteBlocks(w, uses, scope, region, i, blocks).Some?
    ensures ReadBlocks(r, scope, region, i, |blocks|, stream, WriteBlocks(w, uses, scope, region, i, blocks).value + rest) ==
            Outcome(RestoreBlocks(w, scope, region, i, blocks, stream), rest)
    decreases blocks, 0
  {
    hide LinkedBodies, WriteBlock, ReadBlock, RestoreBlock;
    if blocks == [] {
      Empty(rest);
    } else {
      var head := WriteBlock(w, uses, scope, region + [i], blocks[0]).value;
      var tail := WriteBlocks(w, uses, scope, region, i + 1, blocks[1..]).value;
      Assoc(head, tail, rest);
      BlockRoundTrip(w, r, uses, scope, region + [i], blocks[0], stream, tail + rest);
      var restored := RestoreBlock(w, scope, region + [i], blocks[0], stream);
      if restored.Some? {
        BlocksRoundTrip(w, r, uses, scope, region, i + 1, blocks[1..], restored.value.1, rest);
      }
    }
  }

  lemma {:induction false} BlockRoundTrip(w: BodyEnv, r: BodyEnv, uses: set<Value>, scope: seq<Value>, path: Path,
                                          block: Block, stream: LocStream, rest: bytes)
    requires LinkedBodies(w, r) && WriteBlock(w, uses, scope, path, block).Some?
    ensures ReadBlock(r, scope, path, stream, WriteBlock(w, uses, scope, path, block).value + rest) ==
            Outcome(RestoreBlock(w, scope, path, block, stream), rest)
    decreases block, 0
  {
    hide WriteTypes, ReadTypes, WriteOps, ReadOps, RestoreOps, BodyOk;
    var inner := scope + ArgumentsOf(path, |block.args|);
    var args := WriteTypes(w.env, block.args).value;
    var ops := WriteOps(w, uses, inner, path, 0, block.ops).value;
    OpBytes(VarInt(|block.args|), args, VarInt(|block.ops|), ops, rest);
    VarIntRoundTrip(|block.args|, args + (VarInt(|block.ops|) + (ops + rest)));
    TypesRoundTrip(w.env, r.env, block.args, VarInt(|block.ops|) + (ops + rest));
    VarIntRoundTrip(|block.ops|, ops + rest);
    OpsRoundTrip(w, r, uses, inner, path, 0, block.ops, stream, rest);
  }

  lemma {:induction false} OpsRoundTrip(w: BodyEnv, r: BodyEnv, uses: set<Value>, scope: seq<Value>, block: Path, i: nat,
                                        ops: seq<Op>, stream: LocStream, rest: bytes)
    requires LinkedBodies(w, r) && WriteOps(w, uses, scope, block, i, ops).Some?
    ensures ReadOps(r, scope, block, i, |ops|, stream, WriteOps(w, uses, scope, block, i, ops).value + rest) ==
            Outcome(RestoreOps(w, scope, block, i, ops, stream), rest)
    decreases ops, 0
  {
    hide LinkedBodies, WriteOp, ReadOp, RestoreOp, Defined;
    if ops == [] {
      Empty(rest);
    } else {
      var head := WriteOp(w, uses, scope, block + [i], ops[0]).value;
      var inner := scope + Defined(w, block + [i], ops[0]);
      var tail := WriteOps(w, uses, inner, block, i + 1, ops[1..]).value;
      Assoc(head, tail, rest);
      OneOpRoundTrip(w, r, uses, scope, block + [i], ops[0], stream, tail + rest);
      var restored := RestoreOp(w, scope, block + [i], ops[0], stream);
      if restored.Some? {
        SameDefined(w, r, scope, block + [i], ops[0], stream);
        OpsRoundTrip(w, r, uses, inner, block, i + 1, ops[1..], restored.value.1, rest);
      }
    }
  }

  // ---------------------------------------------------------------- whole functions

  lemma {:induction false} AllRoundTrip(w: BodyEnv, r: BodyEnv, uses: set<Value>, scope: seq<Value>, i: nat, ops: seq<Op>,
                                        stream: LocStream)
    requires LinkedBodies(w, r) && WriteOps(w, uses, scope, [], i, ops).Some?
    ensures ReadAll(r, scope, i, stream, WriteOps(w, uses, scope, [], i, ops).value) ==
            RestoreOps(w, scope, [], i, ops, stream)
    decreases |ops|
  {
    hide LinkedBodies, ReadOp, RestoreOp, Defined;
    if ops != [] {
      assert [] + [i] == [i];
      var head := WriteOp(w, uses, scope, [i], ops[0]).value;
      var inner := scope + Defined(w, [i], ops[0]);
      var tail := WriteOps(w, uses, inner, [], i + 1, ops[1..]).value;
      OneOpRoundTrip(w, r, uses, scope, [i], ops[0], stream, tail);
      WrittenOpIsNotEmpty(w, uses, scope, [i], ops[0]);
      var restored := RestoreOp(w, scope, [i], ops[0], stream);
      if restored.Some? {
        SameDefined(w, r, scope, [i], ops[0], stream);
        AllRoundTrip(w, r, uses, inner, i + 1, ops[1..], restored.value.1);
      }
    }
  }

  lemma {:induction false} WrittenOpIsNotEmpty(w: BodyEnv, uses: set<Value>, scope: seq<Value>, path: Path, op: Op)
    requires WriteOp(w, uses, scope, path, op).Some?
    ensures WriteOp(w, uses, scope, path, op).value != []
  {
    assert WriteOp(w, uses, scope, path, op).value[0] == VarInt(op.opcode)[0];
  }

  // ---------------------------------------------------------------- when nothing changes

  predicate InScope(scope: seq<Value>, groups: seq<seq<Value>>) {
    forall i, j :: 0 <= i < |groups| && 0 <= j < |groups[i]| ==> groups[i][j] in scope
  }

  /** The operations the reader gives back as they are, by what it restores. */
  predicate UnchangedOp(b: BodyEnv, scope: seq<Value>, path: Path, op: Op)
    decreases op, 0
  {
    && op.opcode in b.schemas
    && Shaped(b.schemas[op.opcode], HeadOf(scope, op))
    && ReadableHead(b.env, b.schemas[op.opcode], HeadOf(scope, op), |scope|)
    && Restored(b.schemas[op.opcode], b.env.version, HeadOf(scope, op)) == HeadOf(scope, op)
    && InScope(scope, op.operands)
    && UnchangedRegions(b, scope, path, 0, op.regions)
  }

  predicate UnchangedRegions(b: BodyEnv, scope: seq<Value>, path: Path, r: nat, regions: seq<Region>)
    decreases regions, 0
  {
    regions == [] ||
    (UnchangedRegion(b, scope, path + [r], regions[0]) && UnchangedRegions(b, scope, path, r + 1, regions[1..]))
  }

  predicate UnchangedRegion(b: BodyEnv, scope: seq<Value>, path: Path, region: Region)
    decreases region, 0
  {
    UnchangedBlocks(b, scope, path, 0, region.blocks)
  }

  predicate UnchangedBlocks(b: BodyEnv, scope: seq<Value>, region: Path, i: nat, blocks: seq<Block>)
    decreases blocks, 0
  {
    blocks == [] ||
    (UnchangedBlock(b, scope, region + [i], blocks[0]) && UnchangedBlocks(b, scope, region, i + 1, blocks[1..]))
  }

  predicate UnchangedBlock(b: BodyEnv, scope: seq<Value>, path: Path, block: Block)
    decreases block, 0
  {
    EndsInTerminator(b, block.ops) &&
    UnchangedOps(b, scope + ArgumentsOf(path, |block.args|), path, 0, block.ops)
  }

  predicate UnchangedOps(b: BodyEnv, scope: seq<Value>, block: Path, i: nat, ops: seq<Op>)
    decreases ops, 0
  {
    ops == [] ||
    (UnchangedOp(b, scope, block + [i], ops[0]) &&
     UnchangedOps(b, scope + Defined(b, block + [i], ops[0]), block, i + 1, ops[1..]))
  }

  lemma {:induction false} BoundBack(scope: seq<Value>, group: seq<Value>, limit: nat)
    requires limit == |scope| && KnownIndices(Lookups(scope, group), limit)
    ensures Binds(scope, Lookups(scope, group)) == group <==> forall j :: 0 <= j < |group| ==> group[j] in scope
  {
    KnownEach(Lookups(scope, group), limit);
    forall j | 0 <= j < |group| ensures Binds(scope, Lookups(scope, group))[j] == group[j] <==> group[j] in scope {
      var i := Lookups(scope, group)[j];
      assert i < |scope|;
    }
  }

  lemma {:induction false} KnownEach(group: seq<nat>, limit: nat)
    requires KnownIndices(group, limit)
    ensures forall j :: 0 <= j < |group| ==> group[j] < limit
  {
    if group != [] {
      KnownEach(group[1..], limit);
    }
  }

  lemma {:induction false} KnownGroups(groups: seq<seq<nat>>, before: nat, limit: nat)
    requires ReadableGroups(groups, before, limit)
    ensures forall i :: 0 <= i < |groups| ==> KnownIndices(groups[i], limit)
  {
    if groups != [] {
      KnownGroups(groups[1..], before + |groups[0]|, limit);
    }
  }

  /** Looking a value up and binding the index gives the value back exactly when it is in scope. */
  lemma {:induction false} OperandsBoundBack(s: OpSchema, scope: seq<Value>, op: Op)
    requires ReadableOperands(s, HeadOf(scope, op).operands, |scope|)
    ensures BindAll(scope, HeadOf(scope, op).operands) == op.operands <==> InScope(scope, op.operands)
  {
    var groups := HeadOf(scope, op).operands;
    if s.segmented {
      KnownGroups(groups, 0, |scope|);
    }
    forall i | 0 <= i < |groups|
      ensures BindAll(scope, groups)[i] == op.operands[i] <==>
              forall j :: 0 <= j < |op.operands[i]| ==> op.operands[i][j] in scope
    {
      assert groups[i] == Lookups(scope, op.operands[i]) && (s.segmented || i == 0);
      assert KnownIndices(groups[i], |scope|);
      BoundBack(scope, op.operands[i], |scope|);
    }
  }

  /**
    An operation is rebuilt as it was exactly when it is faithful, and its locations are
    the ones the stream holds for it, in the order in which the writer recorded them.
    */
  lemma {:induction false} RestoredIffUnchanged(b: BodyEnv, scope: seq<Value>, path: Path, op: Op, more: seq<Debug>)
    ensures var r := RestoreOp(b, scope, path, op, Listed(LocsOfOp(op) + more));
            (r.Some? ==> r.value.1 == Listed(more)) && (r.Some? && r.value.0 == op <==> UnchangedOp(b, scope, path, op))
    decreases op, 0
  {
    hide ReadableHead, Shaped, Restored, InScope, BindAll;
    assert (LocsOfOp(op) + more)[1..] == LocsOfRegions(op.regions) + more;
    RegionsRestoredIffUnchanged(b, scope, path, 0, op.regions, more);
    if op.opcode in b.schemas && Shaped(b.schemas[op.opcode], HeadOf(scope, op)) {
      HeadRestored(b, scope, op);
    }
  }

  lemma {:induction false} HeadRestored(b: BodyEnv, scope: seq<Value>, op: Op)
    requires op.opcode in b.schemas && Shaped(b.schemas[op.opcode], HeadOf(scope, op))
    ensures var s, head := b.schemas[op.opcode], HeadOf(scope, op);
            var h := Restored(s, b.env.version, head);
            ReadableHead(b.env, s, head, |scope|) ==>
              (h.results == op.results && h.attrs == op.attrs && BindAll(scope, h.operands) == op.operands <==>
               h == head && InScope(scope, op.operands))
  {
    var s, head := b.schemas[op.opcode], HeadOf(scope, op);
    if ReadableHead(b.env, s, head, |scope|) {
      OperandsBoundBack(s, scope, op);
    }
  }

  lemma {:induction false} RegionsRestoredIffUnchanged(b: BodyEnv, scope: seq<Value>, path: Path, r: nat,
                                                      regions: seq<Region>, more: seq<Debug>)
    ensures var res := RestoreRegions(b, scope, path, r, regions, Listed(LocsOfRegions(regions) + more));
            (res.Some? ==> res.value.1 == Listed(more)) &&
            (res.Some? && res.value.0 == regions <==> UnchangedRegions(b, scope, path, r, regions))
    decreases regions, 0
  {
    hide RestoreBlocks, UnchangedBlocks;
    if regions == [] {
      EmptyLocs(more);
    } else {
      var blocks := regions[0].blocks;
      LocsAssoc(LocsOfBlocks(blocks), LocsOfRegions(regions[1..]), more);
      BlocksRestoredIffUnchanged(b, scope, path + [r], 0, blocks, LocsOfRegions(regions[1..]) + more);
      RegionsRestoredIffUnchanged(b, scope, path, r + 1, regions[1..], more);
      assert regions == [regions[0]] + regions[1..];
    }
  }

  lemma {:induction false} EmptyLocs(locs: seq<Debug>)
    ensures [] + locs == locs
  {
  }

  lemma {:induction false} LocsAssoc(a: seq<Debug>, b: seq<Debug>, c: seq<Debug>)
    ensures a + b + c == a + (b + c)
  {
  }

  lemma {:induction false} BlocksRestoredIffUnchanged(b: BodyEnv, scope: seq<Value>, region: Path, i: nat,
                                                     blocks: seq<Block>, more: seq<Debug>)
    ensures var res := RestoreBlocks(b, scope, region, i, blocks, Listed(LocsOfBlocks(blocks) + more));
            (res.Some? ==> res.value.1 == Listed(more)) &&
            (res.Some? && res.value.0 == blocks <==> UnchangedBlocks(b, scope, region, i, blocks))
    decreases blocks, 0
  {
    hide RestoreBlock, UnchangedBlock;
    if blocks == [] {
      EmptyLocs(more);
    } else {
      LocsAssoc(LocsOfOps(blocks[0].ops), LocsOfBlocks(blocks[1..]), more);
      BlockRestoredIffUnchanged(b, scope, region + [i], blocks[0], LocsOfBlocks(blocks[1..]) + more);
      BlocksRestoredIffUnchanged(b, scope, region, i + 1, blocks[1..], more);
      assert blocks == [blocks[0]] + blocks[1..];
    }
  }

  lemma {:induction false} BlockRestoredIffUnchanged(b: BodyEnv, scope: seq<Value>, path: Path, block: Block,
                                                     more: seq<Debug>)
    ensures var res := RestoreBlock(b, scope, path, block, Listed(LocsOfOps(block.ops) + more));
            (res.Some? ==> res.value.1 == Listed(more)) &&
            (res.Some? && res.value.0 == block <==> UnchangedBlock(b, scope, path, block))
    decreases block, 0
  {
    hide RestoreOps, UnchangedOps;
    OpsRestoredIffUnchanged(b, scope + ArgumentsOf(path, |block.args|), path, 0, block.ops, more);
  }

  lemma {:induction false} OpsRestoredIffUnchanged(b: BodyEnv, scope: seq<Value>, block: Path, i: nat, ops: seq<Op>,
                                                  more: seq<Debug>)
    ensures var res := RestoreOps(b, scope, block, i, ops, Listed(LocsOfOps(ops) + more));
            (res.Some? ==> res.value.1 == Listed(more)) &&
            (res.Some? && res.value.0 == ops <==> UnchangedOps(b, scope, block, i, ops))
    decreases ops, 0
  {
    hide RestoreOp, UnchangedOp, LocsOfOp;
    if ops == [] {
      EmptyLocs(more);
    } else {
      LocsAssoc(LocsOfOp(ops[0]), LocsOfOps(ops[1..]), more);
      RestoredIffUnchanged(b, scope, block + [i], ops[0], LocsOfOps(ops[1..]) + more);
      OpsRestoredIffUnchanged(b, scope + Defined(b, block + [i], ops[0]), block, i + 1, ops[1..], more);
      assert ops == [ops[0]] + ops[1..];
    }
  }

  // ---------------------------------------------------------------- the condition on what is written

  /**
    The operations that survive: every operand is defined earlier in an enclosing block and
    numbered, the reader accepts the operation, dropped results have the type the reader
    builds, and what stands for left-out attributes is what they were.
    */
  predicate FaithfulOp(b: BodyEnv, scope: seq<Value>, path: Path, op: Op)
    decreases op, 0
  {
    && op.opcode in b.schemas
    && Shaped(b.schemas[op.opcode], HeadOf(scope, op))
    && ReadableHead(b.env, b.schemas[op.opcode], HeadOf(scope, op), |scope|)
    && HeadKept(b.schemas[op.opcode], b.env.version, HeadOf(scope, op))
    && InScope(scope, op.operands)
    && FaithfulRegions(b, scope, path, 0, op.regions)
  }

  predicate FaithfulRegions(b: BodyEnv, scope: seq<Value>, path: Path, r: nat, regions: seq<Region>)
    decreases regions, 0
  {
    regions == [] ||
    (FaithfulBlocks(b, scope, path + [r], 0, regions[0].blocks) && FaithfulRegions(b, scope, path, r + 1, regions[1..]))
  }

  predicate FaithfulBlocks(b: BodyEnv, scope: seq<Value>, region: Path, i: nat, blocks: seq<Block>)
    decreases blocks, 0
  {
    blocks == [] ||
    (EndsInTerminator(b, blocks[0].ops) &&
     FaithfulOps(b, scope + ArgumentsOf(region + [i], |blocks[0].args|), region + [i], 0, blocks[0].ops) &&
     FaithfulBlocks(b, scope, region, i + 1, blocks[1..]))
  }

  predicate FaithfulOps(b: BodyEnv, scope: seq<Value>, block: Path, i: nat, ops: seq<Op>)
    decreases ops, 0
  {
    ops == [] ||
    (FaithfulOp(b, scope, block + [i], ops[0]) &&
     FaithfulOps(b, scope + Defined(b, block + [i], ops[0]), block, i + 1, ops[1..]))
  }

  /** Of a written operation the two say the same. */
  lemma {:induction false} FaithfulIffUnchanged(b: BodyEnv, uses: set<Value>, scope: seq<Value>, path: Path, op: Op)
    requires BodyOk(b) && WriteOp(b, uses, scope, path, op).Some?
    ensures FaithfulOp(b, scope, path, op) <==> UnchangedOp(b, scope, path, op)
    decreases op, 0
  {
    hide ReadableHead, Shaped, Restored, InScope, HeadKept, WriteRegions, SchemaOk, Supported, UsedResults,
         WriteHead, FieldsAllowed, WriteFields, Presence;
    RegionsFaithful(b, uses, scope, path, 0, op.regions);
    var s, head := b.schemas[op.opcode], HeadOf(scope, op);
    HeadParts(b.env, s, head, UsedResults(uses, path, |op.results|));
    RestoredUnchanged(b.env, s, head);
  }

  lemma {:induction false} HeadParts(env: Env, s: OpSchema, h: Head, used: seq<bool>)
    requires Shaped(s, h) && |used| == |h.results| && WriteHead(env, s, h, used).Some?
    ensures |h.attrs| == |s.attrs| && FieldsAllowed(s, env.version, Presence(s, h))
    ensures WriteFields(env, s.attrs, h.attrs).Some?
  {
    hide FieldsAllowed, WriteFields, WriteResults, WriteOperands, Presence;
  }

  lemma {:induction false} RegionsFaithful(b: BodyEnv, uses: set<Value>, scope: seq<Value>, path: Path, r: nat,
                                           regions: seq<Region>)
    requires BodyOk(b) && WriteRegions(b, uses, scope, path, r, regions).Some?
    ensures FaithfulRegions(b, scope, path, r, regions) <==> UnchangedRegions(b, scope, path, r, regions)
    decreases regions, 0
  {
    hide BodyOk, WriteBlocks, FaithfulBlocks, UnchangedBlocks;
    if regions != [] {
      BlocksFaithful(b, uses, scope, path + [r], 0, regions[0].blocks);
      RegionsFaithful(b, uses, scope, path, r + 1, regions[1..]);
    }
  }

  lemma {:induction false} BlocksFaithful(b: BodyEnv, uses: set<Value>, scope: seq<Value>, region: Path, i: nat,
                                          blocks: seq<Block>)
    requires BodyOk(b) && WriteBlocks(b, uses, scope, region, i, blocks).Some?
    ensures FaithfulBlocks(b, scope, region, i, blocks) <==> UnchangedBlocks(b, scope, region, i, blocks)
    decreases blocks, 0
  {
    hide BodyOk, WriteOps, FaithfulOps, UnchangedOps, WriteTypes;
    if blocks != [] {
      OpsFaithful(b, uses, scope + ArgumentsOf(region + [i], |blocks[0].args|), region + [i], 0, blocks[0].ops);
      BlocksFaithful(b, uses, scope, region, i + 1, blocks[1..]);
    }
  }

  lemma {:induction false} OpsFaithful(b: BodyEnv, uses: set<Value>, scope: seq<Value>, block: Path, i: nat, ops: seq<Op>)
    requires BodyOk(b) && WriteOps(b, uses, scope, block, i, ops).Some?
    ensures FaithfulOps(b, scope, block, i, ops) <==> UnchangedOps(b, scope, block, i, ops)
    decreases ops, 0
  {
    hide BodyOk, WriteOp, FaithfulOp, UnchangedOp, Defined;
    if ops != [] {
      FaithfulIffUnchanged(b, uses, scope, block + [i], ops[0]);
      OpsFaithful(b, uses, scope + Defined(b, block + [i], ops[0]), block, i + 1, ops[1..]);
    }
  }

  /**
    Function bodies round trip: for every body the writer accepts, the reader returns the
    same operations, with the recorded locations, exactly when the body is faithful.
    */
  lemma {:induction false} FunctionRoundTrip(w: BodyEnv, r: BodyEnv, uses: set<Value>, args: nat, ops: seq<Op>,
                                             more: seq<Debug>)
    requires LinkedBodies(w, r) && WriteFunction(w, uses, args, ops).Some?
    ensures ReadFunction(r, args, Listed(LocsOfOps(ops) + more), WriteFunction(w, uses, args, ops).value) == Some((ops, Listed(more)))
            <==> FaithfulOps(w, ArgumentsOf([], args), [], 0, ops)
  {
    hide WriteOps, ReadAll, RestoreOps, UnchangedOps, FaithfulOps, BodyOk, Linked;
    AllRoundTrip(w, r, uses, ArgumentsOf([], args), 0, ops, Listed(LocsOfOps(ops) + more));
    OpsFaithful(w, uses, ArgumentsOf([], args), [], 0, ops);
    OpsRestoredIffUnchanged(w, ArgumentsOf([], args), [], 0, ops, more);
  }

  // ---------------------------------------------------------------- a value without an index

  /** One operation with one operand, and no other. */
  const ONE_OPERAND := OpSchema(MIN_SUPPORTED_VERSION, [], false, [], [OperandSchema(One, MIN_SUPPORTED_VERSION)], false, 0, false)
  const ONE_OP := BodyEnv(Env(MIN_SUPPORTED_VERSION, [], [], [], map[]), map[5 := ONE_OPERAND], Some(10))

  function Using(v: Value): Op {
    Op(5, [], [], [[v]], [], UnknownLoc)
  }

  /** A value that is not in scope is written as the first one, and comes back as that. */
  lemma {:induction false} UnknownBecomesFirst(v: Value)
    requires v != Argument([], 0)
    ensures WriteFunction(ONE_OP, {}, 1, [Using(v)]) == Some([5, 0])
    ensures ReadFunction(ONE_OP, 1, Hidden, [5, 0]) == Some(([Using(Argument([], 0))], Hidden))
  {
    var scope, op := [Argument([], 0)], Using(v);
    assert ArgumentsOf([], 1) == scope && [] + [0] == [0];
    OneOperandIsOk();
    UnknownIsWritten(v);
    FirstIsRestored(v);
    hide WriteOp, RestoreOp, ReadOp, LinkedBodies, WriteHead, ReadHead, WriteOps, ReadAll, RestoreOps, Defined,
         HeadOf, Shaped, SchemaOk;
    OneOpBody(ONE_OP, {}, scope, op, [5, 0], Using(Argument([], 0)), Hidden);
    AllRoundTrip(ONE_OP, ONE_OP, {}, scope, 0, [op], Hidden);
  }

  /** A body of a single operation. */
  lemma {:induction false} OneOpBody(b: BodyEnv, uses: set<Value>, scope: seq<Value>, op: Op, written: bytes,
                                     back: Op, stream: LocStream)
    requires WriteOp(b, uses, scope, [0], op) == Some(written)
    requires RestoreOp(b, scope, [0], op, stream) == Some((back, stream))
    ensures WriteOps(b, uses, scope, [], 0, [op]) == Some(written)
    ensures RestoreOps(b, scope, [], 0, [op], stream) == Some(([back], stream))
  {
    hide WriteOp, RestoreOp, Defined;
    var nothing: bytes := [];
    assert [] + [0] == [0] && [op][1..] == [] && written + nothing == written;
    var inner := scope + Defined(b, [0], op);
    assert WriteOps(b, uses, inner, [], 1, []) == Some([]) && RestoreOps(b, inner, [], 1, [], stream) == Some(([], stream));
    assert [back] + [] == [back];
  }

  lemma {:induction false} OneOperandIsOk()
    ensures LinkedBodies(ONE_OP, ONE_OP)
  {
  }

  lemma {:induction false} UnknownHead(v: Value)
    requires v != Argument([], 0)
    ensures HeadOf([Argument([], 0)], Using(v)) == Head([], [], [[0]]) && Shaped(ONE_OPERAND, Head([], [], [[0]]))
    ensures WriteHead(ONE_OP.env, ONE_OPERAND, Head([], [], [[0]]), []) == Some([0])
  {
    assert Lookups([Argument([], 0)], [v]) == [0];
    var nothing: bytes := [];
    assert VarInt(0) == [0] && [0] + nothing == [0] && nothing + [0] == [0] && nothing + nothing == nothing;
    assert [0][1..] == [] && WriteIndices([0]) == Some([0]);
    assert WriteTypes(ONE_OP.env, []) == Some([]);
    assert Presence(ONE_OPERAND, Head([], [], [[0]])) == [];
    assert WriteOperands(ONE_OPERAND, [[0]]) == Some([0]);
  }

  lemma {:induction false} UnknownIsWritten(v: Value)
    requires v != Argument([], 0)
    ensures WriteOp(ONE_OP, {}, [Argument([], 0)], [0], Using(v)) == Some([5, 0])
  {
    UnknownHead(v);
    hide WriteHead;
    assert VarInt(5) == [5];
    var nothing: bytes := [];
    assert [0] + (nothing + nothing) == [0] && [5] + [0] == [5, 0];
    assert UsedResults({}, [0], 0) == [];
  }

  lemma {:induction false} FirstIsReadable()
    ensures Shaped(ONE_OPERAND, Head([], [], [[0]])) && ReadableHead(ONE_OP.env, ONE_OPERAND, Head([], [], [[0]]), 1)
    ensures Restored(ONE_OPERAND, MIN_SUPPORTED_VERSION, Head([], [], [[0]])) == Head([], [], [[0]])
  {
    assert ReadableFields(ONE_OP.env, [], []) && [0][1..] == [];
    assert KnownIndices([], 1) && KnownIndices([0], 1);
    assert FixUp(MIN_SUPPORTED_VERSION, [], [], [[0]]) == [];
  }

  lemma {:induction false} FirstIsRestored(v: Value)
    requires v != Argument([], 0)
    ensures RestoreOp(ONE_OP, [Argument([], 0)], [0], Using(v), Hidden) == Some((Using(Argument([], 0)), Hidden))
  {
    UnknownHead(v);
    FirstIsReadable();
    hide WriteHead, Shaped, ReadableHead, Restored, HeadOf;
    assert BindAll([Argument([], 0)], [[0]]) == [[Argument([], 0)]] by {
      assert Binds([Argument([], 0)], [0]) == [Argument([], 0)];
    }
  }
}
