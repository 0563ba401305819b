/**
  A body whose locations are replaced. What comes back of a body depends on the locations in
  the stream only, so that a body read with other locations is the body with those locations.
  */
module Relocation {
  import opened Base
  import opened Ir
  import opened DebugIr
  import opened AttrRoundTrip
  import opened OpCodec
  import opened OpRoundTrip
  import opened Bodies
  import opened BodyRoundTrip

  type Relabel = Debug -> Debug

  function MapOp(f: Relabel, op: Op): Op
    decreases op, 0
  {
    Op(op.opcode, op.results, op.attrs, op.operands, MapRegions(f, op.regions), f(op.loc))
  }

  function MapRegions(f: Relabel, regions: seq<Region>): (r: seq<Region>)
    ensures |r| == |regions|
    decreases regions, 0
  {
    if regions == [] then [] else [Region(MapBlocks(f, regions[0].blocks))] + MapRegions(f, regions[1..])
  }

  function MapBlocks(f: Relabel, blocks: seq<Block>): (r: seq<Block>)
    ensures |r| == |blocks|
    decreases blocks, 0
  {
    if blocks == [] then []
    else [Block(blocks[0].args, MapOps(f, blocks[0].ops))] + MapBlocks(f, blocks[1..])
  }

  function MapOps(f: Relabel, ops: seq<Op>): (r: seq<Op>)
    ensures |r| == |ops|
    decreases ops, 0
  {
    if ops == [] then [] else [MapOp(f, ops[0])] + MapOps(f, ops[1..])
  }

  function MapLocs(f: Relabel, locs: seq<Debug>): (r: seq<Debug>)
    ensures |r| == |locs| && forall i :: 0 <= i < |locs| ==> r[i] == f(locs[i])
  {
    if locs == [] then [] else [f(locs[0])] + MapLocs(f, locs[1..])
  }

  lemma {:induction false} MapLocsSum(f: Relabel, a: seq<Debug>, b: seq<Debug>)
    ensures MapLocs(f, a + b) == MapLocs(f, a) + MapLocs(f, b)
  {
  }

  // ---------------------------------------------------------------- locations

  lemma {:induction false} LocsOfMappedOp(f: Relabel, op: Op)
    ensures LocsOfOp(MapOp(f, op)) == MapLocs(f, LocsOfOp(op))
    decreases op, 0
  {
    LocsOfMappedRegions(f, op.regions);
    MapLocsSum(f, [op.loc], LocsOfRegions(op.regions));
  }

  lemma {:induction false} LocsOfMappedRegions(f: Relabel, regions: seq<Region>)
    ensures LocsOfRegions(MapRegions(f, regions)) == MapLocs(f, LocsOfRegions(regions))
    decreases regions, 0
  {
    if regions != [] {
      LocsOfMappedBlocks(f, regions[0].blocks);
      LocsOfMappedRegions(f, regions[1..]);
      MapLocsSum(f, LocsOfBlocks(regions[0].blocks), LocsOfRegions(regions[1..]));
    }
  }

  lemma {:induction false} LocsOfMappedBlocks(f: Relabel, blocks: seq<Block>)
    ensures LocsOfBlocks(MapBlocks(f, blocks)) == MapLocs(f, LocsOfBlocks(blocks))
    decreases blocks, 0
  {
    if blocks != [] {
      LocsOfMappedOps(f, blocks[0].ops);
      LocsOfMappedBlocks(f, blocks[1..]);
      MapLocsSum(f, LocsOfOps(blocks[0].ops), LocsOfBlocks(blocks[1..]));
    }
  }

  lemma {:induction false} LocsOfMappedOps(f: Relabel, ops: seq<Op>)
    ensures LocsOfOps(MapOps(f, ops)) == MapLocs(f, LocsOfOps(ops))
    decreases ops, 0
  {
    hide LocsOfOp, MapOp;
    if ops != [] {
      LocsOfMappedOp(f, ops[0]);
      LocsOfMappedOps(f, ops[1..]);
      MapLocsSum(f, LocsOfOp(ops[0]), LocsOfOps(ops[1..]));
    }
  }

  // ---------------------------------------------------------------- what comes back

  lemma {:induction false} MappedTerminator(b: BodyEnv, f: Relabel, ops: seq<Op>)
    ensures EndsInTerminator(b, MapOps(f, ops)) == EndsInTerminator(b, ops)
  {
    if |ops| > 0 {
      MappedAt(f, ops, |ops| - 1);
    }
  }

  lemma {:induction false} MappedAt(f: Relabel, ops: seq<Op>, i: nat)
    requires i < |ops|
    ensures MapOps(f, ops)[i] == MapOp(f, ops[i])
  {
    if i > 0 {
      MappedAt(f, ops[1..], i - 1);
    }
  }

  lemma {:induction false} SameHead(b: BodyEnv, scope: seq<Value>, path: Path, f: Relabel, op: Op)
    ensures HeadOf(scope, MapOp(f, op)) == HeadOf(scope, op) && Defined(b, path, MapOp(f, op)) == Defined(b, path, op)
  {
  }

  lemma {:induction false} MappedRestores(b: BodyEnv, scope: seq<Value>, path: Path, f: Relabel, op: Op, stream: LocStream)
    ensures RestoreOp(b, scope, path, MapOp(f, op), stream) == RestoreOp(b, scope, path, op, stream)
    decreases op, 0
  {
    hide ReadableHead, Shaped, Restored, BindAll, HeadOf, Defined;
    SameHead(b, scope, path, f, op);
    if Next(stream).Some? {
      MappedRegionsRestore(b, scope, path, f, 0, op.regions, Next(stream).value.1);
    }
  }

  lemma {:induction false} MappedRegionsRestore(b: BodyEnv, scope: seq<Value>, path: Path, f: Relabel, r: nat,
                                                regions: seq<Region>, stream: LocStream)
    ensures RestoreRegions(b, scope, path, r, MapRegions(f, regions), stream) == RestoreRegions(b, scope, path, r, regions, stream)
    decreases regions, 0
  {
    if regions != [] {
      MappedBlocksRestore(b, scope, path + [r], f, 0, regions[0].blocks, stream);
      var head := RestoreRegion(b, scope, path + [r], regions[0], stream);
      if head.Some? {
        MappedRegionsRestore(b, scope, path, f, r + 1, regions[1..], head.value.1);
      }
    }
  }

  lemma {:induction false} MappedBlocksRestore(b: BodyEnv, scope: seq<Value>, region: Path, f: Relabel, i: nat,
                                               blocks: seq<Block>, stream: LocStream)
    ensures RestoreBlocks(b, scope, region, i, MapBlocks(f, blocks), stream) == RestoreBlocks(b, scope, region, i, blocks, stream)
    decreases blocks, 0
  {
    hide EndsInTerminator;
    if blocks != [] {
      var args := ArgumentsOf(region + [i], |blocks[0].args|);
      MappedOpsRestore(b, scope + args, region + [i], f, 0, blocks[0].ops, stream);
      var head := RestoreBlock(b, scope, region + [i], blocks[0], stream);
      if head.Some? {
        MappedBlocksRestore(b, scope, region, f, i + 1, blocks[1..], head.value.1);
      }
    }
  }

  lemma {:induction false} MappedOpsRestore(b: BodyEnv, scope: seq<Value>, block: Path, f: Relabel, i: nat, ops: seq<Op>,
                                            stream: LocStream)
    ensures RestoreOps(b, scope, block, i, MapOps(f, ops), stream) == RestoreOps(b, scope, block, i, ops, stream)
    decreases ops, 0
  {
    hide RestoreOp, Defined, MapOp;
    if ops != [] {
      MappedRestores(b, scope, block + [i], f, ops[0], stream);
      SameHead(b, scope, block + [i], f, ops[0]);
      var head := RestoreOp(b, scope, block + [i], ops[0], stream);
      if head.Some? {
        MappedOpsRestore(b, scope + Defined(b, block + [i], ops[0]), block, f, i + 1, ops[1..], head.value.1);
      }
    }
  }

  // ---------------------------------------------------------------- faithfulness

  lemma {:induction false} MappedUnchanged(b: BodyEnv, scope: seq<Value>, path: Path, f: Relabel, op: Op)
    ensures UnchangedOp(b, scope, path, MapOp(f, op)) == UnchangedOp(b, scope, path, op)
    decreases op, 0
  {
    hide ReadableHead, Shaped, Restored, BindAll, HeadOf, Defined, InScope;
    SameHead(b, scope, path, f, op);
    MappedRegionsUnchanged(b, scope, path, f, 0, op.regions);
  }

  lemma {:induction false} MappedRegionsUnchanged(b: BodyEnv, scope: seq<Value>, path: Path, f: Relabel, r: nat,
                                                  regions: seq<Region>)
    ensures UnchangedRegions(b, scope, path, r, MapRegions(f, regions)) == UnchangedRegions(b, scope, path, r, regions)
    decreases regions, 0
  {
    if regions != [] {
      MappedBlocksUnchanged(b, scope, path + [r], f, 0, regions[0].blocks);
      MappedRegionsUnchanged(b, scope, path, f, r + 1, regions[1..]);
    }
  }

  lemma {:induction false} MappedBlocksUnchanged(b: BodyEnv, scope: seq<Value>, region: Path, f: Relabel, i: nat,
                                                 blocks: seq<Block>)
    ensures UnchangedBlocks(b, scope, region, i, MapBlocks(f, blocks)) == UnchangedBlocks(b, scope, region, i, blocks)
    decreases blocks, 0
  {
    hide EndsInTerminator;
    if blocks != [] {
      MappedOpsUnchanged(b, scope + ArgumentsOf(region + [i], |blocks[0].args|), region + [i], f, 0, blocks[0].ops);
      MappedTerminator(b, f, blocks[0].ops);
      MappedBlocksUnchanged(b, scope, region, f, i + 1, blocks[1..]);
    }
  }

  lemma {:induction false} MappedOpsUnchanged(b: BodyEnv, scope: seq<Value>, block: Path, f: Relabel, i: nat, ops: seq<Op>)
    ensures UnchangedOps(b, scope, block, i, MapOps(f, ops)) == UnchangedOps(b, scope, block, i, ops)
    decreases ops, 0
  {
    hide UnchangedOp, Defined, MapOp;
    if ops != [] {
      MappedUnchanged(b, scope, block + [i], f, ops[0]);
      SameHead(b, scope, block + [i], f, ops[0]);
      MappedOpsUnchanged(b, scope + Defined(b, block + [i], ops[0]), block, f, i + 1, ops[1..]);
    }
  }

  // ---------------------------------------------------------------- hidden locations

  predicate AllUnknown(locs: seq<Debug>) {
    forall i :: 0 <= i < |locs| ==> locs[i] == UnknownLoc
  }

  function Hide<T>(r: Option<(T, LocStream)>): Option<(T, LocStream)> {
    if r.None? then None else Some((r.value.0, Hidden))
  }

  lemma {:induction false} UnknownParts(a: seq<Debug>, b: seq<Debug>)
    requires AllUnknown(a + b)
    ensures AllUnknown(a) && AllUnknown(b)
  {
    forall i | 0 <= i < |a| ensures a[i] == UnknownLoc {
      assert (a + b)[i] == a[i];
    }
    forall i | 0 <= i < |b| ensures b[i] == UnknownLoc {
      assert (a + b)[|a| + i] == b[i];
    }
  }

  /** A hidden stream gives what a list of unknown locations gives. */
  lemma {:induction false} HiddenOp(b: BodyEnv, scope: seq<Value>, path: Path, op: Op, more: seq<Debug>)
    requires AllUnknown(LocsOfOp(op))
    ensures RestoreOp(b, scope, path, op, Hidden) == Hide(RestoreOp(b, scope, path, op, Listed(LocsOfOp(op) + more)))
    decreases op, 0
  {
    hide ReadableHead, Shaped, Restored, BindAll, HeadOf;
    assert (LocsOfOp(op) + more)[1..] == LocsOfRegions(op.regions) + more;
    UnknownParts([op.loc], LocsOfRegions(op.regions));
    HiddenRegions(b, scope, path, 0, op.regions, more);
  }

  lemma {:induction false} HiddenRegions(b: BodyEnv, scope: seq<Value>, path: Path, r: nat, regions: seq<Region>,
                                         more: seq<Debug>)
    requires AllUnknown(LocsOfRegions(regions))
    ensures RestoreRegions(b, scope, path, r, regions, Hidden) ==
            Hide(RestoreRegions(b, scope, path, r, regions, Listed(LocsOfRegions(regions) + more)))
    decreases regions, 0
  {
    if regions != [] {
      var first, rest := LocsOfBlocks(regions[0].blocks), LocsOfRegions(regions[1..]);
      UnknownParts(first, rest);
      LocsAssoc(first, rest, more);
      HiddenBlocks(b, scope, path + [r], 0, regions[0].blocks, rest + more);
      BlocksRestoredIffUnchanged(b, scope, path + [r], 0, regions[0].blocks, rest + more);
      HiddenRegions(b, scope, path, r + 1, regions[1..], more);
    }
  }

  lemma {:induction false} HiddenBlocks(b: BodyEnv, scope: seq<Value>, region: Path, i: nat, blocks: seq<Block>,
                                        more: seq<Debug>)
    requires AllUnknown(LocsOfBlocks(blocks))
    ensures RestoreBlocks(b, scope, region, i, blocks, Hidden) ==
            Hide(RestoreBlocks(b, scope, region, i, blocks, Listed(LocsOfBlocks(blocks) + more)))
    decreases blocks, 0
  {
    hide EndsInTerminator, RestoreOps;
    if blocks != [] {
      var first, rest := LocsOfOps(blocks[0].ops), LocsOfBlocks(blocks[1..]);
      UnknownParts(first, rest);
      LocsAssoc(first, rest, more);
      var inner := scope + ArgumentsOf(region + [i], |blocks[0].args|);
      HiddenOps(b, inner, region + [i], 0, blocks[0].ops, rest + more);
      BlockRestoredIffUnchanged(b, scope, region + [i], blocks[0], rest + more);
      HiddenBlocks(b, scope, region, i + 1, blocks[1..], more);
    }
  }

  lemma {:induction false} HiddenOps(b: BodyEnv, scope: seq<Value>, block: Path, i: nat, ops: seq<Op>, more: seq<Debug>)
    requires AllUnknown(LocsOfOps(ops))
    ensures RestoreOps(b, scope, block, i, ops, Hidden) == Hide(RestoreOps(b, scope, block, i, ops, Listed(LocsOfOps(ops) + more)))
    decreases ops, 0
  {
    hide RestoreOp, Defined;
    if ops != [] {
      var first, rest := LocsOfOp(ops[0]), LocsOfOps(ops[1..]);
      UnknownParts(first, rest);
      LocsAssoc(first, rest, more);
      HiddenOp(b, scope, block + [i], ops[0], rest + more);
      RestoredIffUnchanged(b, scope, block + [i], ops[0], rest + more);
      HiddenOps(b, scope + Defined(b, block + [i], ops[0]), block, i + 1, ops[1..], more);
    }
  }

  // ---------------------------------------------------------------- function bodies

  /** What the stream of a function shows: its locations relabelled, or nothing at all. */
  predicate Shows(stream: LocStream, f: Relabel, locs: seq<Debug>) {
    match stream
    case Hidden => AllUnknown(MapLocs(f, locs))
    case Listed(found) => MapLocs(f, locs) <= found
  }

  /** A body read back with relabelled or hidden locations is the relabelled body, exactly when it is faithful. */
  lemma {:induction false} FunctionReadBack(w: BodyEnv, r: BodyEnv, uses: set<Value>, args: nat, ops: seq<Op>,
                                            f: Relabel, stream: LocStream)
    requires LinkedBodies(w, r) && WriteFunction(w, uses, args, ops).Some? && Shows(stream, f, LocsOfOps(ops))
    ensures var res := ReadFunction(r, args, stream, WriteFunction(w, uses, args, ops).value);
            res.Some? && res.value.0 == MapOps(f, ops) <==> FaithfulOps(w, ArgumentsOf([], args), [], 0, ops)
  {
    hide Linked, BodyOk, WriteOps, ReadAll, RestoreOps, UnchangedOps, FaithfulOps, MapOps, LocsOfOps;
    var scope, mapped := ArgumentsOf([], args), MapOps(f, ops);
    var locs := MapLocs(f, LocsOfOps(ops));
    AllRoundTrip(w, r, uses, scope, 0, ops, stream);
    MappedOpsRestore(w, scope, [], f, 0, ops, stream);
    MappedOpsUnchanged(w, scope, [], f, 0, ops);
    OpsFaithful(w, uses, scope, [], 0, ops);
    LocsOfMappedOps(f, ops);
    match stream
    case Hidden =>
      HiddenOps(w, scope, [], 0, mapped, []);
      OpsRestoredIffUnchanged(w, scope, [], 0, mapped, []);
    case Listed(found) =>
      var more := found[|locs|..];
      assert found == locs + more;
      OpsRestoredIffUnchanged(w, scope, [], 0, mapped, more);
  }
}
