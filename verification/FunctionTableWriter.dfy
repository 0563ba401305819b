/**
  The writer of function bodies as the object it is: `valueIndexMap` grows with every value
  defined, is rolled back at the end of a block, and is consulted for every operand, while the
  managers intern what the operations refer to. Each method is proved against the pure encoding
  of module Bodies under the tables it leaves behind.
  */
module FunctionTableWriters {
  import opened Base
  import opened VarInts
  import opened Ir
  import opened DebugIr
  import opened AttrCodec
  import opened AttrTables
  import opened OpCodec
  import opened Bodies
  import opened Streams
  import opened DebugInfos
  import opened Interning
  import opened OpWriters
  import opened TableGrowth

  // ---------------------------------------------------------------- places and scopes

  /** The value is defined before the operation at `p`, in a block around it. */
  predicate VisibleAt(v: Value, p: Path) {
    match v
    case Result(q, _) => 0 < |q| <= |p| && q[..|q| - 1] == p[..|q| - 1] && q[|q| - 1] < p[|q| - 1]
    case Argument(block, _) => |block| < |p| && block == p[..|block|]
  }

  predicate Visible(scope: seq<Value>, p: Path) {
    forall i :: 0 <= i < |scope| ==> VisibleAt(scope[i], p)
  }

  predicate Distinct<T(==)>(s: seq<T>) {
    forall i, j :: 0 <= i < j < |s| ==> s[i] != s[j]
  }

  /** An operation does not see its own results, nor the arguments of blocks inside it. */
  lemma {:induction false} NewValuesAreUnseen(p: Path, block: Path, k: nat)
    requires |block| >= |p|
    ensures !VisibleAt(Result(p, k), p) && !VisibleAt(Argument(block, k), p)
  {
  }

  lemma {:induction false} SeenInside(v: Value, p: Path, r: nat, i: nat, j: nat)
    requires VisibleAt(v, p)
    ensures VisibleAt(v, p + [r] + [i] + [j])
  {
    var inner := p + [r] + [i] + [j];
    match v
    case Result(q, _) => assert inner[..|q| - 1] == p[..|q| - 1] && inner[|q| - 1] == p[|q| - 1];
    case Argument(block, _) => assert inner[..|block|] == p[..|block|];
  }

  lemma {:induction false} ArgumentSeen(block: Path, k: nat, j: nat)
    ensures VisibleAt(Argument(block, k), block + [j])
  {
    assert (block + [j])[..|block|] == block;
  }

  lemma {:induction false} ResultSeen(block: Path, i: nat, k: nat)
    ensures VisibleAt(Result(block + [i], k), block + [i + 1])
  {
    assert (block + [i])[..|block|] == (block + [i + 1])[..|block|];
  }

  lemma {:induction false} SeenNext(v: Value, block: Path, i: nat)
    requires VisibleAt(v, block + [i])
    ensures VisibleAt(v, block + [i + 1])
  {
    var p, next := block + [i], block + [i + 1];
    match v
    case Result(q, _) =>
      assert next[..|q| - 1] == p[..|q| - 1];
      assert |q| <= |block| ==> next[|q| - 1] == p[|q| - 1];
    case Argument(b, _) => assert next[..|b|] == p[..|b|];
  }

  lemma {:induction false} ScopeInside(scope: seq<Value>, p: Path, r: nat, i: nat, n: nat)
    requires Visible(scope, p)
    ensures Visible(scope + ArgumentsOf(p + [r] + [i], n), p + [r] + [i] + [0])
  {
    var inner := scope + ArgumentsOf(p + [r] + [i], n);
    forall k | 0 <= k < |inner| ensures VisibleAt(inner[k], p + [r] + [i] + [0]) {
      if k < |scope| {
        SeenInside(scope[k], p, r, i, 0);
      } else {
        ArgumentSeen(p + [r] + [i], k - |scope|, 0);
      }
    }
  }

  lemma {:induction false} ScopeNext(scope: seq<Value>, block: Path, i: nat, n: nat)
    requires Visible(scope, block + [i])
    ensures Visible(scope + ResultsOf(block + [i], n), block + [i + 1])
  {
    var next := scope + ResultsOf(block + [i], n);
    forall k | 0 <= k < |next| ensures VisibleAt(next[k], block + [i + 1]) {
      if k < |scope| {
        SeenNext(scope[k], block, i);
      } else {
        ResultSeen(block, i, k - |scope|);
      }
    }
  }

  lemma {:induction false} ArgumentsUnseen(scope: seq<Value>, p: Path, block: Path, n: nat)
    requires Visible(scope, p) && |block| >= |p|
    ensures forall k :: 0 <= k < n ==> ArgumentsOf(block, n)[k] !in scope
    ensures Distinct(ArgumentsOf(block, n))
  {
    forall k | 0 <= k < n ensures ArgumentsOf(block, n)[k] !in scope {
      NewValuesAreUnseen(p, block, k);
    }
  }

  lemma {:induction false} ResultsUnseen(scope: seq<Value>, p: Path, n: nat)
    requires Visible(scope, p)
    ensures forall k :: 0 <= k < n ==> ResultsOf(p, n)[k] !in scope
    ensures Distinct(ResultsOf(p, n))
  {
    forall k | 0 <= k < n ensures ResultsOf(p, n)[k] !in scope {
      NewValuesAreUnseen(p, p, k);
    }
  }

  // ---------------------------------------------------------------- the map

  /** A map that remembers the order in which its keys were inserted. */
  class FunctionTableWriter {
    const managers: Managers
    const schemas: map<nat, OpSchema>
    const maxOpcode: Option<nat>
    const uses: set<Value>
    const debuginfo: DebugInfoWriter
    var functionLocIndex: nat
    var order: seq<Value>
    var valueIndexMap: map<Value, nat>
    var nextValueIndex: nat

    constructor (managers: Managers, schemas: map<nat, OpSchema>, maxOpcode: Option<nat>, uses: set<Value>,
                 debuginfo: DebugInfoWriter)
      ensures this.managers == managers && this.schemas == schemas && this.maxOpcode == maxOpcode
      ensures this.uses == uses && this.debuginfo == debuginfo && Valid() && order == []
    {
      this.managers, this.schemas, this.maxOpcode := managers, schemas, maxOpcode;
      this.uses, this.debuginfo, functionLocIndex := uses, debuginfo, 0;
      order, valueIndexMap, nextValueIndex := [], map[], 0;
    }

    /** The tables at this moment, and what the operations are. */
    function Format(): BodyEnv
      reads managers.strMgr, managers.typeMgr, managers.constMgr
    {
      BodyEnv(managers.Now(), schemas, maxOpcode)
    }

    ghost predicate Valid()
      reads this
    {
      && nextValueIndex == |order|
      && Distinct(order)
      && (forall v :: v in valueIndexMap <==> v in order)
      && (forall i :: 0 <= i < |order| ==> valueIndexMap[order[i]] == i)
    }

    function IndexFor(v: Value): nat
      reads this
    {
      if v in valueIndexMap then valueIndexMap[v] else 0
    }

    /** The map answers with the position of the value in the numbering. */
    lemma {:induction false} IndexForIsLookup(v: Value)
      requires Valid()
      ensures IndexFor(v) == Lookup(order, v)
    {
      if v in order {
        var i := IndexOf(order, v).value;
        assert valueIndexMap[order[i]] == i;
      }
    }

    method Number(values: seq<Value>)
      requires Valid() && Distinct(values) && forall k :: 0 <= k < |values| ==> values[k] !in order
      modifies this`order, this`valueIndexMap, this`nextValueIndex
      ensures Valid() && order == old(order) + values
    {
      for i := 0 to |values|
        invariant Valid() && order == old(order) + values[..i]
      {
        NumberOne(values[i], old(order), values[..i]);
        assert values[..i + 1] == values[..i] + [values[i]];
      }
      assert values[..|values|] == values;
    }

    method NumberOne(v: Value, ghost before: seq<Value>, ghost added: seq<Value>)
      requires Valid() && order == before + added && v !in before && v !in added
      modifies this`order, this`valueIndexMap, this`nextValueIndex
      ensures Valid() && order == old(order) + [v]
    {
      valueIndexMap := valueIndexMap[v := nextValueIndex];
      order := order + [v];
      nextValueIndex := nextValueIndex + 1;
    }

    /** Leaving a block: the entries added since are popped, the last one first. */
    method RollBack(originalNextValueIndex: nat)
      requires Valid() && originalNextValueIndex <= nextValueIndex
      modifies this`order, this`valueIndexMap, this`nextValueIndex
      ensures Valid() && order == old(order)[..originalNextValueIndex]
    {
      var e := nextValueIndex - originalNextValueIndex;
      for i := 0 to e
        invariant Valid() && order == old(order)[..|old(order)| - i]
      {
        PopBack();
      }
    }

    method PopBack()
      requires Valid() && order != []
      modifies this`order, this`valueIndexMap, this`nextValueIndex
      ensures Valid() && order == old(order)[..|old(order)| - 1]
    {
      var last := order[|order| - 1];
      valueIndexMap := valueIndexMap - {last};
      order := order[..|order| - 1];
      nextValueIndex := nextValueIndex - 1;
    }

    // -------------------------------------------------------------- the walk

    /** Operands are looked up in the map. */
    function HeadThroughMap(op: Op): Head
      reads this
    {
      Head(op.results, op.attrs,
           seq(|op.operands|, i requires 0 <= i < |op.operands| reads this =>
                 seq(|op.operands[i]|, j requires 0 <= j < |op.operands[i]| reads this => IndexFor(op.operands[i][j]))))
    }

    lemma {:induction false} HeadThroughMapIsHeadOf(op: Op)
      requires Valid()
      ensures HeadThroughMap(op) == HeadOf(order, op)
    {
      forall i | 0 <= i < |op.operands| ensures HeadThroughMap(op).operands[i] == HeadOf(order, op).operands[i] {
        forall j | 0 <= j < |op.operands[i]| ensures IndexFor(op.operands[i][j]) == Lookup(order, op.operands[i][j]) {
          IndexForIsLookup(op.operands[i][j]);
        }
        assert HeadThroughMap(op).operands[i] == HeadOf(order, op).operands[i];
      }
      assert HeadThroughMap(op).operands == HeadOf(order, op).operands;
    }

    /** Everything of an operation up to its regions. */
    method WriteHeader(path: Path, op: Op, writer: EncodingWriter) returns (ok: bool)
      requires Valid() && managers.Valid() && debuginfo.Valid()
      modifies writer, debuginfo, managers.Repr()
      ensures managers.Valid() && debuginfo.Valid() && Grown(old(Format()), Format())
      ensures ok <==> OpHeader(Format(), uses, order, path, op).Some?
      ensures ok ==> debuginfo.recorded == RecordOne(old(debuginfo.recorded), functionLocIndex, op.loc)
      ensures ok ==> writer.stream == old(writer.stream) + OpHeader(Format(), uses, order, path, op).value
      ensures !ok ==> forall later :: Grown(Format(), later) ==> OpHeader(later, uses, order, path, op).None?
    {
      hide Valid, Shaped, WriteHead, Managers.Valid, Managers.Now, Continues, DebugInfoWriter.Valid, VarInt;
      Reflexive(managers.Now());
      if op.opcode !in schemas || !Format().Available(op.opcode) || op.opcode >= TWO_TO_THE_64 {
        return false;
      }
      writer.WriteVarInt(op.opcode);
      if !Supported(op.loc) {
        return false;
      }
      debuginfo.AddDebugInfo(functionLocIndex, op.loc);
      HeadThroughMapIsHeadOf(op);
      var s, head := schemas[op.opcode], HeadThroughMap(op);
      if !Shaped(s, head) || |op.regions| != s.regions || s.regions >= TWO_TO_THE_64 {
        return false;
      }
      ok := WriteOperationHead(managers, s, head, UsedResults(uses, path, |op.results|), writer);
      if ok && s.regions > 0 {
        writer.WriteVarInt(|op.regions|);
      }
    }

    method WriteOperation(path: Path, op: Op, writer: EncodingWriter) returns (ok: bool)
      requires Valid() && Visible(order, path) && managers.Valid() && debuginfo.Valid()
      modifies this, writer, debuginfo, managers.Repr()
      ensures Valid() && managers.Valid() && debuginfo.Valid() && functionLocIndex == old(functionLocIndex)
      ensures Grown(old(Format()), Format()) && (ok <==> WriteOp(Format(), uses, old(order), path, op).Some?)
      ensures ok ==> writer.stream == old(writer.stream) + WriteOp(Format(), uses, old(order), path, op).value
      ensures ok ==> order == old(order) + Defined(Format(), path, op)
      ensures ok ==> debuginfo.recorded == RecordAll(old(debuginfo.recorded), functionLocIndex, LocsOfOp(op))
      ensures !ok ==> forall later :: Grown(Format(), later) ==> WriteOp(later, uses, old(order), path, op).None?
      decreases op, 1
    {
      hide Valid, Visible, OpHeader, WriteOp, WriteRegions, Distinct, RecordOne, LocsOfRegions, Managers.Valid, Format,
           DebugInfoWriter.Valid, Grown, Defined;
      RecordSum(debuginfo.recorded, functionLocIndex, [op.loc], LocsOfRegions(op.regions));
      RecordSingle(debuginfo.recorded, functionLocIndex, op.loc);
      ghost var before := Format();
      ok := WriteHeader(path, op, writer);
      OpIsHeaderThenRegions(Format(), uses, order, path, op);
      if !ok {
        OpRefused(Format(), uses, order, path, op);
        return false;
      }
      ghost var between := Format();
      ok := WriteOpRegions(path, op.regions, writer);
      GrownTwice(before, between, Format());
      HeaderStable(between, Format(), uses, old(order), path, op);
      OpIsHeaderThenRegions(Format(), uses, old(order), path, op);
      if ok {
        var results := Defined(Format(), path, op);
        DefinedUnseen(Format(), order, path, op);
        Number(results);
      } else {
        OpRefused(Format(), uses, old(order), path, op);
      }
    }

    method WriteOpRegions(path: Path, regions: seq<Region>, writer: EncodingWriter) returns (ok: bool)
      requires Valid() && Visible(order, path) && managers.Valid() && debuginfo.Valid()
      modifies this, writer, debuginfo, managers.Repr()
      ensures Valid() && managers.Valid() && debuginfo.Valid() && functionLocIndex == old(functionLocIndex)
      ensures Grown(old(Format()), Format()) && (ok <==> WriteRegions(Format(), uses, old(order), path, 0, regions).Some?)
      ensures ok ==> writer.stream == old(writer.stream) + WriteRegions(Format(), uses, old(order), path, 0, regions).value
      ensures ok ==> order == old(order)
      ensures ok ==> debuginfo.recorded == RecordAll(old(debuginfo.recorded), functionLocIndex, LocsOfRegions(regions))
      ensures !ok ==> forall later :: Grown(Format(), later) ==> WriteRegions(later, uses, old(order), path, 0, regions).None?
      decreases regions, 1
    {
      hide Valid, Visible, Bodies.WriteRegion, RecordAll, LocsOfBlocks, Managers.Valid, DebugInfoWriter.Valid, Grown,
           RegionsLeft, WriteRegions, Format;
      ghost var done, written: bytes := [], writer.stream;
      assert regions[0..] == regions && written + done == written;
      RegionsStart(Format(), uses, order, path, regions);
      for r := 0 to |regions|
        invariant Valid() && order == old(order) && writer.stream == written + done
        invariant managers.Valid() && debuginfo.Valid() && functionLocIndex == old(functionLocIndex)
        invariant RecordAll(old(debuginfo.recorded), functionLocIndex, LocsOfRegions(regions)) ==
                  RecordAll(debuginfo.recorded, functionLocIndex, LocsOfRegions(regions[r..]))
        invariant Grown(old(Format()), Format()) && RegionsLeft(Format(), uses, order, path, regions, done, r)
      {
        assert regions[r..][1..] == regions[r + 1..];
        RecordSum(debuginfo.recorded, functionLocIndex, LocsOfBlocks(regions[r].blocks), LocsOfRegions(regions[r + 1..]));
        ghost var before := Format();
        ok := WriteRegion(path, r, regions[r], writer);
        RegionsStep(before, Format(), uses, old(order), path, regions, done, r);
        GrownTwice(old(Format()), before, Format());
        if !ok {
          return false;
        }
        ghost var head := Bodies.WriteRegion(Format(), uses, order, path + [r], regions[r]).value;
        Assoc(written, done, head);
        done := done + head;
      }
      assert regions[|regions|..] == [];
      RegionsEnd(Format(), uses, order, path, regions, done);
      RecordNothing(debuginfo.recorded, functionLocIndex);
      return true;
    }

    method WriteRegion(path: Path, r: nat, region: Region, writer: EncodingWriter) returns (ok: bool)
      requires Valid() && Visible(order, path) && managers.Valid() && debuginfo.Valid()
      modifies this, writer, debuginfo, managers.Repr()
      ensures Valid() && managers.Valid() && debuginfo.Valid() && functionLocIndex == old(functionLocIndex)
      ensures Grown(old(Format()), Format())
      ensures ok <==> Bodies.WriteRegion(Format(), uses, old(order), path + [r], region).Some?
      ensures ok ==> writer.stream == old(writer.stream) +
                                      Bodies.WriteRegion(Format(), uses, old(order), path + [r], region).value
      ensures ok ==> order == old(order)
      ensures ok ==> debuginfo.recorded == RecordAll(old(debuginfo.recorded), functionLocIndex, LocsOfBlocks(region.blocks))
      ensures !ok ==> forall later :: Grown(Format(), later) ==>
                                        Bodies.WriteRegion(later, uses, old(order), path + [r], region).None?
      decreases region, 1
    {
      hide Valid, Visible, Bodies.WriteBlock, RecordAll, LocsOfOps, Managers.Valid, DebugInfoWriter.Valid, Grown,
           BlocksLeft, WriteBlocks, Format, VarInt;
      GrownItself(Format());
      if |region.blocks| >= TWO_TO_THE_64 {
        return false;
      }
      writer.WriteVarInt(|region.blocks|);
      ghost var done, written: bytes := [], writer.stream;
      assert region.blocks[0..] == region.blocks && written + done == written;
      BlocksStart(Format(), uses, order, path + [r], region.blocks);
      for i := 0 to |region.blocks|
        invariant Valid() && order == old(order) && writer.stream == written + done
        invariant managers.Valid() && debuginfo.Valid() && functionLocIndex == old(functionLocIndex)
        invariant RecordAll(old(debuginfo.recorded), functionLocIndex, LocsOfBlocks(region.blocks)) ==
                  RecordAll(debuginfo.recorded, functionLocIndex, LocsOfBlocks(region.blocks[i..]))
        invariant Grown(old(Format()), Format()) && BlocksLeft(Format(), uses, order, path + [r], region.blocks, done, i)
      {
        assert region.blocks[i..][1..] == region.blocks[i + 1..];
        RecordSum(debuginfo.recorded, functionLocIndex, LocsOfOps(region.blocks[i].ops), LocsOfBlocks(region.blocks[i + 1..]));
        ghost var before := Format();
        ok := WriteBlock(path, r, i, region.blocks[i], writer);
        BlocksStep(before, Format(), uses, old(order), path + [r], region.blocks, done, i);
        GrownTwice(old(Format()), before, Format());
        if !ok {
          return false;
        }
        ghost var head := Bodies.WriteBlock(Format(), uses, order, path + [r] + [i], region.blocks[i]).value;
        Assoc(written, done, head);
        done := done + head;
      }
      assert region.blocks[|region.blocks|..] == [];
      BlocksEnd(Format(), uses, order, path + [r], region.blocks, done);
      Assoc(old(writer.stream), VarInt(|region.blocks|), done);
      RecordNothing(debuginfo.recorded, functionLocIndex);
      return true;
    }

    /** The numbering is the same after a block as before it. */
    method WriteBlock(path: Path, r: nat, i: nat, block: Block, writer: EncodingWriter) returns (ok: bool)
      requires Valid() && Visible(order, path) && managers.Valid() && debuginfo.Valid()
      modifies this, writer, debuginfo, managers.Repr()
      ensures Valid() && managers.Valid() && debuginfo.Valid() && functionLocIndex == old(functionLocIndex)
      ensures Grown(old(Format()), Format())
      ensures ok <==> Bodies.WriteBlock(Format(), uses, old(order), path + [r] + [i], block).Some?
      ensures ok ==> writer.stream == old(writer.stream) +
                                      Bodies.WriteBlock(Format(), uses, old(order), path + [r] + [i], block).value
      ensures ok ==> order == old(order)
      ensures ok ==> debuginfo.recorded == RecordAll(old(debuginfo.recorded), functionLocIndex, LocsOfOps(block.ops))
      ensures !ok ==> forall later :: Grown(Format(), later) ==>
                                        Bodies.WriteBlock(later, uses, old(order), path + [r] + [i], block).None?
      decreases block, 1
    {
      hide Visible, Bodies.WriteOps, WriteTypes, Distinct, RecordAll, DebugInfoWriter.Valid, Managers.Valid, Managers.Now,
           Continues, VarInt, Valid;
      var originalNextValueIndex := nextValueIndex;
      var here := path + [r] + [i];
      Reflexive(managers.Now());
      ghost var before, e0 := writer.stream, managers.Now();
      ok := WriteTypeList(managers, block.args, writer);
      if !ok || |block.ops| >= TWO_TO_THE_64 {
        return false;
      }
      ghost var e1 := managers.Now();
      ArgumentsUnseen(order, path, here, |block.args|);
      ScopeInside(order, path, r, i, |block.args|);
      CountIs();
      Number(ArgumentsOf(here, |block.args|));
      writer.WriteVarInt(|block.ops|);
      ok := WriteOperations(here, block.ops, writer);
      Transitive(e0, e1, managers.Now());
      TypesStable(e1, managers.Now(), block.args);
      if ok {
        BlockAssembled(before, VarInt(|block.args|), WriteTypes(e1, block.args).value, VarInt(|block.ops|),
                       WriteOps(Format(), uses, old(order) + ArgumentsOf(here, |block.args|), here, 0, block.ops).value);
        CountIs();
        RollBack(originalNextValueIndex);
        assert order == old(order);
      }
    }

    lemma {:induction false} CountIs()
      requires Valid()
      ensures nextValueIndex == |order|
    {
    }

    method WriteOperations(block: Path, ops: seq<Op>, writer: EncodingWriter) returns (ok: bool)
      requires Valid() && Visible(order, block + [0]) && managers.Valid() && debuginfo.Valid()
      modifies this, writer, debuginfo, managers.Repr()
      ensures Valid() && managers.Valid() && debuginfo.Valid() && functionLocIndex == old(functionLocIndex)
      ensures Grown(old(Format()), Format()) && (ok <==> WriteOps(Format(), uses, old(order), block, 0, ops).Some?)
      ensures ok ==> writer.stream == old(writer.stream) + WriteOps(Format(), uses, old(order), block, 0, ops).value
      ensures ok ==> |order| >= |old(order)| && order[..|old(order)|] == old(order)
      ensures ok ==> debuginfo.recorded == RecordAll(old(debuginfo.recorded), functionLocIndex, LocsOfOps(ops))
      ensures !ok ==> forall later :: Grown(Format(), later) ==> WriteOps(later, uses, old(order), block, 0, ops).None?
      decreases ops, 1
    {
      hide Valid, Visible, WriteOp, Defined, RecordAll, LocsOfOp, Managers.Valid, DebugInfoWriter.Valid, Grown,
           OpsLeft, WriteOps, Format;
      ghost var done, written: bytes := [], writer.stream;
      assert ops[0..] == ops && written + done == written;
      OpsStart(Format(), uses, order, block, ops);
      for j := 0 to |ops|
        invariant Valid() && Visible(order, block + [j]) && writer.stream == written + done
        invariant |order| >= |old(order)| && order[..|old(order)|] == old(order)
        invariant managers.Valid() && debuginfo.Valid() && functionLocIndex == old(functionLocIndex)
        invariant RecordAll(old(debuginfo.recorded), functionLocIndex, LocsOfOps(ops)) ==
                  RecordAll(debuginfo.recorded, functionLocIndex, LocsOfOps(ops[j..]))
        invariant Grown(old(Format()), Format()) && OpsLeft(Format(), uses, old(order), block, ops, done, order, j)
      {
        assert ops[j..][1..] == ops[j + 1..];
        RecordSum(debuginfo.recorded, functionLocIndex, LocsOfOp(ops[j]), LocsOfOps(ops[j + 1..]));
        ghost var before, scope := Format(), order;
        ok := WriteOperation(block + [j], ops[j], writer);
        OpsStep(before, Format(), uses, old(order), block, ops, done, scope, j);
        GrownTwice(old(Format()), before, Format());
        if !ok {
          return false;
        }
        ghost var head := WriteOp(Format(), uses, scope, block + [j], ops[j]).value;
        Assoc(written, done, head);
        done := done + head;
        DefinedSeen(Format(), scope, block, j, ops[j]);
      }
      assert ops[|ops|..] == [];
      OpsEnd(Format(), uses, old(order), block, ops, done, order);
      RecordNothing(debuginfo.recorded, functionLocIndex);
      return true;
    }

    /**
      Clears the numbering, numbers the arguments, and writes the operations one by one. The
      function's own location was recorded when the functions were collected.
      */
    method WriteFunctionBody(functionLocIndex: nat, args: nat, ops: seq<Op>, writer: EncodingWriter) returns (ok: bool)
      requires managers.Valid() && debuginfo.Valid()
      modifies this, writer, debuginfo, managers.Repr()
      ensures Valid() && managers.Valid() && debuginfo.Valid() && Grown(old(Format()), Format())
      ensures ok <==> WriteFunction(Format(), uses, args, ops).Some?
      ensures ok ==> writer.stream == old(writer.stream) + WriteFunction(Format(), uses, args, ops).value
      ensures ok ==> debuginfo.recorded == RecordAll(old(debuginfo.recorded), functionLocIndex, LocsOfOps(ops))
      ensures !ok ==> forall later :: Grown(Format(), later) ==> WriteFunction(later, uses, args, ops).None?
    {
      hide WriteOps, RecordAll, LocsOfOps, DebugInfoWriter.Valid, Managers.Valid, Format, Grown;
      this.functionLocIndex := functionLocIndex;
      order, valueIndexMap, nextValueIndex := [], map[], 0;
      Number(ArgumentsOf([], args));
      FunctionScope(args);
      assert [] + ArgumentsOf([], args) == ArgumentsOf([], args);
      ok := WriteOperations([], ops, writer);
    }
  }

  lemma {:induction false} RecordNothing(recorded: seq<seq<Debug>>, opIndex: nat)
    ensures RecordAll(recorded, opIndex, []) == recorded
  {
  }

  lemma {:induction false} RecordSingle(recorded: seq<seq<Debug>>, opIndex: nat, d: Debug)
    ensures RecordAll(recorded, opIndex, [d]) == RecordOne(recorded, opIndex, d)
  {
    assert [d][1..] == [];
    assert RecordAll(RecordOne(recorded, opIndex, d), opIndex, []) == RecordOne(recorded, opIndex, d);
  }

  lemma {:induction false} DefinedSeen(b: BodyEnv, scope: seq<Value>, block: Path, j: nat, op: Op)
    requires Visible(scope, block + [j])
    ensures Visible(scope + Defined(b, block + [j], op), block + [j + 1])
  {
    hide Visible;
    ScopeNext(scope, block, j, |Defined(b, block + [j], op)|);
    assert Defined(b, block + [j], op) == ResultsOf(block + [j], |Defined(b, block + [j], op)|);
  }

  lemma {:induction false} DefinedUnseen(b: BodyEnv, scope: seq<Value>, path: Path, op: Op)
    requires Visible(scope, path)
    ensures Distinct(Defined(b, path, op)) && forall k :: 0 <= k < |Defined(b, path, op)| ==> Defined(b, path, op)[k] !in scope
  {
    ResultsUnseen(scope, path, |Defined(b, path, op)|);
    assert Defined(b, path, op) == ResultsOf(path, |Defined(b, path, op)|);
  }

  /** The bytes of an operation before its regions. */
  function OpHeader(b: BodyEnv, uses: set<Value>, scope: seq<Value>, path: Path, op: Op): Option<bytes> {
    if op.opcode !in b.schemas || !b.Available(op.opcode) || !Supported(op.loc) then None else
    var s := b.schemas[op.opcode];
    var head := HeadOf(scope, op);
    if !Shaped(s, head) || |op.regions| != s.regions then None else
    var opcode :- Count(op.opcode);
    var fields :- WriteHead(b.env, s, head, UsedResults(uses, path, |op.results|));
    var count :- if s.regions > 0 then Count(|op.regions|) else Some([]);
    Some(opcode + fields + count)
  }

  lemma {:induction false} OpIsHeaderThenRegions(b: BodyEnv, uses: set<Value>, scope: seq<Value>, path: Path, op: Op)
    ensures WriteOp(b, uses, scope, path, op) ==
            if OpHeader(b, uses, scope, path, op).None? then None
            else After(OpHeader(b, uses, scope, path, op).value, WriteRegions(b, uses, scope, path, 0, op.regions))
  {
    hide Shaped, WriteHead, WriteRegions;
    if WriteOp(b, uses, scope, path, op).Some? {
      var s, head := b.schemas[op.opcode], HeadOf(scope, op);
      Regroup(VarInt(op.opcode), WriteHead(b.env, s, head, UsedResults(uses, path, |op.results|)).value,
              if s.regions > 0 then VarInt(|op.regions|) else [], WriteRegions(b, uses, scope, path, 0, op.regions).value);
    }
  }

  lemma {:induction false} Regroup(a: bytes, b: bytes, c: bytes, d: bytes)
    ensures a + (b + (c + d)) == a + b + c + d
  {
  }

  lemma {:induction false} BlockAssembled(s: bytes, a: bytes, b: bytes, c: bytes, d: bytes)
    ensures s + (a + b) + c + d == s + (a + (b + (c + d)))
  {
    Assoc(s, a + b, c + d);
    Assoc(s + (a + b), c, d);
    Assoc(a, b, c + d);
  }

  lemma {:induction false} AfterNothing(rest: Option<bytes>)
    ensures After([], rest) == rest
  {
    if rest.Some? {
      assert [] + rest.value == rest.value;
    }
  }

  lemma {:induction false} AfterMore(done: bytes, head: bytes, rest: Option<bytes>)
    ensures After(done + head, rest) == After(done, After(head, rest))
  {
    if rest.Some? {
      Assoc(done, head, rest.value);
    }
  }

  // ---------------------------------------------------------------- what is left to write

  lemma {:induction false} GrownItself(b: BodyEnv)
    ensures Grown(b, b)
  {
  }

  lemma {:induction false} OpRefused(b: BodyEnv, uses: set<Value>, scope: seq<Value>, path: Path, op: Op)
    requires (forall later :: Grown(b, later) ==> OpHeader(later, uses, scope, path, op).None?) ||
             (forall later :: Grown(b, later) ==> WriteRegions(later, uses, scope, path, 0, op.regions).None?)
    ensures forall later :: Grown(b, later) ==> WriteOp(later, uses, scope, path, op).None?
  {
    hide Grown, OpHeader, WriteOp, WriteRegions;
    forall later | Grown(b, later) ensures WriteOp(later, uses, scope, path, op).None? {
      OpIsHeaderThenRegions(later, uses, scope, path, op);
    }
  }

  lemma {:induction false} HeaderStable(b1: BodyEnv, b2: BodyEnv, uses: set<Value>, scope: seq<Value>, path: Path, op: Op)
    requires Grown(b1, b2) && OpHeader(b1, uses, scope, path, op).Some?
    ensures OpHeader(b2, uses, scope, path, op) == OpHeader(b1, uses, scope, path, op)
  {
    hide WriteHead, Shaped, Continues, Supported, Count;
    HeadStable(b1.env, b2.env, b1.schemas[op.opcode], HeadOf(scope, op), UsedResults(uses, path, |op.results|));
  }

  /** Under all later tables, `done` and the regions from `r` on are what the regions are. */
  ghost predicate RegionsLeft(b: BodyEnv, uses: set<Value>, scope: seq<Value>, path: Path, regions: seq<Region>,
                              done: bytes, r: nat)
    requires r <= |regions|
  {
    forall later :: Grown(b, later) ==> WriteRegions(later, uses, scope, path, 0, regions) ==
                                        After(done, WriteRegions(later, uses, scope, path, r, regions[r..]))
  }

  lemma {:induction false} RegionsStart(b: BodyEnv, uses: set<Value>, scope: seq<Value>, path: Path, regions: seq<Region>)
    ensures RegionsLeft(b, uses, scope, path, regions, [], 0) && Grown(b, b)
  {
    hide Grown, WriteRegions;
    GrownItself(b);
    assert regions[0..] == regions;
    forall later | Grown(b, later)
      ensures WriteRegions(later, uses, scope, path, 0, regions) ==
              After([], WriteRegions(later, uses, scope, path, 0, regions[0..]))
    {
      AfterNothing(WriteRegions(later, uses, scope, path, 0, regions));
    }
  }

  lemma {:induction false} RegionsStep(b1: BodyEnv, b2: BodyEnv, uses: set<Value>, scope: seq<Value>, path: Path,
                                       regions: seq<Region>, done: bytes, r: nat)
    requires r < |regions| && Grown(b1, b2) && RegionsLeft(b1, uses, scope, path, regions, done, r)
    ensures var head := WriteRegion(b2, uses, scope, path + [r], regions[r]);
            if head.Some? then RegionsLeft(b2, uses, scope, path, regions, done + head.value, r + 1)
            else WriteRegions(b2, uses, scope, path, 0, regions).None?
    ensures (forall later :: Grown(b2, later) ==> WriteRegion(later, uses, scope, path + [r], regions[r]).None?) ==>
              forall later :: Grown(b2, later) ==> WriteRegions(later, uses, scope, path, 0, regions).None?
  {
    hide Grown, WriteRegion;
    assert regions[r..][1..] == regions[r + 1..];
    GrownItself(b2);
    var head := WriteRegion(b2, uses, scope, path + [r], regions[r]);
    forall later | Grown(b2, later) && WriteRegion(later, uses, scope, path + [r], regions[r]).None?
      ensures WriteRegions(later, uses, scope, path, 0, regions).None?
    {
      GrownTwice(b1, b2, later);
    }
    if head.Some? {
      forall later | Grown(b2, later)
        ensures WriteRegions(later, uses, scope, path, 0, regions) ==
                After(done + head.value, WriteRegions(later, uses, scope, path, r + 1, regions[r + 1..]))
      {
        GrownTwice(b1, b2, later);
        RegionStable(b2, later, uses, scope, path + [r], regions[r]);
        AfterMore(done, head.value, WriteRegions(later, uses, scope, path, r + 1, regions[r + 1..]));
      }
    }
  }

  lemma {:induction false} RegionsEnd(b: BodyEnv, uses: set<Value>, scope: seq<Value>, path: Path, regions: seq<Region>,
                                      done: bytes)
    requires RegionsLeft(b, uses, scope, path, regions, done, |regions|)
    ensures WriteRegions(b, uses, scope, path, 0, regions) == Some(done)
  {
    GrownItself(b);
    assert done + [] == done;
  }

  ghost predicate BlocksLeft(b: BodyEnv, uses: set<Value>, scope: seq<Value>, region: Path, blocks: seq<Block>,
                             done: bytes, i: nat)
    requires i <= |blocks|
  {
    forall later :: Grown(b, later) ==> WriteBlocks(later, uses, scope, region, 0, blocks) ==
                                        After(done, WriteBlocks(later, uses, scope, region, i, blocks[i..]))
  }

  lemma {:induction false} BlocksStart(b: BodyEnv, uses: set<Value>, scope: seq<Value>, region: Path, blocks: seq<Block>)
    ensures BlocksLeft(b, uses, scope, region, blocks, [], 0) && Grown(b, b)
  {
    hide Grown, WriteBlocks;
    GrownItself(b);
    assert blocks[0..] == blocks;
    forall later | Grown(b, later)
      ensures WriteBlocks(later, uses, scope, region, 0, blocks) ==
              After([], WriteBlocks(later, uses, scope, region, 0, blocks[0..]))
    {
      AfterNothing(WriteBlocks(later, uses, scope, region, 0, blocks));
    }
  }

  lemma {:induction false} BlocksStep(b1: BodyEnv, b2: BodyEnv, uses: set<Value>, scope: seq<Value>, region: Path,
                                      blocks: seq<Block>, done: bytes, i: nat)
    requires i < |blocks| && Grown(b1, b2) && BlocksLeft(b1, uses, scope, region, blocks, done, i)
    ensures var head := WriteBlock(b2, uses, scope, region + [i], blocks[i]);
            if head.Some? then BlocksLeft(b2, uses, scope, region, blocks, done + head.value, i + 1)
            else WriteBlocks(b2, uses, scope, region, 0, blocks).None?
    ensures (forall later :: Grown(b2, later) ==> WriteBlock(later, uses, scope, region + [i], blocks[i]).None?) ==>
              forall later :: Grown(b2, later) ==> WriteBlocks(later, uses, scope, region, 0, blocks).None?
  {
    hide Grown, WriteBlock;
    assert blocks[i..][1..] == blocks[i + 1..];
    GrownItself(b2);
    var head := WriteBlock(b2, uses, scope, region + [i], blocks[i]);
    forall later | Grown(b2, later) && WriteBlock(later, uses, scope, region + [i], blocks[i]).None?
      ensures WriteBlocks(later, uses, scope, region, 0, blocks).None?
    {
      GrownTwice(b1, b2, later);
    }
    if head.Some? {
      forall later | Grown(b2, later)
        ensures WriteBlocks(later, uses, scope, region, 0, blocks) ==
                After(done + head.value, WriteBlocks(later, uses, scope, region, i + 1, blocks[i + 1..]))
      {
        GrownTwice(b1, b2, later);
        BlockStable(b2, later, uses, scope, region + [i], blocks[i]);
        AfterMore(done, head.value, WriteBlocks(later, uses, scope, region, i + 1, blocks[i + 1..]));
      }
    }
  }

  lemma {:induction false} BlocksEnd(b: BodyEnv, uses: set<Value>, scope: seq<Value>, region: Path, blocks: seq<Block>,
                                     done: bytes)
    requires BlocksLeft(b, uses, scope, region, blocks, done, |blocks|)
    ensures WriteBlocks(b, uses, scope, region, 0, blocks) == Some(done)
  {
    GrownItself(b);
    assert done + [] == done;
  }

  ghost predicate OpsLeft(b: BodyEnv, uses: set<Value>, scope: seq<Value>, block: Path, ops: seq<Op>,
                          done: bytes, now: seq<Value>, j: nat)
    requires j <= |ops|
  {
    forall later :: Grown(b, later) ==> WriteOps(later, uses, scope, block, 0, ops) ==
                                        After(done, WriteOps(later, uses, now, block, j, ops[j..]))
  }

  lemma {:induction false} OpsStart(b: BodyEnv, uses: set<Value>, scope: seq<Value>, block: Path, ops: seq<Op>)
    ensures OpsLeft(b, uses, scope, block, ops, [], scope, 0) && Grown(b, b)
  {
    hide Grown, WriteOps;
    GrownItself(b);
    assert ops[0..] == ops;
    forall later | Grown(b, later)
      ensures WriteOps(later, uses, scope, block, 0, ops) == After([], WriteOps(later, uses, scope, block, 0, ops[0..]))
    {
      AfterNothing(WriteOps(later, uses, scope, block, 0, ops));
    }
  }

  lemma {:induction false} OpsStep(b1: BodyEnv, b2: BodyEnv, uses: set<Value>, scope: seq<Value>, block: Path,
                                   ops: seq<Op>, done: bytes, now: seq<Value>, j: nat)
    requires j < |ops| && Grown(b1, b2) && OpsLeft(b1, uses, scope, block, ops, done, now, j)
    ensures var head := WriteOp(b2, uses, now, block + [j], ops[j]);
            if head.Some? then
              OpsLeft(b2, uses, scope, block, ops, done + head.value, now + Defined(b2, block + [j], ops[j]), j + 1)
            else WriteOps(b2, uses, scope, block, 0, ops).None?
    ensures (forall later :: Grown(b2, later) ==> WriteOp(later, uses, now, block + [j], ops[j]).None?) ==>
              forall later :: Grown(b2, later) ==> WriteOps(later, uses, scope, block, 0, ops).None?
  {
    hide Grown, WriteOp, Defined;
    assert ops[j..][1..] == ops[j + 1..];
    GrownItself(b2);
    var head, next := WriteOp(b2, uses, now, block + [j], ops[j]), now + Defined(b2, block + [j], ops[j]);
    forall later | Grown(b2, later) && WriteOp(later, uses, now, block + [j], ops[j]).None?
      ensures WriteOps(later, uses, scope, block, 0, ops).None?
    {
      GrownTwice(b1, b2, later);
    }
    if head.Some? {
      forall later | Grown(b2, later)
        ensures WriteOps(later, uses, scope, block, 0, ops) ==
                After(done + head.value, WriteOps(later, uses, next, block, j + 1, ops[j + 1..]))
      {
        GrownTwice(b1, b2, later);
        OpStable(b2, later, uses, now, block + [j], ops[j]);
        SameNumbering(b2, later, block + [j], ops[j]);
        AfterMore(done, head.value, WriteOps(later, uses, next, block, j + 1, ops[j + 1..]));
      }
    }
  }

  lemma {:induction false} OpsEnd(b: BodyEnv, uses: set<Value>, scope: seq<Value>, block: Path, ops: seq<Op>,
                                  done: bytes, now: seq<Value>)
    requires OpsLeft(b, uses, scope, block, ops, done, now, |ops|)
    ensures WriteOps(b, uses, scope, block, 0, ops) == Some(done)
  {
    GrownItself(b);
    assert done + [] == done;
  }

  lemma {:induction false} FunctionScope(n: nat)
    ensures Visible(ArgumentsOf([], n), [] + [0])
  {
  }

  ghost function After(done: bytes, rest: Option<bytes>): Option<bytes> {
    if rest.None? then None else Some(done + rest.value)
  }
}
