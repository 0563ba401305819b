/**
  The reader of function bodies as the object it is: `valueIndexList` grows with every value
  defined and is cut back at the end of a block, while the cursor and the iterator over
  locations move forward. Each method is proved against the pure reader of module Bodies.
  */
module InstructionParsers {
  import opened Base
  import opened VarInts
  import opened Ir
  import opened DebugIr
  import opened AttrCodec
  import opened OpCodec
  import opened Bodies

  class InstructionParser {
    const b: BodyEnv
    var remaining: bytes
    var locations: LocStream
    var valueIndexList: seq<Value>

    /** `remaining` is what the cursor has not passed yet. */
    constructor (b: BodyEnv, body: bytes, locations: LocStream)
      ensures this.b == b && remaining == body && this.locations == locations && valueIndexList == []
    {
      this.b, remaining, this.locations, valueIndexList := b, body, locations, [];
    }

    method ParseVarInt() returns (r: Option<nat>)
      modifies this`remaining
      ensures r.Some? ==> ReadVarInt(old(remaining)) == Got(r.value, remaining)
      ensures r.None? ==> ReadVarInt(old(remaining)).IsFailure()
    {
      var read := ReadVarInt(remaining);
      if !read.Got? {
        return None;
      }
      remaining := read.rest;
      return Some(read.value);
    }

    method ParseOperation(path: Path) returns (r: Option<Op>)
      modifies this
      ensures r.Some? ==> |remaining| < |old(remaining)|
      ensures r.Some? ==> ReadOp(b, old(valueIndexList), path, old(locations), old(remaining)) ==
                          Got((r.value, locations), remaining)
      ensures r.Some? ==> valueIndexList == old(valueIndexList) + Defined(b, path, r.value)
      ensures r.None? ==> ReadOp(b, old(valueIndexList), path, old(locations), old(remaining)).IsFailure()
      decreases |remaining|, 0
    {
      hide ReadHead, ReadRegions;
      var raw := ParseVarInt();
      if raw.None? {
        return None;
      }
      var opcode := raw.value % TWO_TO_THE_32;
      var next := Next(locations);
      if !b.Available(opcode) || next.None? || opcode !in b.schemas {
        return None;
      }
      locations := next.value.1;
      var s := b.schemas[opcode];
      var head := ReadHead(b.env, s, |valueIndexList|, remaining);
      if !head.Got? {
        return None;
      }
      remaining := head.rest;
      var count := if s.regions > 0 then ReadCount(remaining) else Got(0, remaining);
      if !count.Got? || count.value != s.regions {
        return None;
      }
      remaining := count.rest;
      ghost var scope := valueIndexList;
      var regions := ParseRegions(path, count.value);
      if regions.None? {
        return None;
      }
      var op := Op(opcode, head.value.results, head.value.attrs, BindAll(valueIndexList, head.value.operands),
                   regions.value, next.value.0);
      valueIndexList := valueIndexList + Defined(b, path, op);
      return Some(op);
    }

    method ParseRegions(path: Path, count: nat) returns (r: Option<seq<Region>>)
      modifies this
      ensures r.Some? ==> |remaining| <= |old(remaining)| && valueIndexList == old(valueIndexList)
      ensures r.Some? ==> ReadRegions(b, old(valueIndexList), path, 0, count, old(locations), old(remaining)) ==
                          Got((r.value, locations), remaining)
      ensures r.None? ==> ReadRegions(b, old(valueIndexList), path, 0, count, old(locations), old(remaining)).IsFailure()
      decreases |remaining|, 1
    {
      hide ReadRegion;
      var regions: seq<Region> := [];
      ghost var scope := valueIndexList;
      PrependNothing(ReadRegions(b, scope, path, 0, count, locations, remaining));
      for i := 0 to count
        invariant |remaining| <= |old(remaining)| && valueIndexList == scope
        invariant ReadRegions(b, scope, path, 0, count, old(locations), old(remaining)) ==
                  Prepend(regions, ReadRegions(b, scope, path, i, count - i, locations, remaining))
      {
        ghost var tail := ReadRegions(b, scope, path, i, count - i, locations, remaining);
        var region := ParseRegion(path + [i]);
        if region.None? {
          return None;
        }
        PrependMore(regions, region.value, ReadRegions(b, scope, path, i + 1, count - i - 1, locations, remaining));
        assert tail == Prepend([region.value], ReadRegions(b, scope, path, i + 1, count - i - 1, locations, remaining));
        regions := regions + [region.value];
      }
      PrependToNothing(regions, locations, remaining);
      return Some(regions);
    }

    method ParseRegion(path: Path) returns (r: Option<Region>)
      modifies this
      ensures r.Some? ==> |remaining| < |old(remaining)| && valueIndexList == old(valueIndexList)
      ensures r.Some? ==> ReadRegion(b, old(valueIndexList), path, old(locations), old(remaining)) ==
                          Got((r.value, locations), remaining)
      ensures r.None? ==> ReadRegion(b, old(valueIndexList), path, old(locations), old(remaining)).IsFailure()
      decreases |remaining|, 0
    {
      hide ReadBlock;
      var count := ParseVarInt();
      if count.None? {
        return None;
      }
      var blocks: seq<Block> := [];
      ghost var scope, start := valueIndexList, remaining;
      PrependNothing(ReadBlocks(b, scope, path, 0, count.value, locations, remaining));
      for i := 0 to count.value
        invariant |remaining| <= |start| && valueIndexList == scope
        invariant ReadBlocks(b, scope, path, 0, count.value, old(locations), start) ==
                  Prepend(blocks, ReadBlocks(b, scope, path, i, count.value - i, locations, remaining))
      {
        ghost var tail := ReadBlocks(b, scope, path, i, count.value - i, locations, remaining);
        var block := ParseBlock(path + [i]);
        if block.None? {
          return None;
        }
        PrependMore(blocks, block.value, ReadBlocks(b, scope, path, i + 1, count.value - i - 1, locations, remaining));
        assert tail == Prepend([block.value], ReadBlocks(b, scope, path, i + 1, count.value - i - 1, locations, remaining));
        blocks := blocks + [block.value];
      }
      PrependToNothing(blocks, locations, remaining);
      return Some(Region(blocks));
    }

    /** The list is as long after a block as before it. */
    method ParseBlock(path: Path) returns (r: Option<Block>)
      modifies this
      ensures r.Some? ==> |remaining| < |old(remaining)| && valueIndexList == old(valueIndexList)
      ensures r.Some? ==> Bodies.ReadBlock(b, old(valueIndexList), path, old(locations), old(remaining)) ==
                          Got((r.value, locations), remaining)
      ensures r.None? ==> Bodies.ReadBlock(b, old(valueIndexList), path, old(locations), old(remaining)).IsFailure()
      decreases |remaining|, 0
    {
      hide ReadTypes, ReadOps;
      var argCount := ParseVarInt();
      if argCount.None? {
        return None;
      }
      var originalSize := |valueIndexList|;
      var args := ReadTypes(b.env, argCount.value, remaining);
      if !args.Got? {
        return None;
      }
      remaining := args.rest;
      valueIndexList := valueIndexList + ArgumentsOf(path, argCount.value);
      var opCount := ParseVarInt();
      if opCount.None? {
        return None;
      }
      var ops := ParseOperations(path, opCount.value);
      if ops.None? || !EndsInTerminator(b, ops.value) {
        return None;
      }
      valueIndexList := valueIndexList[..originalSize];
      return Some(Block(args.value, ops.value));
    }

    method ParseOperations(block: Path, count: nat) returns (r: Option<seq<Op>>)
      modifies this
      ensures r.Some? ==> |remaining| <= |old(remaining)|
      ensures r.Some? ==> old(valueIndexList) <= valueIndexList
      ensures r.Some? ==> ReadOps(b, old(valueIndexList), block, 0, count, old(locations), old(remaining)) ==
                          Got((r.value, locations), remaining)
      ensures r.None? ==> ReadOps(b, old(valueIndexList), block, 0, count, old(locations), old(remaining)).IsFailure()
      decreases |remaining|, 1
    {
      hide ReadOp, Defined;
      var ops: seq<Op> := [];
      PrependNothing(ReadOps(b, valueIndexList, block, 0, count, locations, remaining));
      for j := 0 to count
        invariant |remaining| <= |old(remaining)| && old(valueIndexList) <= valueIndexList
        invariant ReadOps(b, old(valueIndexList), block, 0, count, old(locations), old(remaining)) ==
                  Prepend(ops, ReadOps(b, valueIndexList, block, j, count - j, locations, remaining))
      {
        ghost var tail := ReadOps(b, valueIndexList, block, j, count - j, locations, remaining);
        var op := ParseOperation(block + [j]);
        if op.None? {
          return None;
        }
        PrependMore(ops, op.value, ReadOps(b, valueIndexList, block, j + 1, count - j - 1, locations, remaining));
        assert tail == Prepend([op.value], ReadOps(b, valueIndexList, block, j + 1, count - j - 1, locations, remaining));
        ops := ops + [op.value];
      }
      PrependToNothing(ops, locations, remaining);
      return Some(ops);
    }

    /** Operations are read until the body is used up. */
    method ParseFunctionBody(args: nat) returns (r: Option<seq<Op>>)
      modifies this
      ensures r.Some? ==> ReadFunction(b, args, old(locations), old(remaining)) == Some((r.value, locations))
      ensures r.None? ==> ReadFunction(b, args, old(locations), old(remaining)) == None
    {
      hide ReadOp, Defined;
      valueIndexList := ArgumentsOf([], args);
      var ops: seq<Op> := [];
      var i: nat := 0;
      PrependNothing(Parse(ReadAll(b, valueIndexList, i, locations, remaining)));
      while remaining != []
        invariant Parse(ReadFunction(b, args, old(locations), old(remaining))) ==
                  Prepend(ops, Parse(ReadAll(b, valueIndexList, i, locations, remaining)))
        decreases |remaining|
      {
        ghost var tail := ReadAll(b, valueIndexList, i, locations, remaining);
        var op := ParseOperation([i]);
        if op.None? {
          return None;
        }
        PrependMore(ops, op.value, Parse(ReadAll(b, valueIndexList, i + 1, locations, remaining)));
        assert Parse(tail) == Prepend([op.value], Parse(ReadAll(b, valueIndexList, i + 1, locations, remaining)));
        ops := ops + [op.value];
        i := i + 1;
      }
      PrependToNothing(ops, locations, []);
      return Some(ops);
    }
  }

  // ---------------------------------------------------------------- lists read so far

  ghost function Prepend<T>(done: seq<T>, tail: Parsed<(seq<T>, LocStream)>): Parsed<(seq<T>, LocStream)> {
    match tail
    case Fail => Fail
    case Missing(index) => Missing(index)
    case Got(r, rest) => Got((done + r.0, r.1), rest)
  }

  ghost function Parse<T>(r: Option<T>): Parsed<T> {
    match r
    case None => Fail
    case Some(x) => Got(x, [])
  }

  lemma {:induction false} PrependNothing<T>(tail: Parsed<(seq<T>, LocStream)>)
    ensures Prepend([], tail) == tail
  {
    if tail.Got? {
      assert [] + tail.value.0 == tail.value.0;
    }
  }

  lemma {:induction false} PrependMore<T>(done: seq<T>, head: T, tail: Parsed<(seq<T>, LocStream)>)
    ensures Prepend(done + [head], tail) == Prepend(done, Prepend([head], tail))
  {
    if tail.Got? {
      assert done + [head] + tail.value.0 == done + ([head] + tail.value.0);
    }
  }

  lemma {:induction false} PrependToNothing<T>(done: seq<T>, stream: LocStream, rest: bytes)
    ensures Prepend(done, Got(([], stream), rest)) == Got((done, stream), rest)
  {
    assert done + [] == done;
  }
}
