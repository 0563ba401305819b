/**
  Function bodies: operations, blocks and regions, and the numbering of SSA values. A value
  is named by the place that defines it, so that a tree that was written and read back is
  compared with plain equality, operands included.
  */
module Bodies {
  import opened Base
  import opened VarInts
  import opened Ir
  import opened DebugIr
  import opened AttrCodec
  import opened OpCodec

  /**
    The way from the function down to an operation or block: operation `i` of block `b` is
    at b + [i], and block `i` of region `r` of operation `p` is at p + [r, i].
    */
  type Path = seq<nat>

  datatype Value = Result(op: Path, k: nat) | Argument(block: Path, k: nat)

  datatype Op = Op(opcode: nat, results: seq<Type>, attrs: seq<Option<Attr>>, operands: seq<seq<Value>>,
                   regions: seq<Region>, loc: Debug)

  datatype Region = Region(blocks: seq<Block>)

  datatype Block = Block(args: seq<Type>, ops: seq<Op>)

  /** The tables, the schema of every opcode, and the highest opcode of the version. */
  datatype BodyEnv = BodyEnv(env: Env, schemas: map<nat, OpSchema>, maxOpcode: Option<nat>) {
    predicate Available(opcode: nat) {
      maxOpcode.Some? && opcode <= maxOpcode.value
    }
  }

  // ---------------------------------------------------------------- numbering

  function ArgumentsOf(block: Path, n: nat): seq<Value> {
    seq(n, k requires 0 <= k < n => Argument(block, k))
  }

  function ResultsOf(op: Path, n: nat): seq<Value> {
    seq(n, k requires 0 <= k < n => Result(op, k))
  }

  /** The results of an operation that take part in the numbering. */
  function Defined(b: BodyEnv, path: Path, op: Op): seq<Value> {
    if op.opcode in b.schemas then
      ResultsOf(path, Numbered(b.schemas[op.opcode], b.env.version, |op.results|))
    else []
  }

  /** A value that has no index is looked up as 0. */
  function Lookup(scope: seq<Value>, v: Value): nat {
    var i := IndexOf(scope, v);
    if i.Some? then i.value else 0
  }

  function Lookups(scope: seq<Value>, group: seq<Value>): (r: seq<nat>)
    ensures |r| == |group|
  {
    seq(|group|, i requires 0 <= i < |group| => Lookup(scope, group[i]))
  }

  /** The value at an index; indices have been checked against the scope before. */
  function Bind(scope: seq<Value>, index: nat): Value {
    if index < |scope| then scope[index] else Argument([], 0)
  }

  function Binds(scope: seq<Value>, group: seq<nat>): (r: seq<Value>)
    ensures |r| == |group|
  {
    seq(|group|, i requires 0 <= i < |group| => Bind(scope, group[i]))
  }

  function HeadOf(scope: seq<Value>, op: Op): Head {
    Head(op.results, op.attrs,
         seq(|op.operands|, i requires 0 <= i < |op.operands| => Lookups(scope, op.operands[i])))
  }

  function BindAll(scope: seq<Value>, groups: seq<seq<nat>>): (r: seq<seq<Value>>)
    ensures |r| == |groups|
  {
    seq(|groups|, i requires 0 <= i < |groups| => Binds(scope, groups[i]))
  }

  function UsedResults(uses: set<Value>, path: Path, n: nat): (r: seq<bool>)
    ensures |r| == n
  {
    seq(n, k requires 0 <= k < n => Result(path, k) in uses)
  }

  // ---------------------------------------------------------------- writing

  /** `uses` holds every value used anywhere in the function. */
  function WriteOp(b: BodyEnv, uses: set<Value>, scope: seq<Value>, path: Path, op: Op): Option<bytes>
    decreases op, 0
  {
    if op.opcode !in b.schemas || !b.Available(op.opcode) || !Supported(op.loc) then None else
    var s := b.schemas[op.opcode];
    var head := HeadOf(scope, op);
    if !Shaped(s, head) || |op.regions| != s.regions then None else
    var opcode :- Count(op.opcode);
    var fields :- WriteHead(b.env, s, head, UsedResults(uses, path, |op.results|));
    var count :- if s.regions > 0 then Count(|op.regions|) else Some([]);
    var regions :- WriteRegions(b, uses, scope, path, 0, op.regions);
    Some(opcode + (fields + (count + regions)))
  }

  function WriteRegions(b: BodyEnv, uses: set<Value>, scope: seq<Value>, path: Path, r: nat, regions: seq<Region>):
    Option<bytes>
    decreases regions, 0
  {
    if regions == [] then Some([])
    else
      var head :- WriteRegion(b, uses, scope, path + [r], regions[0]);
      var tail :- WriteRegions(b, uses, scope, path, r + 1, regions[1..]);
      Some(head + tail)
  }

  function WriteRegion(b: BodyEnv, uses: set<Value>, scope: seq<Value>, path: Path, region: Region): Option<bytes>
    decreases region, 0
  {
    var count :- Count(|region.blocks|);
    var blocks :- WriteBlocks(b, uses, scope, path, 0, region.blocks);
    Some(count + blocks)
  }

  /** Every block starts from the scope of the operation it is nested in. */
  function WriteBlocks(b: BodyEnv, uses: set<Value>, scope: seq<Value>, region: Path, i: nat, blocks: seq<Block>):
    Option<bytes>
    decreases blocks, 0
  {
    if blocks == [] then Some([])
    else
      var head :- WriteBlock(b, uses, scope, region + [i], blocks[0]);
      var tail :- WriteBlocks(b, uses, scope, region, i + 1, blocks[1..]);
      Some(head + tail)
  }

  function WriteBlock(b: BodyEnv, uses: set<Value>, scope: seq<Value>, path: Path, block: Block): Option<bytes>
    decreases block, 0
  {
    var argCount :- Count(|block.args|);
    var args :- WriteTypes(b.env, block.args);
    var opCount :- Count(|block.ops|);
    var ops :- WriteOps(b, uses, scope + ArgumentsOf(path, |block.args|), path, 0, block.ops);
    Some(argCount + (args + (opCount + ops)))
  }

  function WriteOps(b: BodyEnv, uses: set<Value>, scope: seq<Value>, block: Path, i: nat, ops: seq<Op>): Option<bytes>
    decreases ops, 0
  {
    if ops == [] then Some([])
    else
      var head :- WriteOp(b, uses, scope, block + [i], ops[0]);
      var tail :- WriteOps(b, uses, scope + Defined(b, block + [i], ops[0]), block, i + 1, ops[1..]);
      Some(head + tail)
  }

  /** The body of a function: its arguments come first in the numbering. */
  function WriteFunction(b: BodyEnv, uses: set<Value>, args: nat, ops: seq<Op>): Option<bytes> {
    WriteOps(b, uses, ArgumentsOf([], args), [], 0, ops)
  }

  /** The locations recorded for an operation and all it contains, in the order of the walk. */
  function LocsOfOp(op: Op): seq<Debug>
    decreases op, 0
  {
    [op.loc] + LocsOfRegions(op.regions)
  }

  function LocsOfRegions(regions: seq<Region>): seq<Debug>
    decreases regions, 0
  {
    if regions == [] then [] else LocsOfBlocks(regions[0].blocks) + LocsOfRegions(regions[1..])
  }

  function LocsOfBlocks(blocks: seq<Block>): seq<Debug>
    decreases blocks, 0
  {
    if blocks == [] then [] else LocsOfOps(blocks[0].ops) + LocsOfBlocks(blocks[1..])
  }

  function LocsOfOps(ops: seq<Op>): seq<Debug>
    decreases ops, 0
  {
    if ops == [] then [] else LocsOfOp(ops[0]) + LocsOfOps(ops[1..])
  }

  // ---------------------------------------------------------------- reading

  function ReadOp(b: BodyEnv, scope: seq<Value>, path: Path, stream: LocStream, bs: bytes): (r: Parsed<(Op, LocStream)>)
    ensures r.Got? ==> |r.rest| < |bs|
    decreases |bs|, 0, 0
  {
    var (raw, rest) :- ReadVarInt(bs);
    var opcode := raw % TWO_TO_THE_32;
    if !b.Available(opcode) || Next(stream).None? || opcode !in b.schemas then Fail else
    var s := b.schemas[opcode];
    var (loc, stream') := Next(stream).value;
    var (head, rest') :- ReadHead(b.env, s, |scope|, rest);
    var (count, rest'') :- if s.regions > 0 then ReadCount(rest') else Got(0, rest');
    if count != s.regions then Fail else
    var (nested, rest''') :- ReadRegions(b, scope, path, 0, count, stream', rest'');
    Got((Op(opcode, head.results, head.attrs, BindAll(scope, head.operands), nested.0, loc), nested.1), rest''')
  }

  function ReadRegions(b: BodyEnv, scope: seq<Value>, path: Path, r: nat, count: nat, stream: LocStream, bs: bytes):
    (res: Parsed<(seq<Region>, LocStream)>)
    ensures res.Got? ==> |res.rest| <= |bs|
    decreases |bs|, 1, count
  {
    if count == 0 then Got(([], stream), bs)
    else
      var (head, rest) :- ReadRegion(b, scope, path + [r], stream, bs);
      var (tail, rest') :- ReadRegions(b, scope, path, r + 1, count - 1, head.1, rest);
      Got(([head.0] + tail.0, tail.1), rest')
  }

  function ReadRegion(b: BodyEnv, scope: seq<Value>, path: Path, stream: LocStream, bs: bytes):
    (r: Parsed<(Region, LocStream)>)
    ensures r.Got? ==> |r.rest| < |bs|
    decreases |bs|, 0, 0
  {
    var (count, rest) :- ReadVarInt(bs);
    var (blocks, rest') :- ReadBlocks(b, scope, path, 0, count, stream, rest);
    Got((Region(blocks.0), blocks.1), rest')
  }

  function ReadBlocks(b: BodyEnv, scope: seq<Value>, region: Path, i: nat, count: nat, stream: LocStream, bs: bytes):
    (r: Parsed<(seq<Block>, LocStream)>)
    ensures r.Got? ==> |r.rest| <= |bs|
    decreases |bs|, 1, count
  {
    if count == 0 then Got(([], stream), bs)
    else
      var (head, rest) :- ReadBlock(b, scope, region + [i], stream, bs);
      var (tail, rest') :- ReadBlocks(b, scope, region, i + 1, count - 1, head.1, rest);
      Got(([head.0] + tail.0, tail.1), rest')
  }

  predicate EndsInTerminator(b: BodyEnv, ops: seq<Op>) {
    ops != [] && ops[|ops| - 1].opcode in b.schemas && b.schemas[ops[|ops| - 1].opcode].terminator
  }

  function ReadBlock(b: BodyEnv, scope: seq<Value>, path: Path, stream: LocStream, bs: bytes): (r: Parsed<(Block,
                     LocStream)>)
    ensures r.Got? ==> |r.rest| < |bs|
    decreases |bs|, 0, 0
  {
    var (argCount, rest) :- ReadVarInt(bs);
    var (args, rest') :- ReadTypes(b.env, argCount, rest);
    var (opCount, rest'') :- ReadVarInt(rest');
    var (ops, rest''') :- ReadOps(b, scope + ArgumentsOf(path, argCount), path, 0, opCount, stream, rest'');
    if EndsInTerminator(b, ops.0) then Got((Block(args, ops.0), ops.1), rest''') else Fail
  }

  function ReadOps(b: BodyEnv, scope: seq<Value>, block: Path, i: nat, count: nat, stream: LocStream, bs: bytes):
    (r: Parsed<(seq<Op>, LocStream)>)
    ensures r.Got? ==> |r.rest| <= |bs|
    decreases |bs|, 1, count
  {
    if count == 0 then Got(([], stream), bs)
    else
      var (head, rest) :- ReadOp(b, scope, block + [i], stream, bs);
      var (tail, rest') :-
        ReadOps(b, scope + Defined(b, block + [i], head.0), block, i + 1, count - 1, head.1, rest);
      Got(([head.0] + tail.0, tail.1), rest')
  }

  /** The operations of a function body fill its bytes; they are not counted. */
  function ReadAll(b: BodyEnv, scope: seq<Value>, i: nat, stream: LocStream, bs: bytes): Option<(seq<Op>, LocStream)>
    decreases |bs|
  {
    if bs == [] then Some(([], stream))
    else
      var head := ReadOp(b, scope, [i], stream, bs);
      if !head.Got? then None else
      var tail :- ReadAll(b, scope + Defined(b, [i], head.value.0), i + 1, head.value.1, head.rest);
      Some(([head.value.0] + tail.0, tail.1))
  }

  function ReadFunction(b: BodyEnv, args: nat, stream: LocStream, bs: bytes): Option<(seq<Op>, LocStream)> {
    ReadAll(b, ArgumentsOf([], args), 0, stream, bs)
  }
}
