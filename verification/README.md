# Verified model of the CUDA Tile bytecode codec

This project models the versioned bytecode of CUDA Tile IR: the writer, the reader, the wire
formats that TableGen derives from the operation, type and attribute definitions, and the
textual form and the verifier of the view types. It proves that the two sides fit together.

The main results:

- **Whole files.** For every module the writer accepts whose types survive the version
  (`ModuleFiles.TypesSurvive`), the reader gives back the same module *if and only if* every
  function is a named kernel with readable hints and a faithful body and every global has a name
  (`ModuleFiles.ModuleRoundTrip`), and the size of the file is found whatever bytes follow it.
  The writer starts from empty tables and interns while it writes; its file is the encoding under
  the tables it ends with, and where it refuses no further table entries would help
  (`ModuleWriters.WriteBytecode`).
- **Function bodies.** The writer's rolled-back numbering of SSA values and the reader's value
  list stay in step over arbitrary trees of operations, regions and blocks; operands come back
  bound to the same values exactly when they are in scope (`BodyRoundTrip.FunctionRoundTrip`).
- **Operations.** For every schema and version, the writer refuses or the reader restores the
  operation; when the restored operation differs from the original is characterised exactly
  (`OpRoundTrip.HeadRoundTrip`, `OpRoundTrip.RestoredUnchanged`).
- **Evolution.** Flag bits do not move when later fields are added. A newer writer writes what
  the older one would have written *if and only if* both count results and operands alike and no
  later operand without a flag has a value (`Evolution.SameBytes`), which with operand segments
  is always the case (`Evolution.SegmentsMoveNothing`); then the two versions understand each
  other (`Evolution.VersionsUnderstandEachOther`). What the older reader makes of the other files
  is said for every way in which they differ: `Evolution.CountMovesEverything` where results are
  counted differently, `Evolution.OperandsMove` where they are counted alike.
- **Lazy tables.** The reader's memo tables for types and debug attributes terminate on every
  table, cyclic ones included, and always answer what decoding from scratch answers
  (`LazyTables.LazyTable.Lookup`).
- **Versions.** Attributes have an exact version threshold (`MinVersion.AttrThreshold`,
  `MinVersion.NeedsIsLowest`). An operation that one of the versions that have it accepts is
  accepted by every later one exactly if each field that came after the operation, with a
  fallback newer than itself, comes too late to be left out (`MinVersion.OpUpwardClosed`). What the writer can write
  at all it writes from the version on that the analyzer returns, for attributes and types whose
  score covers them, which is characterised exactly (`Analyzer.MinVersionOf`,
  `Analyzer.AttrScoreCovers`, `Analyzer.TypeScoreCovers`).
- **Views and text.** The verifier's loops decide permutation, power of two and parity, and
  printed types are parsed back (`Views.*`, `TypeText.TextRoundTrip`).

## How the model is built

Bytes are `seq<byte>`; an encoder returns `Option<bytes>` (`None`: the writer refuses), a decoder
returns the value and the bytes it left unread. The central statement about a pair is always
that decoding the encoding followed by *any* bytes gives the value and exactly those bytes.
Where the source mutates state there is a class or a method with a loop, proved against the
pure encoding: `Streams` (byte streams), `Interning` and the modules named `...Writers` (the
writer, which interns strings, types and constants as it goes), `InstructionParsers` (reader of
bodies), `TypeManagers`, `DebugInfoWriter`, `MapVector` (interning), `LazyTable`, `Iterator`
(location streams). A writing method says three things: what stands on the stream is the encoding
under the tables as they are afterwards; those continue the tables before; and if it fails, no
tables that continue them give an encoding.

SSA values are named by the place that defines them (`Value = Result(path, k) | Argument(path, k)`),
so that "every operand is bound to the same value" is plain equality of trees. The text that the
TableGen backends print is not modelled: `OpSchema`, `TypeSchema` and `AttrSchema` hold what the
definitions say, and `OpCodec`, `TypeCodec` and `AttrCodec` interpret them as the generated code
does. A `None` in an encoder can also stand for a value that cannot exist in the source's
integer widths.

| file | content |
|---|---|
| `Base`, `Ir`, `DebugIr` | versions, options, types, attributes, schemas, locations |
| `VarInt`, `Encoding`, `Streams`, `DenseI1` | integers, words, alignment, one-bit elements |
| `BitFields` | flag words of optional fields |
| `AttrCodec`, `AttrTables`, `AttrRoundTrip` | attributes, stability under growing tables |
| `OpCodec`, `OpRoundTrip`, `Evolution` | operations and their schema evolution |
| `Bodies`, `BodyRoundTrip`, `FunctionTableWriter`, `InstructionParser`, `Relocation` | function bodies |
| `TypeCodec`, `TypeRoundTrip`, `TypeManager`, `TypeTable`, `LazyTable` | types and the type table |
| `DebugInfo`, `DebugSection` | debug table, location streams |
| `Tables`, `Sections`, `Globals`, `FunctionTable`, `ModuleFile`, `ModuleWriter` | tables, framing, whole files |
| `TableGrowth`, `Interning`, `AttrWriter`, `OpWriter`, `TypeWriter`, `SectionWriter` | the writer at work, while the tables grow |
| `Opcodes`, `MinVersion`, `Analyzer` | version reasoning |
| `Views`, `TypeText` | view verifier, type text |

## Properties that hold under a condition only

Each of these was expected to hold without the condition; the project proves when it holds.

- *Dropped results.* Both sides number the first results, as many as the version has; those are
  the ones it has exactly when dropped results are declared last (`OpRoundTrip.NumberedAreKept`).
- *Restored fields.* An optional attribute with a default comes back as the default in versions
  without it, and an all-false vector is restored with the length of its operand group
  (`OpRoundTrip.RestoredUnchanged`, `OpRoundTrip.DefaultAppears`, `OpRoundTrip.LengthChanges`).
- *Result counts.* Without operand segments, adding the first variadic operand of an operation
  later puts a result count in front in files of older versions too, which the older reader takes
  for a type (`Evolution.CountMovesEverything`, `Evolution.CountReadAsType`). An optional operand
  has no such effect, nor has any operand with segments (`Evolution.SegmentsMoveNothing`).
- *Operand counts.* Without operand segments an optional operand has no flag and no version test:
  adding the first one later puts an operand count into files of older versions, and a value of
  it is written there as well (`Evolution.SameBytes`, `Evolution.OperandsMove`,
  `Evolution.LoneOptionalOperand`).
- *Unknown operands.* A value without an index is written as index 0, silently; hence the "in
  scope" part of faithfulness (`BodyRoundTrip.OperandsBoundBack`, `BodyRoundTrip.UnknownBecomesFirst`).
- *Registration.* The types of integers and floats inside a type's attributes are not registered
  although their index is written (`TypeTables.RegisteredCovers`, `TypeTables.ScalarIsNotRegistered`).
- *Legacy optional parameters.* Before 13.3 only some optional type parameters survive
  (`TypeRoundTrip.ArgRoundTrip`, `TypeRoundTrip.LegacyParamIsLost`); whole files are read back
  when all their types do.
- *Attributes.* Arrays holding the extreme values of their width and empty symbol names are
  written but not read (`AttrRoundTrip.RoundTrip`, `AttrRoundTrip.ExtremeIsNotRead`,
  `AttrRoundTrip.EmptySymbolIsNotRead`).
- *Globals.* A global without a name is written but not read (`Globals.GlobalsRoundTrip`).
- *Upward closure.* For a field that came after its operation, a default that is newer than the
  field breaks it; for the operation it breaks if some version that has the operation leaves the
  field out (`MinVersion.FieldUpwardClosed`, `MinVersion.OpUpwardClosed`,
  `MinVersion.NewDefaultIsNotUpwardClosed`). A field as old as its operation is never left out,
  so that a newer enum case in it does no harm (`MinVersion.NewerCaseIsUpwardClosed`).
- *Analyzer, attributes.* Only the first newer parameter of an attribute is scored, and nothing
  inside it; the score is enough exactly if no other parameter is newer than the first and nothing
  inside is newer than the score (`Analyzer.AttrScoreCovers`, `Analyzer.TwoEvolvedAreNotCovered`).
- *Analyzer, types in attributes.* Types that occur inside attributes only are not scored
  (`Analyzer.TypeInAttributeIsNotScored`); what `Analyzer.MinVersionOf` says of types is said of
  those of operands, results and block arguments, with everything inside them
  (`Analyzer.DeepPartsAreScored`).
- *Analyzer, types.* The versions of a type's parameters are not scored; the score is enough
  exactly if every parameter that is there is no newer than the type or the score of some
  argument (`Analyzer.TypeScoreCovers`, `Analyzer.LateParamIsNotCovered`).
- *Opcodes.* The gate is exact if and only if the opcodes are well numbered
  (`Opcodes.GateIsExact`, `Opcodes.UnlistedVersionIsLost`).

Where code and comments disagree the model follows the code: padding bytes are 0xCB
(`lib/Bytecode/BytecodeEnums.h`), and the version in the header has fixed width.

## Model

| member | source | states |
|---|---|---|
| ModuleFiles.ModuleRoundTrip | lib/Bytecode/Reader/BytecodeReader.cpp:2852-3044 | if all types survive the version, reading a written file gives back its functions, globals and producer (locations relabelled) if and only if every function is a named kernel with readable hints and a faithful body and every global has a name |
| ModuleWriters.WriteBytecode | lib/Bytecode/Writer/BytecodeWriter.cpp:1774-1832 | from empty tables the writer returns the encoding of the module under the tables it ends with, if writing the types adds none and no constant; its file is then read back as the round trip of whole files says; where it refuses, no tables that continue its own give an encoding |
| ModuleWriters.WriteGlobalsAndFunctions | lib/Bytecode/Writer/BytecodeWriter.cpp:1432-1718 | collecting the functions and writing globals and function table leaves both payloads under the tables of their moment, and lists in which every function finds its locations |
| ModuleFiles.ModuleSize | lib/Bytecode/Reader/BytecodeReader.cpp:2802-2850 | the size of a written module is its exact length, whatever bytes follow |
| ModuleFiles.SectionsLoaded | lib/Bytecode/Reader/BytecodeReader.cpp:2938-3044 | from the sections of a written module whose types survive, in dependency order, the reader builds the tables, the globals and then the same functions, exactly for faithful modules |
| ModuleFiles.AllFound | lib/Bytecode/Writer/BytecodeWriter.cpp:1770-1832 | under every section identifier the reader finds the payload written under it, and none where the writer leaves the section out |
| Globals.GlobalsRoundTrip | lib/Bytecode/Reader/BytecodeReader.cpp:2622-2697 | the global section passes the reader's size check and its globals come back, visibility and constant flag included, exactly if each has a name; versions without these flags refuse globals that need them |
| Globals.GlobalCreated | lib/Bytecode/Reader/BytecodeReader.cpp:2732-2793 | the global made from a record is the written one if it has a name, and an error otherwise |
| SectionWriters.WriteGlobalSection | lib/Bytecode/Writer/BytecodeWriter.cpp:1645-1718 | the loop interns name, type and content of each global and leaves the pure encoding on the stream, or fails where no further entries help |
| SectionWriters.WriteDebugEntries | lib/Bytecode/Writer/BytecodeWriter.cpp:811-838 | the entries of the debug table are those of the final strings, which are interned on the way; no type or constant is added |
| SectionWriters.WriteTypeEntries | lib/Bytecode/Writer/BytecodeWriter.cpp:377-417 | the entries of the types in the table are those under the tables afterwards, and nothing but strings is interned if the tables have what the types mention |
| ModuleWriters.WriteBack | lib/Bytecode/Writer/BytecodeWriter.cpp:377-417 | behind the constants, types whose scalar types are registered and that hold no dense elements add neither types nor constants |
| TypeWriters.SerializeType | lib/Bytecode/Writer/BytecodeWriter.cpp:419-466 | one entry of the type table, written while its strings, types and constants are interned, is the pure encoding under the tables afterwards |
| TypeWriters.RegisteredHas | lib/Bytecode/Writer/BytecodeWriter.cpp:468-522 | what registration leaves in the table is all a type mentions, if its scalar types are there and it holds no dense elements |
| OpWriters.WriteOperationHead | tools/cuda-tile-tblgen/BytecodeGen.cpp:263-641 | results, flags, attributes and operands are the pure encoding under the tables afterwards, or no tables that continue them give one |
| AttrWriters.WriteAttribute | lib/Bytecode/Writer/BytecodeWriter.cpp:1350-1417 | the same for an attribute whose kind is known |
| AttrWriters.WriteSelfContained | lib/Bytecode/Writer/BytecodeWriter.cpp:1185-1320 | the same for a self-contained attribute with everything inside it |
| AttrWriters.WriteParameters | tools/cuda-tile-tblgen/BytecodeAttrCodeGen.cpp:953-1034 | the same for the parameters of a generated attribute, in both layouts |
| Interning.Managers.TypeIndex | lib/Bytecode/Writer/BytecodeWriter.cpp:359-375 | a type gets the index under which the reader finds it, its parts come before it, and a known type changes nothing |
| ModuleFiles.FunctionsCreated | lib/Bytecode/Reader/BytecodeReader.cpp:2476-2587 | the list of functions made from the entries equals the written list, relocated, exactly when each is faithful |
| SectionWriters.BuildFunctionMap | lib/Bytecode/Writer/BytecodeWriter.cpp:1456-1485 | every function's name and signature are interned and their indices kept; it gets a location index of its own (0 for a reserved location) and its location is the first of its list |
| SectionWriters.WriteFunctionTableSection | lib/Bytecode/Writer/BytecodeWriter.cpp:1487-1549 | the section stream is the pure encoding of the table under the tables it leaves, each list ends as the function's location followed by those of its operations in pre-order, and a table it refuses cannot be written with further entries either |
| SectionWriters.BodyCollected | lib/Bytecode/Writer/BytecodeWriter.cpp:1090-1147 | writing one body completes the list of its function and touches no other list |
| FunctionTables.FunctionTableRoundTrip | lib/Bytecode/Reader/BytecodeReader.cpp:2344-2450 | the entries are read back one by one, whatever padding follows, exactly if the hints are readable |
| FunctionTables.InfoRoundTrip | lib/Bytecode/Writer/BytecodeWriter.cpp:1495-1537 | one entry with name, signature, flags, location index, hints and body is read back and only its own bytes are consumed |
| FunctionTables.FunctionCreated | lib/Bytecode/Reader/BytecodeReader.cpp:2476-2587 | the function made from an entry and its stream is the written one, relocated, if and only if it is a named kernel with a faithful body |
| FunctionTables.FlagBits | lib/Bytecode/Writer/BytecodeWriter.cpp:1508-1524 | bits 0 to 2 of the flag byte say private, kernel and hints, and no other bit is set |
| BodyRoundTrip.OneOpRoundTrip | lib/Bytecode/Writer/BytecodeWriter.cpp:1090-1147 | reading a written operation with all its regions gives the restored operation and the bytes behind it, or the error predicted for it |
| BodyRoundTrip.BlocksRoundTrip | lib/Bytecode/Reader/BytecodeReader.cpp:1492-1520 | the blocks of a region are read back, each starting from the numbering of the operation around it |
| BodyRoundTrip.OpsRoundTrip | lib/Bytecode/Writer/BytecodeWriter.cpp:1574-1611 | the operations of a block are read back with the numbering growing in step on both sides |
| BodyRoundTrip.SameDefined | lib/Bytecode/Reader/BytecodeReader.cpp:1356-1386 | the reader numbers the same results for an operation as the writer did |
| BodyRoundTrip.OperandsBoundBack | lib/Bytecode/Writer/BytecodeWriter.cpp:1138-1147 | looking operands up and binding the indices gives the operands back exactly when all are in scope |
| BodyRoundTrip.RestoredIffUnchanged | lib/Bytecode/Reader/BytecodeReader.cpp:1492-1520 | an operation tree comes back as it was, with its recorded locations, exactly when restoring changes no head and all operands are in scope |
| BodyRoundTrip.FaithfulIffUnchanged | tools/cuda-tile-tblgen/BytecodeReaderGen.cpp:262-357 | for written trees restoring changes nothing exactly if dropped results have their built type and every left-out attribute is restorable, at every depth |
| BodyRoundTrip.UnknownBecomesFirst | lib/Bytecode/Writer/BytecodeWriter.cpp:1138-1147 | an operation using a value that is not in scope is written with index 0 and comes back using the first value |
| BodyRoundTrip.FunctionRoundTrip | lib/Bytecode/Reader/BytecodeReader.cpp:2453-2473 | a written function body is read back unchanged, consuming exactly its locations, if and only if it is faithful |
| Relocation.FunctionReadBack | lib/Bytecode/Reader/BytecodeReader.cpp:2453-2473 | a body read with relabelled or hidden locations is the relabelled body, exactly when it is faithful |
| FunctionTableWriters.FunctionTableWriter.Number | lib/Bytecode/Writer/BytecodeWriter.cpp:1120-1136 | new values are appended to the numbering and the map stays its inverse |
| FunctionTableWriters.FunctionTableWriter.RollBack | lib/Bytecode/Writer/BytecodeWriter.cpp:1600-1611 | leaving a block restores the numbering at its entry |
| FunctionTableWriters.FunctionTableWriter.IndexForIsLookup | lib/Bytecode/Writer/BytecodeWriter.cpp:1138-1147 | the map answers with the position of a value in the numbering, and 0 for an unknown one |
| FunctionTableWriters.FunctionTableWriter.WriteOperation | lib/Bytecode/Writer/BytecodeWriter.cpp:1090-1136 | succeeds exactly when the pure encoding exists under the tables it leaves, appends it, numbers the results after the regions, and records the locations; an operation it refuses cannot be written with further table entries either |
| FunctionTableWriters.FunctionTableWriter.WriteBlock | lib/Bytecode/Writer/BytecodeWriter.cpp:1574-1611 | appends the encoding of the block under the tables it leaves, and leaves the numbering as it was before the block |
| FunctionTableWriters.FunctionTableWriter.WriteRegion | lib/Bytecode/Writer/BytecodeWriter.cpp:1554-1572 | appends the encoding of all blocks under the tables it leaves, and leaves the numbering as it was |
| FunctionTableWriters.FunctionTableWriter.WriteFunctionBody | lib/Bytecode/Writer/BytecodeWriter.cpp:1432-1452 | from any earlier state the body is numbered afresh and written as the pure encoding under the tables it leaves, and its locations are recorded in pre-order |
| InstructionParsers.InstructionParser.ParseOperation | lib/Bytecode/Reader/BytecodeReader.cpp:2105-2138 | the mutating parser returns what the pure reader returns, moves its cursor past exactly those bytes, and numbers the results it defined |
| InstructionParsers.InstructionParser.ParseBlock | lib/Bytecode/Reader/BytecodeReader.cpp:1420-1489 | parses a block as the pure reader does and resizes the value list to what it was before |
| InstructionParsers.InstructionParser.ParseFunctionBody | lib/Bytecode/Reader/BytecodeReader.cpp:2453-2473 | reads operations until the body is used up, with the result or failure of the pure reader |
| OpRoundTrip.HeadRoundTrip | tools/cuda-tile-tblgen/BytecodeReaderGen.cpp:650-778 | for every schema, operation and version: what is written is read as the restored operation, consuming its own bytes only, or is an error exactly when it is not readable |
| OpRoundTrip.RestoredUnchanged | tools/cuda-tile-tblgen/BytecodeReaderGen.cpp:262-357 | the restored operation equals the written one exactly if dropped results have their built type and every skipped attribute is restorable |
| OpRoundTrip.DefaultAppears | tools/cuda-tile-tblgen/BytecodeReaderGen.cpp:262-357 | an absent optional attribute with a default, at a made-up schema, comes back as that default from a version without it |
| OpRoundTrip.LengthChanges | tools/cuda-tile-tblgen/BytecodeReaderGen.cpp:262-357 | an all-false boolean vector comes back with the length of its operand group instead of its own |
| OpRoundTrip.ResultsRoundTrip | tools/cuda-tile-tblgen/BytecodeReaderGen.cpp:523-636 | result types come back, those the version lacks with their built type; a count that does not match is an error |
| OpRoundTrip.FieldRoundTrip | tools/cuda-tile-tblgen/BytecodeGen.cpp:431-508 | one attribute comes back, or its default when the version does not have it |
| OpRoundTrip.FlagsReadBack | tools/cuda-tile-tblgen/BytecodeReaderGen.cpp:206-254 | the flag word gives back which optional fields are present, also where a version has no flag word |
| OpRoundTrip.OperandsRoundTrip | tools/cuda-tile-tblgen/BytecodeReaderGen.cpp:358-495 | operand segments come back with their lengths exactly if indices are known and the total stays in range |
| OpRoundTrip.NumberedAreKept | tools/cuda-tile-tblgen/BytecodeGen.cpp:566-641 | the first results, as many as the version has, are the results it has if and only if dropped ones are declared last |
| OpRoundTrip.UnnumberedResult | tools/cuda-tile-tblgen/BytecodeGen.cpp:566-641 | with a dropped result declared first, a result of the version is not numbered |
| Evolution.SameBytes | tools/cuda-tile-tblgen/BytecodeGen.cpp:511-564 | a writer that knows later fields writes, for a version, the bytes a writer with the schema cut at that version writes, if and only if results and operands are counted alike and no later operand without a flag has a value |
| Evolution.SegmentsMoveNothing | tools/cuda-tile-tblgen/BytecodeGen.cpp:312-322 | with operand segments the condition holds for every version and every operand list, since later operands must be optional |
| Evolution.VersionsUnderstandEachOther | tools/cuda-tile-tblgen/BytecodeReaderGen.cpp:206-254 | under that condition, which with operand segments always holds, a reader with the older schema reads what the newer writer wrote, and a newer reader reads what the older writer wrote |
| Evolution.CountMovesEverything | tools/cuda-tile-tblgen/BytecodeGen.cpp:551-564 | if only the newer schema counts results, its bytes start with the count and the older types, whatever is counted behind them; the older reader takes the count for the first result type and each type for the next, leaving the last one behind, or fails as the table of types says; where nothing else differs the newer bytes are the count followed by the older ones |
| Evolution.OperandsMove | tools/cuda-tile-tblgen/BytecodeGen.cpp:511-530 | without segments and with results counted alike, the older reader takes any operand list the newer writer wrote if both count the operands, later values included; otherwise it takes as many numbers as it has operands, the count among them, and leaves the rest unread |
| Evolution.LoneOptionalOperand | tools/cuda-tile-tblgen/BytecodeGen.cpp:312-363 | a later optional operand without segments leaves results counted alike, costs an operand count where it is absent, which the older reader leaves unread, and is written for the older version where it is present |
| Evolution.CountReadAsType | tools/cuda-tile-tblgen/BytecodeGen.cpp:511-564 | at a concrete operation whose first variadic operand is new, and not counted by segments, the older reader returns another result type and leaves two bytes behind |
| Evolution.SameFlags | tools/cuda-tile-tblgen/BytecodeGenUtilities.cpp:151-214 | the flag word of an operation without later fields is the same under the longer and the cut schema |
| BitFields.BitsAreABijection | tools/cuda-tile-tblgen/BytecodeGenUtilities.cpp:151-214 | bit positions are distinct and take exactly the numbers below the number of fields |
| BitFields.BitsFollowVersions | tools/cuda-tile-tblgen/BytecodeGenUtilities.cpp:151-214 | an older field has a lower bit than a newer one |
| BitFields.CutMovesNoBit | tools/cuda-tile-tblgen/BytecodeGenUtilities.cpp:151-214 | leaving out later fields moves no remaining bit |
| BitFields.LaterBitsAreHigher | tools/cuda-tile-tblgen/BytecodeGenUtilities.cpp:151-214 | later fields take the bits above all fields of the version |
| BitFields.AssignBits | tools/cuda-tile-tblgen/BytecodeGenUtilities.cpp:151-214 | grouping by version and counting assigns every field its position and returns the oldest version |
| BitFields.FlagsRoundTrip | tools/cuda-tile-tblgen/BytecodeGen.cpp:369-397 | a bit of the flag word is set exactly when its field is present |
| LazyTables.LazyTable.GetEntry | lib/Bytecode/Reader/BytecodeReader.cpp:550-610 | terminates on every table; answers what decoding from scratch answers, or fails because the entry waits for one that is being parsed; the in-progress set is restored |
| LazyTables.LazyTable.Lookup | lib/Bytecode/Reader/BytecodeReader.cpp:550-610 | after any history of lookups the answer is the uncached one |
| LazyTables.DecodedIsFinal | lib/Bytecode/Reader/BytecodeReader.cpp:550-610 | no further round of decoding adds anything to a table decoded from scratch |
| LazyTables.OrderedTableDecodes | lib/Bytecode/Reader/BytecodeReader.cpp:550-610 | a table whose entries ask for earlier ones only is decoded completely |
| LazyTables.AcyclicTableDecodes | lib/Bytecode/Reader/BytecodeReader.cpp:550-610 | a table without cycles is decoded completely, in whatever order its entries refer to each other |
| TypeTables.TypeParserIsSequential | lib/Bytecode/Reader/BytecodeReader.cpp:654-712 | the parser of a type entry behaves the same with more types known, unless it had stopped at one of them |
| TypeTables.TypeTableRoundTrip | lib/Bytecode/Writer/BytecodeWriter.cpp:377-417 | every type of a written table is decoded again |
| TypeTables.WriteTypeStable | lib/Bytecode/Writer/BytecodeWriter.cpp:432-461 | once its parts are registered, a type is written as the same bytes however the table grows, so writing the section needs no new index |
| TypeTables.RegisteredCovers | tools/cuda-tile-tblgen/BytecodeTypeCodeGen.cpp:999-1033 | registration covers the indices an attribute writes if and only if the types of its integers and floats are in the table |
| TypeTables.ScalarIsNotRegistered | lib/Bytecode/Writer/BytecodeWriter.cpp:489-522 | an integer parameter registers nothing, yet its self-contained form needs the index of its type |
| TypeManagers.TypeManager.GetTypeIndex | lib/Bytecode/Writer/BytecodeWriter.cpp:359-375 | the table stays free of duplicates, closed and in dependency order; the index is that of the type; a known type changes nothing |
| TypeManagers.TypeManager.RegisterDependentTypes | lib/Bytecode/Writer/BytecodeWriter.cpp:467-487 | afterwards all parts of the type are in the table |
| TypeManagers.TypeManager.RegisterDependentAttributeTypes | lib/Bytecode/Writer/BytecodeWriter.cpp:489-522 | afterwards the types inside the attribute are in the table, visited attributes included |
| TypeRoundTrip.ArgRoundTrip | tools/cuda-tile-tblgen/BytecodeTypeCodeGen.cpp:789-940 | a type parameter comes back, in the older or the newer format, if and only if it is safe for the version |
| TypeRoundTrip.ParametricRoundTrip | tools/cuda-tile-tblgen/BytecodeTypeCodeGen.cpp:538-704 | a parametric type comes back in either format and in reversed parameter order, consuming its own bytes only |
| TypeRoundTrip.BitsReadBack | tools/cuda-tile-tblgen/BytecodeTypeCodeGen.cpp:789-847 | the reader looks for a bitfield exactly where the writer put one and gets every presence bit back |
| TypeRoundTrip.OneTypeRoundTrip | lib/Bytecode/Writer/BytecodeWriter.cpp:432-461 | every kind of type entry that survives the version is read back with more types known |
| TypeRoundTrip.LegacyParamIsLost | tools/cuda-tile-tblgen/BytecodeTypeCodeGen.cpp:789-940 | before 13.3 a missing old parameter makes the reader fail or take bytes of the next entry, and a younger one is lost with its bytes left over |
| AttrRoundTrip.RoundTrip | tools/cuda-tile-tblgen/BytecodeAttrCodeGen.cpp:953-1141 | an attribute of known kind is read back with exactly its own bytes consumed, or is an error exactly when it is not readable |
| AttrRoundTrip.ExtremeIsNotRead | tools/cuda-tile-tblgen/BytecodeAttrCodeGen.cpp:953-1141 | an array holding the smallest 32-bit integer is written and then refused |
| AttrRoundTrip.EmptySymbolIsNotRead | tools/cuda-tile-tblgen/BytecodeAttrCodeGen.cpp:953-1141 | a reference to an empty symbol name is written and then refused |
| AttrRoundTrip.TaggedRoundTrip | lib/Bytecode/Writer/BytecodeWriter.cpp:1179-1312 | the same for self-contained attribute trees of integers, floats, types, strings, arrays, dictionaries and generated attributes |
| AttrRoundTrip.DataRoundTrip | tools/cuda-tile-tblgen/BytecodeAttrCodeGen.cpp:1057-1141 | the parameters of a generated attribute come back in both layouts, with its optional flags |
| AttrRoundTrip.ScalarRoundTrip | lib/Bytecode/Reader/BytecodeReader.cpp:1665-1713 | integers of every width come back, one-bit ones written as a varint and read as one byte |
| AttrTables.WriteStable | lib/Bytecode/Writer/BytecodeWriter.cpp:1323-1430 | the bytes of an attribute do not change when the tables grow behind it |
| TableGrowth.HeadStable | tools/cuda-tile-tblgen/BytecodeGen.cpp:263-641 | the bytes of an operation without its regions do not change when the tables grow behind it |
| TableGrowth.OpStable | lib/Bytecode/Writer/BytecodeWriter.cpp:1090-1147 | nor do those of an operation with all its regions |
| TableGrowth.EntryStable | lib/Bytecode/Writer/BytecodeWriter.cpp:1495-1537 | nor does an entry of the function table: name, signature, hints and body |
| TableGrowth.GlobalsStable | lib/Bytecode/Writer/BytecodeWriter.cpp:1645-1718 | nor does the section of globals |
| TableGrowth.FunctionTableStable | lib/Bytecode/Writer/BytecodeWriter.cpp:1487-1549 | nor does the whole function table |
| AttrTables.ReadAgain | lib/Bytecode/Reader/BytecodeReader.cpp:1744-2002 | with more table entries known a reader of attributes does the same, unless it had stopped at one of them |
| DebugInfos.DebugInfoWriter.GetDebugInfoIndex | lib/Bytecode/Writer/BytecodeWriter.cpp:865-886 | the debug table stays closed and in order, the index stands for the attribute, and a known attribute adds no entry |
| DebugInfos.DebugInfoWriter.AddDebugInfo | lib/Bytecode/Writer/BytecodeWriter.cpp:734-748 | one location is appended to the list of one function, and nothing for index 0 |
| DebugInfos.DebugInfoWriter.GetOpIndex | lib/Bytecode/Writer/BytecodeWriter.cpp:713-732 | a function gets the next index once, and 0 if its location is reserved |
| DebugInfos.RecordedAtEnd | lib/Bytecode/Writer/BytecodeWriter.cpp:734-748 | recording locations for a function appends them to its list and changes no other |
| DebugInfos.DebugTableRoundTrip | lib/Bytecode/Reader/BytecodeReader.cpp:1034-1111 | every attribute of a written debug table is decoded again, file locations as unknown |
| DebugInfos.DebugParserIsSequential | lib/Bytecode/Reader/BytecodeReader.cpp:1116-1335 | the parser of a debug entry behaves the same with more entries known, unless it had stopped at one of them |
| DebugInfos.Iterator.Next | lib/Bytecode/Reader/BytecodeReader.cpp:973-1018 | each call takes the next location of the function's stream, unknown locations for index 0, and nothing where the source has none: past the end, at an index that does not resolve, or above the count limit |
| DebugInfos.StreamsRoundTrip | lib/Bytecode/Reader/BytecodeReader.cpp:973-1018 | the stream of a function starts with the locations recorded for it, in order |
| DebugSections.DebugSectionRoundTrip | lib/Bytecode/Reader/BytecodeReader.cpp:2168-2298 | the three arrays and the attribute data of the debug section are read back |
| DebugSections.StreamIsRecorded | lib/Bytecode/Writer/BytecodeWriter.cpp:765-843 | the stream selected by the index of a function begins with what was recorded for it |
| Tables.MapVector.GetIndex | lib/Bytecode/Writer/BytecodeWriter.cpp:257-265 | indices are stable, distinct for distinct keys, and point to the key; a known key changes nothing |
| Tables.SliceIsEntry | lib/Bytecode/Reader/BytecodeReader.cpp:235-247 | slicing the data by running sums gives each entry, empty ones included |
| Tables.TableRoundTrip | lib/Bytecode/Reader/BytecodeReader.cpp:904-955 | a written constant table is sliced into its entries again and passes the reader's size checks |
| Tables.LazyTableRoundTrip | lib/Bytecode/Reader/BytecodeReader.cpp:715-759 | every slice of a written type table, taken when it is looked up, is its entry |
| Tables.StringsRoundTrip | lib/Bytecode/Reader/BytecodeReader.cpp:419-465 | every string of a written table is found again; the clamping of slices cuts none |
| Sections.FileRoundTrip | lib/Bytecode/Reader/BytecodeReader.cpp:2872-2936 | the discovery loop recovers the version and every payload of any distinct sections |
| Sections.SizeIsExact | lib/Bytecode/Reader/BytecodeReader.cpp:2802-2850 | the size found is the length written, whatever bytes follow |
| Sections.SectionReadBack | lib/Bytecode/Writer/BytecodeWriter.cpp:208-221 | header, padding and payload of a section are found again at any position |
| Sections.InnerTablesAligned | lib/Bytecode/Writer/BytecodeWriter.cpp:150-162 | a payload starts at a multiple of its alignment, so a table aligned inside it is aligned in the file |
| Sections.WriteSectionHeader | lib/Bytecode/Writer/BytecodeWriter.cpp:208-221 | emits identifier, length, alignment and padding on the stream |
| Sections.DiscoverSections | lib/Bytecode/Reader/BytecodeReader.cpp:2872-2936 | the loop returns the payloads the pure discovery defines, or its failure |
| VarInts.VarIntRoundTrip | lib/Bytecode/Reader/BytecodeReader.cpp:99-124 | every 64-bit value is read back and exactly its own bytes are consumed |
| VarInts.VarIntIsMinimal | lib/Bytecode/Writer/BytecodeWriter.cpp:77-92 | no byte sequence that is read as a value is shorter than its encoding |
| VarInts.VarIntAtMostTenBytes | lib/Bytecode/Writer/BytecodeWriter.cpp:77-92 | ten bytes are enough for every 64-bit value |
| VarInts.ZigZagBijective | lib/Bytecode/Writer/BytecodeWriter.cpp:102-104 | the zigzag form is a bijection on 64-bit words |
| VarInts.SignedVarIntRoundTrip | lib/Bytecode/Reader/BytecodeReader.cpp:126-133 | signed varints are read back |
| Encoding.APIntRoundTrip | lib/Bytecode/Reader/BytecodeReader.cpp:1596-1659 | integers of every width and value are read back from the byte, the varint and the word form |
| Encoding.ActiveWordsRestore | lib/Bytecode/Writer/BytecodeWriter.cpp:224-238 | the dropped high zero words are restored |
| Encoding.LEVarSizeRoundTrip | lib/Bytecode/Writer/BytecodeWriter.cpp:118-140 | arrays of signed words with a length are read back |
| Streams.EncodingWriter.WriteVarInt | lib/Bytecode/Writer/BytecodeWriter.cpp:77-92 | the loop over a ten-byte buffer emits the encoding |
| Streams.EncodingWriter.AlignTo | lib/Bytecode/Writer/BytecodeWriter.cpp:150-162 | pads the stream to a multiple and remembers the largest alignment |
| Streams.EncodingReader.ReadVarInt | lib/Bytecode/Reader/BytecodeReader.cpp:99-124 | the shifting loop reads what the pure decoder defines, with its bound |
| Streams.EncodingReader.SkipPadding | lib/Bytecode/Reader/BytecodeReader.cpp:268-281 | moves the cursor to the next multiple or fails at the end of the data |
| DenseI1.I1RoundTrip | lib/Bytecode/Reader/BytecodeReader.cpp:839-872 | one-bit elements come back for every count of at least 1 and every version, packed or as a splat |
| DenseI1.Pack | lib/Bytecode/Writer/BytecodeWriter.cpp:588-620 | the loop sets exactly the bits of true elements in a zeroed buffer |
| DenseI1.PackedBits | lib/Bytecode/Writer/BytecodeWriter.cpp:588-620 | after packing, bit i is element i, and the bits behind the last element are clear |
| DenseI1.Unpack | lib/Bytecode/Reader/BytecodeReader.cpp:839-872 | the two accepted payload shapes are told apart by the number of elements; every other size is an error |
| DenseI1.OneByteTwoMeanings | lib/Bytecode/Reader/BytecodeReader.cpp:839-872 | one byte is eight packed elements or a splat of nine |
| Opcodes.BuildTable | tools/cuda-tile-tblgen/BytecodeGen.cpp:738-793 | the two loops compute the filled-forward maximum of every supported version |
| Opcodes.GateIsExact | lib/Bytecode/Common/Version.cpp:85-93 | the gate passes an opcode in exactly the versions from its own on, for all opcodes and versions, if and only if opcodes rise with versions and opcode 0 belongs to the oldest |
| Opcodes.UnlistedVersionIsLost | tools/cuda-tile-tblgen/BytecodeGen.cpp:738-793 | an operation whose version is not listed is refused by later versions |
| Opcodes.NewerOperationIsRefused | lib/Bytecode/Writer/BytecodeWriter.cpp:1097-1108 | with a well-numbered table the writer refuses an operation its version does not have |
| MinVersion.AttrThreshold | tools/cuda-tile-tblgen/BytecodeAttrCodeGen.cpp:953-1034 | an attribute some version writes is written by exactly the versions from the one it needs on, always as the same bytes |
| MinVersion.NeedsIsLowest | tools/cuda-tile-tblgen/BytecodeAttrCodeGen.cpp:953-1034 | a version is at least what an attribute needs if and only if nothing in it, at any depth, is newer: no attribute, no enum case, and no optional parameter that is there |
| MinVersion.OpThreshold | tools/cuda-tile-tblgen/BytecodeGen.cpp:263-641 | the reasons of version for which the writer refuses an operation are exactly those listed |
| MinVersion.FieldUpwardClosed | tools/cuda-tile-tblgen/BytecodeGen.cpp:431-508 | among the versions that have the operation, what one accepts of a field every later one accepts, if and only if a field that came after the operation has a fallback no newer than itself |
| MinVersion.OpUpwardClosed | tools/cuda-tile-tblgen/BytecodeGen.cpp:263-641 | what one version that has the operation accepts of it every later one accepts, if and only if for each field whose fallback is not old no version of the operation before the field accepts it |
| MinVersion.NewDefaultIsNotUpwardClosed | tools/cuda-tile-tblgen/BytecodeGen.cpp:431-508 | an operation with a newer default is accepted, refused and accepted by three successive versions; with a result that comes as late as the default it is accepted from then on |
| MinVersion.NewerCaseIsUpwardClosed | tools/cuda-tile-tblgen/BytecodeGen.cpp:431-508 | a required attribute as old as its operation, holding a newer enum case, is accepted from the version of the case on and breaks nothing |
| Analyzer.GetMinBytecodeVersion | lib/Bytecode/Analysis/MinVersionAnalyzer.cpp:45-74 | the walk that scores every type once yields the maximum over every occurrence |
| Analyzer.MinVersionSuffices | lib/Bytecode/Analysis/MinVersionAnalyzer.cpp:45-74 | from the returned version on the writer accepts every operation with covered attributes and every covered type |
| Analyzer.MinVersionWrites | lib/Bytecode/Analysis/MinVersionAnalyzer.cpp:45-74 | at the returned version and at every later one the writer writes the operation if some complete version does and its attributes are covered, and every type it mentions, at any depth, if some complete version writes it and its arguments are scored and covered |
| Analyzer.MinVersionOf | lib/Bytecode/Analysis/MinVersionAnalyzer.cpp:45-74 | the analysis of a list of operations returns a version from which on each of them, and each type it mentions at any depth, is written under these conditions |
| Analyzer.AttrScoreCovers | tools/cuda-tile-tblgen/BytecodeAttrCodeGen.cpp:356-450 | the score of an attribute is enough to write it if and only if nothing inside it, at any depth, is newer than the score and the first newer parameter covers the others |
| Analyzer.TwoEvolvedAreNotCovered | tools/cuda-tile-tblgen/BytecodeAttrCodeGen.cpp:356-450 | with two newer parameters the score can be too low |
| Analyzer.TypeThreshold | tools/cuda-tile-tblgen/BytecodeTypeCodeGen.cpp:538-704 | a type some complete version writes is taken by exactly the versions it fits |
| Analyzer.TypeScoreCovers | tools/cuda-tile-tblgen/BytecodeTypeCodeGen.cpp:1183-1209 | with covered arguments, the score of a type is enough to write it if and only if every parameter that is there is no newer than the type or some argument's score; then every later version is enough as well |
| Analyzer.LateParamIsNotCovered | tools/cuda-tile-tblgen/BytecodeTypeCodeGen.cpp:1130-1209 | a type of 13.1 with a parameter of 13.4 set to an old type scores 13.1 and is refused there |
| Analyzer.PartsAreScored | tools/cuda-tile-tblgen/BytecodeTypeCodeGen.cpp:1183-1209 | the score of a type is at least that of the types inside it |
| Analyzer.DeepPartsAreScored | tools/cuda-tile-tblgen/BytecodeTypeCodeGen.cpp:1183-1209 | the score of a type is at least that of every type inside it, at any depth |
| Analyzer.TypeInAttributeIsNotScored | tools/cuda-tile-tblgen/BytecodeGen.cpp:1015-1056 | an operation with a newer type in an attribute scores 13.1 and is written there, while the type is not |
| Analyzer.WrittenResultTypeFits | tools/cuda-tile-tblgen/BytecodeGen.cpp:978-1013 | the covered type of a written result is written by the version, if an unused newer result is no older than its type |
| Views.VerifyDimMap | lib/Dialect/CudaTile/IR/Types.cpp:601-624 | the loop accepts exactly the permutations of the dimensions |
| Views.PermutationIff | lib/Dialect/CudaTile/IR/Types.cpp:601-624 | in range without repetition is the same as a rearrangement of 0 to n-1 |
| Views.MaskTest | lib/Dialect/CudaTile/IR/Types.cpp:594-599 | for positive d, d and d-1 share no bit exactly when d is a power of two |
| Views.HasEvenDim | lib/Dialect/CudaTile/IR/Types.cpp:195-206 | some dimension is even exactly when the number of elements is even |
| Views.VerifyTileSize | include/cuda_tile/Dialect/CudaTile/IR/SharedVerifiers.h:98-126 | accepts exactly positive powers of two whose product is within the limit; the guard before the multiplication is exact |
| Views.VerifyPartitionViewLike | lib/Dialect/CudaTile/IR/Types.cpp:569-652 | the checks in sequence decide the conditions on a grid view |
| Views.VerifyStridedView | lib/Dialect/CudaTile/IR/Types.cpp:785-811 | the same for strided views with positive strides of the right number |
| Views.VerifyGatherScatterView | lib/Dialect/CudaTile/IR/Types.cpp:930-991 | decides the conditions on a tile with one sparse dimension below the rank |
| TypeText.TextRoundTrip | lib/Dialect/CudaTile/IR/Types.cpp:238-365 | the printed form of every verified type is parsed back to it, with nothing left over |
| TypeText.TextIsInjective | lib/Dialect/CudaTile/IR/Types.cpp:177-193 | different verified types have different texts |
| TypeText.TensorViewRoundTrip | lib/Dialect/CudaTile/IR/Types.cpp:238-365 | tensor views of any rank, with dynamic sizes and strides and an optional pointer attribute |
| TypeText.PartitionViewRoundTrip | lib/Dialect/CudaTile/IR/Types.cpp:445-566 | partition views with optional padding |
| TypeText.DimMapRoundTrip | lib/Dialect/CudaTile/IR/Types.cpp:470-495 | an elided dimension map is the identity again |
| TypeText.StridedViewRoundTrip | lib/Dialect/CudaTile/IR/Types.cpp:705-783 | strided views |
| TypeText.GatherScatterViewRoundTrip | lib/Dialect/CudaTile/IR/Types.cpp:852-928 | gather/scatter views with their sparse dimension |

## Left out

- The text the TableGen backends emit, and the parsing of versions in definitions (`parseVersion`): schemas hold versions as numbers. The generators compare some versions as strings, in which "13.10" comes before "13.3"; `TypeRoundTrip.SchemaOk` demands the numerical order.
- MLIR internals: contexts, uniquing, builders, diagnostics, and the verifiers of operations and types that run when something is built; the codec lemmas take them to succeed.
- Raw buffers of dense elements other than one-bit ones, big-endian conversion, and dense elements inside self-contained attributes (the reader ends in an error there): a constant is its bytes.
- The module's name (the reader uses a fixed one) and the locations of module and globals.
- Symbol renaming (`updateSymbolName`), remarks, command-line tools, language bindings, generated documentation.
- Negative segment sizes and counts above the 32-bit limits of the IR: `OpCodec.Shaped` has the limits.
- Constants interned by attribute: the pool is interned by content here, as the reader sees it.
- ModuleFiles.ModuleRoundTrip: is about tables that hold what the managers keep (`ModuleWriters.WriteBytecode` comes to such tables) and types that survive the version; what becomes of a module with other types is said type by type (`TypeRoundTrip.ArgRoundTrip`). Offsets that overflow 32 bits are excluded (`Fits`); the source would cut them.
- ModuleWriters.WriteBytecode: promises nothing of a file whose type entries add types or constants to the tables while the type section is written (the source then appends to the list it iterates over); no type definition has a parameter of dense elements, and `TypeWriters.RegisteredHas` says when nothing is added.
- SectionWriters.SerializeDebugInfo: interns the strings of an attribute before its bytes are put on the stream, in the order in which the source interns them.
- LazyTables.LazyTable.GetEntry: a parser that asks for an unknown entry is run again from the front of the entry instead of being resumed in the middle; parsers do not depend on anything but the bytes and the table.
- InstructionParsers.InstructionParser.ParseOperation: the cursor is kept as the bytes that are left.
- FunctionTables.FunctionTableRoundTrip: bodies of entries are handed on as bytes, as in the source; functions other than kernels are written but never read.
- DebugInfos.Iterator.Next: the cast to the class asked for is part of the readers of debug attributes only.
- Opcodes.BuildTable: a supported version that is listed twice is processed once.
- TypeText.TextRoundTrip: works on tokens; the splitting of `4x8xf32` into tokens and the spelling of attributes belong to MLIR.
- TypeRoundTrip.OneTypeRoundTrip: that a type with an unsafe parameter never comes back is proved for one parameter (`TypeRoundTrip.ArgRoundTrip`) and shown at types (`TypeRoundTrip.LegacyParamIsLost`); several unsafe parameters might make up for each other.
- Analyzer.GetMinBytecodeVersion: takes the contributions of every operation as a list, in the order of the generated checks.
- BitFields.AssignBits: attributes and operands are given by their versions in declaration order; the names under which the generator looks them up are left out.
