/** Source locations and the debug attributes they are made of, as plain values. */
module DebugIr {
  import opened Base

  datatype Debug =
    | UnknownLoc
    | FileLineColLoc(path: bytes, line: nat, column: nat)
    | File(name: bytes, directory: bytes)
    | CompileUnit(file: Debug)
    | LexicalBlock(scope: Debug, file: Debug, line: nat, column: nat)
    | Subprogram(file: Debug, line: nat, name: bytes, linkageName: bytes, unit: Debug, scopeLine: nat)
    | Loc(scope: Debug, fileName: bytes, line: nat, column: nat)
    | CallSite(callee: Debug, caller: Debug)
    | NameLoc(name: bytes, child: Debug)

  /** The locations an operation may have: the writer refuses all others. */
  predicate Supported(loc: Debug) {
    match loc
    case Loc(_, _, _, _) => true
    case FileLineColLoc(_, _, _) => true
    case UnknownLoc => true
    case CallSite(callee, caller) => Supported(caller) && Supported(callee)
    case _ => false
  }

  /** The locations handed out while one function is read; `Hidden` gives unknown ones only. */
  datatype LocStream = Hidden | Listed(locs: seq<Debug>)

  function Next(s: LocStream): Option<(Debug, LocStream)> {
    match s
    case Hidden => Some((UnknownLoc, Hidden))
    case Listed(locs) => if locs == [] then None else Some((locs[0], Listed(locs[1..])))
  }
}
