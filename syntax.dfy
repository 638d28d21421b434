/**
 * What the extractors see of a source file: the outcome of reading and parsing it,
 * and on success the nodes of its syntax tree in the order `ast.walk` yields them.
 * Only the node kinds the extractors test for are distinguished; every other node
 * is `OtherNode`.
 */
module Syntax {
  import opened Wrappers
  import opened Paths

  /** An `ast.alias`: an imported name and its optional `as` name. */
  datatype Alias = Alias(name: string, asname: Option<string>)

  /** The callee shapes the call-site resolver tells apart: `f`, `x.attr`, and anything else. */
  datatype Expr =
    | Name(id: string)
    | Attribute(value: Expr, attr: string)
    | OtherExpr

  datatype Node =
    | Import(names: seq<Alias>)                                    // import a.b as c, d
    | ImportFrom(moduleName: Option<string>, level: nat, names: seq<Alias>)  // from ..m import x as y
    | FunctionDef(name: string)                                    // def f(...)
    | AsyncFunctionDef(name: string)                               // async def f(...)
    | Call(func: Expr)                                             // func(...)
    | OtherNode

  /**
   * Reading and parsing one file. `Parsed` carries the walk-ordered nodes; `needsDedent`
   * says the text parses only after `textwrap.dedent` has stripped its common indentation.
   */
  datatype Source =
    | Unreadable
    | Unparsable                                                   // ast.parse raises SyntaxError
    | Parsed(nodes: seq<Node>, needsDedent: bool)

  /** The files on disk; a path that is not a key does not exist. */
  type FileSystem = map<Path, Source>
}
