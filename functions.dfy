/**
 * `extract_defined_functions`: the names of the `def` statements of a file, at every
 * depth, in walk order, duplicates kept. `async def` is a different node kind and is
 * not collected. A file that cannot be opened, read or parsed gives no names.
 */
module Functions {
  import opened Paths
  import opened Syntax

  /** The names the walk collects from `nodes`. */
  function DefinedFunctionsOf(nodes: seq<Node>): seq<string>
  {
    if nodes == [] then []
    else
      var before := DefinedFunctionsOf(nodes[..|nodes| - 1]);
      match nodes[|nodes| - 1]
      case FunctionDef(name) => before + [name]
      case _ => before
  }

  /** What `extract_defined_functions(path)` returns. */
  function DefinedFunctions(fs: FileSystem, path: Path): seq<string>
  {
    if path in fs && fs[path].Parsed? then DefinedFunctionsOf(fs[path].nodes) else []
  }

  method ExtractDefinedFunctions(fs: FileSystem, path: Path) returns (functions: seq<string>)
    ensures path !in fs || !fs[path].Parsed? ==> functions == []
    ensures functions == DefinedFunctions(fs, path)
  {
    if path !in fs {
      return [];
    }
    match fs[path]
    case Unreadable =>
      functions := [];
    case Unparsable =>
      functions := [];
    case Parsed(nodes, _) =>
      functions := [];
      for i := 0 to |nodes|
        invariant functions == DefinedFunctionsOf(nodes[..i])
      {
        assert nodes[..i + 1][..i] == nodes[..i];
        if nodes[i].FunctionDef? {
          functions := functions + [nodes[i].name];
        }
      }
      assert nodes[..|nodes|] == nodes;
  }

  /** The walk positions of the `def` nodes. */
  function DefPositions(nodes: seq<Node>): set<nat>
  {
    set i: nat | i < |nodes| && nodes[i].FunctionDef?
  }

  lemma {:induction false} DefPositionsSnoc(nodes: seq<Node>)
    requires nodes != []
    ensures |DefPositions(nodes)| == |DefPositions(nodes[..|nodes| - 1])| + if nodes[|nodes| - 1].FunctionDef? then 1 else 0
  {
    var n := |nodes|;
    var init := nodes[..n - 1];
    var before, after := DefPositions(init), DefPositions(nodes);
    var last: set<nat> := if nodes[n - 1].FunctionDef? then {n - 1} else {};
    forall i: nat
      ensures i in after <==> i in before + last
    {
      if i < n - 1 {
        assert init[i] == nodes[i];
      }
    }
    assert after == before + last;
    assert before !! last;
  }

  /** One name is collected per `def` node, so duplicates are kept. */
  lemma {:induction false} DefinedFunctionsCount(nodes: seq<Node>)
    ensures |DefinedFunctionsOf(nodes)| == |DefPositions(nodes)|
  {
    if nodes != [] {
      DefinedFunctionsCount(nodes[..|nodes| - 1]);
      DefPositionsSnoc(nodes);
    }
  }

  /** A name is collected exactly when some node of the walk is a (non-async) `def` of that name. */
  lemma {:induction false} DefinedFunctionsMembers(nodes: seq<Node>, f: string)
    ensures f in DefinedFunctionsOf(nodes) <==> exists i :: 0 <= i < |nodes| && nodes[i] == FunctionDef(f)
  {
    if nodes != [] {
      var init := nodes[..|nodes| - 1];
      DefinedFunctionsMembers(init, f);
      if exists i :: 0 <= i < |nodes| && nodes[i] == FunctionDef(f) {
        var i :| 0 <= i < |nodes| && nodes[i] == FunctionDef(f);
        if i < |init| {
          assert init[i] == nodes[i];
        }
      }
      if exists i :: 0 <= i < |init| && init[i] == FunctionDef(f) {
        var i :| 0 <= i < |init| && init[i] == FunctionDef(f);
        assert nodes[i] == init[i];
      }
    }
  }

  /** A module defining `foo` and `bar` (and nothing async) yields exactly those names. */
  lemma DefinedFunctionsExample()
    ensures var nodes := [OtherNode, FunctionDef("foo"), OtherNode, FunctionDef("bar"), OtherNode, AsyncFunctionDef("baz")];
            DefinedFunctionsOf(nodes) == ["foo", "bar"]
  {
    var nodes := [OtherNode, FunctionDef("foo"), OtherNode, FunctionDef("bar"), OtherNode, AsyncFunctionDef("baz")];
    assert nodes[..1] == [OtherNode];
    assert DefinedFunctionsOf(nodes[..1]) == [];
    assert DefinedFunctionsOf(nodes[..2]) == ["foo"] by { assert nodes[..2][..1] == nodes[..1]; }
    assert DefinedFunctionsOf(nodes[..3]) == ["foo"] by { assert nodes[..3][..2] == nodes[..2]; }
    assert DefinedFunctionsOf(nodes[..4]) == ["foo", "bar"] by { assert nodes[..4][..3] == nodes[..3]; }
    assert DefinedFunctionsOf(nodes[..5]) == ["foo", "bar"] by { assert nodes[..5][..4] == nodes[..4]; }
    assert nodes[..6] == nodes;
  }
}
