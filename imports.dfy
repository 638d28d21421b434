/**
 * `extract_dependencies`: the import records of one file. A plain `import a, b as c`
 * gives one record per name; a `from m import x, y as z` gives one record holding
 * all its names in order, with a `level` entry only for a relative import.
 */
module Imports {
  import opened Wrappers
  import opened Paths
  import opened Syntax

  /** The dictionaries the source appends; `level` is absent (`None`) when the import is absolute. */
  datatype Dependency =
    | PlainImport(name: string, alias: Option<string>)
    | FromImport(name: string, level: Option<nat>, imports: seq<Alias>)

  datatype ExtractError = FileNotFound(path: Path) | ReadError(path: Path) | SyntaxError(path: Path)

  /** The returned dictionary: either an `error` with no dependencies, or the `file` and its dependencies. */
  datatype DependencyReport =
    | Failure(error: ExtractError)
    | Success(file: Path, deps: seq<Dependency>)
  {
    /** `report["dependencies"]`. */
    function Dependencies(): seq<Dependency>
    {
      if Failure? then [] else deps
    }
  }

  /** The records of one `import` statement. */
  function PlainRecords(names: seq<Alias>): seq<Dependency>
  {
    if names == [] then []
    else
      var a := names[|names| - 1];
      PlainRecords(names[..|names| - 1]) + [PlainImport(a.name, a.asname)]
  }

  /** The record of one `from ... import` statement; a missing module name becomes `""`. */
  function FromRecord(moduleName: Option<string>, level: nat, names: seq<Alias>): Dependency
  {
    FromImport(OrElse(moduleName, ""), if level > 0 then Some(level) else None, names)
  }

  function NodeDependencies(node: Node): seq<Dependency>
  {
    match node
    case Import(names) => PlainRecords(names)
    case ImportFrom(moduleName, level, names) => [FromRecord(moduleName, level, names)]
    case _ => []
  }

  /** The records of a walk, in walk order. */
  function DependenciesOf(nodes: seq<Node>): seq<Dependency>
  {
    if nodes == [] then []
    else DependenciesOf(nodes[..|nodes| - 1]) + NodeDependencies(nodes[|nodes| - 1])
  }

  /** What `extract_dependencies(path)` returns. */
  function ReportOf(fs: FileSystem, path: Path): DependencyReport
  {
    if path !in fs then Failure(FileNotFound(path))
    else match fs[path]
      case Unreadable => Failure(ReadError(path))
      case Unparsable => Failure(SyntaxError(path))
      case Parsed(nodes, _) => Success(path, DependenciesOf(nodes))
  }

  method ExtractDependencies(fs: FileSystem, path: Path) returns (report: DependencyReport)
    ensures path !in fs ==> report == Failure(FileNotFound(path))
    ensures path in fs && fs[path].Unreadable? ==> report == Failure(ReadError(path))
    ensures path in fs && fs[path].Unparsable? ==> report == Failure(SyntaxError(path))
    ensures path in fs && fs[path].Parsed? ==> report == Success(path, DependenciesOf(fs[path].nodes))
    ensures report == ReportOf(fs, path)
  {
    if path !in fs {
      return Failure(FileNotFound(path));
    }
    match fs[path]
    case Unreadable =>
      report := Failure(ReadError(path));
    case Unparsable =>
      report := Failure(SyntaxError(path));
    case Parsed(nodes, _) =>
      var dependencies: seq<Dependency> := [];
      for i := 0 to |nodes|
        invariant dependencies == DependenciesOf(nodes[..i])
      {
        assert nodes[..i + 1][..i] == nodes[..i];
        var records := NodeRecords(nodes[i]);
        dependencies := dependencies + records;
      }
      assert nodes[..|nodes|] == nodes;
      report := Success(path, dependencies);
  }

  /** The body of the walk loop in `extract_dependencies`: the records one node appends. */
  method NodeRecords(node: Node) returns (records: seq<Dependency>)
    ensures records == NodeDependencies(node)
  {
    records := [];
    match node
    case Import(names) =>
      for j := 0 to |names|
        invariant records == PlainRecords(names[..j])
      {
        assert names[..j + 1][..j] == names[..j];
        records := records + [PlainImport(names[j].name, names[j].asname)];
      }
      assert names[..|names|] == names;
    case ImportFrom(moduleName, level, names) =>
      var dependency := FromImport(OrElse(moduleName, ""), None, []);
      if level > 0 {
        dependency := dependency.(level := Some(level));
      }
      for j := 0 to |names|
        invariant dependency == FromImport(OrElse(moduleName, ""), if level > 0 then Some(level) else None, names[..j])
      {
        assert names[..j + 1] == names[..j] + [names[j]];
        dependency := dependency.(imports := dependency.imports + [names[j]]);
      }
      assert names[..|names|] == names;
      records := [dependency];
    case _ =>
  }

  lemma {:induction false} DependenciesOfAppend(a: seq<Node>, b: seq<Node>)
    ensures DependenciesOf(a + b) == DependenciesOf(a) + DependenciesOf(b)
    decreases |b|
  {
    if b == [] {
      assert a + b == a;
    } else {
      var init, last := b[..|b| - 1], b[|b| - 1];
      var ab := a + b;
      calc {
        DependenciesOf(ab);
        DependenciesOf(ab[..|ab| - 1]) + NodeDependencies(ab[|ab| - 1]);
        { assert ab[..|ab| - 1] == a + init && ab[|ab| - 1] == last; }
        DependenciesOf(a + init) + NodeDependencies(last);
        { DependenciesOfAppend(a, init); }
        (DependenciesOf(a) + DependenciesOf(init)) + NodeDependencies(last);
        DependenciesOf(a) + (DependenciesOf(init) + NodeDependencies(last));
        DependenciesOf(a) + DependenciesOf(b);
      }
    }
  }

  lemma {:induction false} PlainRecordsAt(names: seq<Alias>, j: nat)
    requires j < |names|
    ensures |PlainRecords(names)| == |names|
    ensures PlainRecords(names)[j] == PlainImport(names[j].name, names[j].asname)
  {
    var init := names[..|names| - 1];
    if |init| > 0 {
      PlainRecordsAt(init, if j < |init| then j else 0);
    }
  }

  /** The records of the walk split into those before node `i`, those of node `i`, and those after. */
  lemma {:induction false} RecordsAround(nodes: seq<Node>, i: nat)
    requires i < |nodes|
    ensures DependenciesOf(nodes) == DependenciesOf(nodes[..i]) + NodeDependencies(nodes[i]) + DependenciesOf(nodes[i + 1..])
  {
    var pre, mid, post := nodes[..i], [nodes[i]], nodes[i + 1..];
    assert nodes == (pre + mid) + post;
    DependenciesOfAppend(pre + mid, post);
    DependenciesOfAppend(pre, mid);
    assert mid[..0] == [];
  }

  /**
   * The `j`-th name of a plain `import` at walk position `i` gives a record, with its
   * name and alias, right after the records of the nodes before it.
   */
  lemma {:induction false} ImportRecordAt(nodes: seq<Node>, i: nat, j: nat)
    requires i < |nodes| && nodes[i].Import? && j < |nodes[i].names|
    ensures var k := |DependenciesOf(nodes[..i])| + j;
            && k < |DependenciesOf(nodes)|
            && DependenciesOf(nodes)[k] == PlainImport(nodes[i].names[j].name, nodes[i].names[j].asname)
  {
    var all, pre, mid, post := DependenciesOf(nodes), DependenciesOf(nodes[..i]), NodeDependencies(nodes[i]), DependenciesOf(nodes[i + 1..]);
    var record := PlainImport(nodes[i].names[j].name, nodes[i].names[j].asname);
    assert j < |mid| && mid[j] == record by {
      PlainRecordsAt(nodes[i].names, j);
    }
    assert all == pre + mid + post by {
      RecordsAround(nodes, i);
    }
    IndexInMiddle(pre, mid, post, j);
    assert |pre| + j < |all| && all[|pre| + j] == record;
  }

  /** Index `j` of the middle part is index `|pre| + j` of the whole. */
  lemma IndexInMiddle<T>(pre: seq<T>, mid: seq<T>, post: seq<T>, j: nat)
    requires j < |mid|
    ensures |pre| + j < |pre + mid + post| && (pre + mid + post)[|pre| + j] == mid[j]
  {
  }

  /**
   * A `from ... import` at walk position `i` gives exactly one record, right after the
   * records of the nodes before it: its module name or `""`, its names in order, and
   * a level exactly when the level is positive.
   */
  lemma {:induction false} FromImportRecordAt(nodes: seq<Node>, i: nat)
    requires i < |nodes| && nodes[i].ImportFrom?
    ensures var k := |DependenciesOf(nodes[..i])|;
            && k < |DependenciesOf(nodes)|
            && var d := DependenciesOf(nodes)[k];
            && d.FromImport?
            && d.name == OrElse(nodes[i].moduleName, "")
            && d.imports == nodes[i].names
            && (d.level.Some? <==> nodes[i].level > 0)
            && (d.level.Some? ==> d.level.value == nodes[i].level)
            && |DependenciesOf(nodes[..i + 1])| == k + 1
  {
    RecordsAround(nodes, i);
    RecordsAround(nodes[..i + 1], i);
    assert nodes[..i + 1][..i] == nodes[..i];
    assert nodes[..i + 1][i + 1..] == [];
  }

  /** Record count of a walk: the names of every plain import, plus one per from-import. */
  function RecordCount(nodes: seq<Node>): nat
  {
    if nodes == [] then 0
    else
      (match nodes[0]
       case Import(names) => |names|
       case ImportFrom(_, _, _) => 1
       case _ => 0)
      + RecordCount(nodes[1..])
  }

  /** No record comes from anywhere else: every other kind of node contributes nothing. */
  lemma {:induction false} DependenciesCount(nodes: seq<Node>)
    ensures |DependenciesOf(nodes)| == RecordCount(nodes)
  {
    if nodes != [] {
      DependenciesCount(nodes[1..]);
      DependenciesOfAppend([nodes[0]], nodes[1..]);
      assert [nodes[0]] + nodes[1..] == nodes;
      assert [nodes[0]][..0] == [];
      if nodes[0].Import? {
        if |nodes[0].names| > 0 {
          PlainRecordsAt(nodes[0].names, 0);
        }
      }
    }
  }

  /** Appending a node appends its records. */
  lemma DependenciesOfSnoc(nodes: seq<Node>, node: Node)
    ensures DependenciesOf(nodes + [node]) == DependenciesOf(nodes) + NodeDependencies(node)
  {
    assert (nodes + [node])[..|nodes|] == nodes;
  }

  /** `import os`, `from math import sqrt, sin as sine`, `from .helper import util`. */
  lemma ParsingExample()
    ensures var nodes := [OtherNode,
                          Import([Alias("os", None)]),
                          ImportFrom(Some("math"), 0, [Alias("sqrt", None), Alias("sin", Some("sine"))]),
                          ImportFrom(Some("helper"), 1, [Alias("util", None)]),
                          OtherNode];
            DependenciesOf(nodes) == [PlainImport("os", None),
                                      FromImport("math", None, [Alias("sqrt", None), Alias("sin", Some("sine"))]),
                                      FromImport("helper", Some(1), [Alias("util", None)])]
  {
    var os := Import([Alias("os", None)]);
    var math := ImportFrom(Some("math"), 0, [Alias("sqrt", None), Alias("sin", Some("sine"))]);
    var helper := ImportFrom(Some("helper"), 1, [Alias("util", None)]);
    var osRecord := PlainImport("os", None);
    var mathRecord := FromImport("math", None, [Alias("sqrt", None), Alias("sin", Some("sine"))]);
    var helperRecord := FromImport("helper", Some(1), [Alias("util", None)]);
    var n1, n2, n3, n4, n5 := [OtherNode], [OtherNode, os], [OtherNode, os, math], [OtherNode, os, math, helper],
                              [OtherNode, os, math, helper, OtherNode];
    assert DependenciesOf(n1) == [] by {
      DependenciesOfSnoc([], OtherNode);
      assert [] + [OtherNode] == n1;
    }
    assert DependenciesOf(n2) == [osRecord] by {
      DependenciesOfSnoc(n1, os);
      assert n1 + [os] == n2;
      assert [Alias("os", None)][..0] == [];
    }
    assert DependenciesOf(n3) == [osRecord, mathRecord] by {
      DependenciesOfSnoc(n2, math);
      assert n2 + [math] == n3;
    }
    assert DependenciesOf(n4) == [osRecord, mathRecord, helperRecord] by {
      DependenciesOfSnoc(n3, helper);
      assert n3 + [helper] == n4;
    }
    assert DependenciesOf(n5) == [osRecord, mathRecord, helperRecord] by {
      DependenciesOfSnoc(n4, OtherNode);
      assert n4 + [OtherNode] == n5;
    }
  }
}
