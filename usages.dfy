/**
 * `resolve_function_usages`: which functions of other project modules a file calls.
 * Two alias tables are filled from the file's imports, every call whose callee is a
 * bound name `f` or an attribute `m.a` of a bound module name becomes a candidate
 * (module, function) pair, and the candidates defined in the project are kept.
 * Unlike the other extractors this one parses the raw text, without dedenting it.
 */
module Usages {
  import opened Wrappers
  import opened Strings
  import opened Collections
  import opened Paths
  import opened Syntax
  import opened Relative

  /** One entry of the result: `{"module": ..., "function": ..., "path": ...}`. */
  datatype FunctionUsage = FunctionUsage(moduleName: string, functionName: string, path: Path)

  /** The name `import a.b as x` binds: `x`, or else the first dotted segment `a`. */
  function PlainBoundName(a: Alias): string
  {
    OrElse(a.asname, Split(a.name, '.')[0])
  }

  /** The name `from m import f as g` binds: `g`, or else `f`. */
  function FromBoundName(a: Alias): string
  {
    OrElse(a.asname, a.name)
  }

  /** The `alias_map` assignments made for the names of one `import` statement. */
  function PlainBindings(names: seq<Alias>): seq<(string, string)>
  {
    if names == [] then []
    else
      var a := names[|names| - 1];
      PlainBindings(names[..|names| - 1]) + [(PlainBoundName(a), a.name)]
  }

  /** The `direct_imports` assignments made for the names of one `from` statement resolved to `base`. */
  function FromBindings(base: string, names: seq<Alias>): seq<(string, (string, string))>
  {
    if names == [] then []
    else
      var a := names[|names| - 1];
      FromBindings(base, names[..|names| - 1]) + [(FromBoundName(a), (base, a.name))]
  }

  /** All `alias_map` assignments of a walk, in order. */
  function ModuleAliases(nodes: seq<Node>): seq<(string, string)>
  {
    if nodes == [] then []
    else
      var before := ModuleAliases(nodes[..|nodes| - 1]);
      match nodes[|nodes| - 1]
      case Import(names) => before + PlainBindings(names)
      case _ => before
  }

  /** All `direct_imports` assignments of a walk, in order, seen from module `current`. */
  function FunctionAliases(nodes: seq<Node>, current: string): seq<(string, (string, string))>
  {
    if nodes == [] then []
    else
      var before := FunctionAliases(nodes[..|nodes| - 1], current);
      match nodes[|nodes| - 1]
      case ImportFrom(moduleName, level, names) =>
        before + FromBindings(FromTarget(OrElse(moduleName, ""), level, current), names)
      case _ => before
  }

  /** The candidate pair a call with this callee contributes, if any. */
  function CalleeTarget(func: Expr, aliasMap: map<string, string>, directImports: map<string, (string, string)>)
    : Option<(string, string)>
  {
    if func.Name? && func.id in directImports then Some(directImports[func.id])
    else if func.Attribute? && func.value.Name? && func.value.id in aliasMap then Some((aliasMap[func.value.id], func.attr))
    else None
  }

  /** The set `calls` after scanning `nodes` with complete alias tables. */
  function CallsOf(nodes: seq<Node>, aliasMap: map<string, string>, directImports: map<string, (string, string)>)
    : set<(string, string)>
  {
    if nodes == [] then {}
    else
      var before := CallsOf(nodes[..|nodes| - 1], aliasMap, directImports);
      var node := nodes[|nodes| - 1];
      if node.Call? && CalleeTarget(node.func, aliasMap, directImports).Some?
      then before + {CalleeTarget(node.func, aliasMap, directImports).value}
      else before
  }

  /** `module_functions.get(mod, [])`. */
  function FunctionsOf(moduleFunctions: map<string, seq<string>>, mod: string): seq<string>
  {
    if mod in moduleFunctions then moduleFunctions[mod] else []
  }

  /** A candidate pair survives when its module is in the project and defines the function. */
  predicate Defined(call: (string, string), moduleMap: map<string, Path>, moduleFunctions: map<string, seq<string>>)
  {
    call.0 in moduleMap && call.1 in FunctionsOf(moduleFunctions, call.0)
  }

  function UsageOf(call: (string, string), moduleMap: map<string, Path>): FunctionUsage
    requires call.0 in moduleMap
  {
    FunctionUsage(call.0, call.1, moduleMap[call.0])
  }

  function Confirmed(calls: set<(string, string)>, moduleMap: map<string, Path>, moduleFunctions: map<string, seq<string>>)
    : set<FunctionUsage>
  {
    set c | c in calls && Defined(c, moduleMap, moduleFunctions) :: UsageOf(c, moduleMap)
  }

  /** No two usages name the same (module, function) pair. */
  predicate DistinctCalls(usages: seq<FunctionUsage>)
  {
    forall i, j :: 0 <= i < j < |usages| ==>
      (usages[i].moduleName, usages[i].functionName) != (usages[j].moduleName, usages[j].functionName)
  }

  /** The usages `resolve_function_usages(file, module_map, root_dir, module_functions)` returns, as a set. */
  function UsagesOf(fs: FileSystem, file: Path, moduleMap: map<string, Path>, root: Path,
                    moduleFunctions: map<string, seq<string>>): set<FunctionUsage>
  {
    if file in fs && fs[file].Parsed? && !fs[file].needsDedent then
      var nodes := fs[file].nodes;
      var current := CurrentModule(file, root);
      Confirmed(CallsOf(nodes, LastWins(ModuleAliases(nodes)), LastWins(FunctionAliases(nodes, current))),
                moduleMap, moduleFunctions)
    else {}
  }

  lemma {:induction false} ModuleAliasesStep(nodes: seq<Node>, i: nat)
    requires i < |nodes|
    ensures ModuleAliases(nodes[..i + 1])
         == ModuleAliases(nodes[..i]) + (if nodes[i].Import? then PlainBindings(nodes[i].names) else [])
  {
    assert nodes[..i + 1][..i] == nodes[..i];
  }

  lemma {:induction false} FunctionAliasesStep(nodes: seq<Node>, current: string, i: nat)
    requires i < |nodes|
    ensures FunctionAliases(nodes[..i + 1], current)
         == FunctionAliases(nodes[..i], current)
            + (if nodes[i].ImportFrom?
               then FromBindings(FromTarget(OrElse(nodes[i].moduleName, ""), nodes[i].level, current), nodes[i].names)
               else [])
  {
    assert nodes[..i + 1][..i] == nodes[..i];
  }

  /** A usage is kept for the candidate set `calls` exactly when its pair is a defined candidate and its path is the module's. */
  predicate Accepted(u: FunctionUsage, calls: set<(string, string)>, moduleMap: map<string, Path>, moduleFunctions: map<string, seq<string>>)
  {
    (u.moduleName, u.functionName) in calls && Defined((u.moduleName, u.functionName), moduleMap, moduleFunctions)
    && u.path == moduleMap[u.moduleName]
  }

  lemma {:induction false} ConfirmedMembers(u: FunctionUsage, calls: set<(string, string)>, moduleMap: map<string, Path>, moduleFunctions: map<string, seq<string>>)
    ensures u in Confirmed(calls, moduleMap, moduleFunctions) <==> Accepted(u, calls, moduleMap, moduleFunctions)
  {
    if Accepted(u, calls, moduleMap, moduleFunctions) {
      assert u == UsageOf((u.moduleName, u.functionName), moduleMap);
    }
  }

  /** The `from` statement's base as the alias pass resolves it (the same arithmetic as the file resolver's). */
  method ResolveFromBase(moduleName: Option<string>, level: nat, relCurr: string) returns (base: string)
    ensures base == FromTarget(OrElse(moduleName, ""), level, relCurr)
  {
    base := OrElse(moduleName, "");
    if level > 0 {
      var parts := DropLast(Split(relCurr, '.'), level);
      if base != "" {
        parts := parts + Split(base, '.');
      }
      base := Join(parts, '.');
    }
  }

  /** The inner loop over an `import` statement's names. */
  method AddPlainBindings(ghost prior: seq<(string, string)>, aliasMap: map<string, string>, names: seq<Alias>)
    returns (updated: map<string, string>)
    requires aliasMap == LastWins(prior)
    ensures updated == LastWins(prior + PlainBindings(names))
  {
    updated := aliasMap;
    assert prior + PlainBindings(names[..0]) == prior;
    for j := 0 to |names|
      invariant updated == LastWins(prior + PlainBindings(names[..j]))
    {
      var alias := OrElse(names[j].asname, Split(names[j].name, '.')[0]);
      assert names[..j + 1][..j] == names[..j];
      assert prior + PlainBindings(names[..j + 1]) == prior + PlainBindings(names[..j]) + [(alias, names[j].name)];
      LastWinsSnoc(prior + PlainBindings(names[..j]), alias, names[j].name);
      updated := updated[alias := names[j].name];
    }
    assert names[..|names|] == names;
  }

  /** The inner loop over a `from` statement's names. */
  method AddFromBindings(ghost prior: seq<(string, (string, string))>, directImports: map<string, (string, string)>,
                         base: string, names: seq<Alias>)
    returns (updated: map<string, (string, string)>)
    requires directImports == LastWins(prior)
    ensures updated == LastWins(prior + FromBindings(base, names))
  {
    updated := directImports;
    assert prior + FromBindings(base, names[..0]) == prior;
    for j := 0 to |names|
      invariant updated == LastWins(prior + FromBindings(base, names[..j]))
    {
      var fnAlias := OrElse(names[j].asname, names[j].name);
      assert names[..j + 1][..j] == names[..j];
      assert prior + FromBindings(base, names[..j + 1]) == prior + FromBindings(base, names[..j]) + [(fnAlias, (base, names[j].name))];
      LastWinsSnoc(prior + FromBindings(base, names[..j]), fnAlias, (base, names[j].name));
      updated := updated[fnAlias := (base, names[j].name)];
    }
    assert names[..|names|] == names;
  }

  /** The alias tables of the first pass over the walk. */
  method BuildAliasTables(nodes: seq<Node>, relCurr: string)
    returns (aliasMap: map<string, string>, directImports: map<string, (string, string)>)
    ensures aliasMap == LastWins(ModuleAliases(nodes))
    ensures directImports == LastWins(FunctionAliases(nodes, relCurr))
  {
    aliasMap := map[];
    directImports := map[];
    for i := 0 to |nodes|
      invariant aliasMap == LastWins(ModuleAliases(nodes[..i]))
      invariant directImports == LastWins(FunctionAliases(nodes[..i], relCurr))
    {
      ModuleAliasesStep(nodes, i);
      FunctionAliasesStep(nodes, relCurr, i);
      match nodes[i]
      case Import(names) =>
        aliasMap := AddPlainBindings(ModuleAliases(nodes[..i]), aliasMap, names);
        assert FunctionAliases(nodes[..i], relCurr) + [] == FunctionAliases(nodes[..i], relCurr);
      case ImportFrom(moduleName, level, names) =>
        var base := ResolveFromBase(moduleName, level, relCurr);
        directImports := AddFromBindings(FunctionAliases(nodes[..i], relCurr), directImports, base, names);
        assert ModuleAliases(nodes[..i]) + [] == ModuleAliases(nodes[..i]);
      case _ =>
        assert ModuleAliases(nodes[..i]) + [] == ModuleAliases(nodes[..i]);
        assert FunctionAliases(nodes[..i], relCurr) + [] == FunctionAliases(nodes[..i], relCurr);
    }
    assert nodes[..|nodes|] == nodes;
  }

  /** The candidate pairs of the second pass over the walk. */
  method ScanCalls(nodes: seq<Node>, aliasMap: map<string, string>, directImports: map<string, (string, string)>)
    returns (calls: set<(string, string)>)
    ensures calls == CallsOf(nodes, aliasMap, directImports)
  {
    calls := {};
    for i := 0 to |nodes|
      invariant calls == CallsOf(nodes[..i], aliasMap, directImports)
    {
      assert nodes[..i + 1][..i] == nodes[..i];
      if nodes[i].Call? {
        var func := nodes[i].func;
        if func.Name? && func.id in directImports {
          calls := calls + {directImports[func.id]};
        } else if func.Attribute? && func.value.Name? {
          var modAlias := func.value.id;
          if modAlias in aliasMap {
            calls := calls + {(aliasMap[modAlias], func.attr)};
          }
        }
      }
    }
    assert nodes[..|nodes|] == nodes;
  }

  /** The last loop: keep each candidate pair defined in the project, in the set's (unspecified) order. */
  method ConfirmCalls(calls: set<(string, string)>, moduleMap: map<string, Path>, moduleFunctions: map<string, seq<string>>)
    returns (resolved: seq<FunctionUsage>)
    ensures forall u :: u in resolved <==> u in Confirmed(calls, moduleMap, moduleFunctions)
    ensures DistinctCalls(resolved)
  {
    resolved := [];
    var remaining := calls;
    ghost var done: set<(string, string)> := {};
    while remaining != {}
      decreases |remaining|
      invariant done + remaining == calls && done !! remaining
      invariant forall u :: u in resolved <==> Accepted(u, done, moduleMap, moduleFunctions)
      invariant DistinctCalls(resolved)
    {
      var call :| call in remaining;
      var mod, fn := call.0, call.1;
      if mod in moduleMap && fn in FunctionsOf(moduleFunctions, mod) {
        forall i | 0 <= i < |resolved|
          ensures (resolved[i].moduleName, resolved[i].functionName) != call
        {
          assert resolved[i] in resolved;
        }
        resolved := resolved + [FunctionUsage(mod, fn, moduleMap[mod])];
      }
      remaining := remaining - {call};
      done := done + {call};
    }
    forall u
      ensures u in resolved <==> u in Confirmed(calls, moduleMap, moduleFunctions)
    {
      ConfirmedMembers(u, calls, moduleMap, moduleFunctions);
    }
  }

  method ResolveFunctionUsages(fs: FileSystem, file: Path, moduleMap: map<string, Path>, root: Path,
                               moduleFunctions: map<string, seq<string>>)
    returns (resolved: seq<FunctionUsage>)
    ensures file !in fs || !fs[file].Parsed? || fs[file].needsDedent ==> resolved == []
    ensures forall u :: u in resolved <==> u in UsagesOf(fs, file, moduleMap, root, moduleFunctions)
    ensures DistinctCalls(resolved)
  {
    if file !in fs || !fs[file].Parsed? || fs[file].needsDedent {
      return [];
    }
    var nodes := fs[file].nodes;
    var relCurr := ModuleName(RelPath(file, root));
    var aliasMap, directImports := BuildAliasTables(nodes, relCurr);
    var calls := ScanCalls(nodes, aliasMap, directImports);

    resolved := ConfirmCalls(calls, moduleMap, moduleFunctions);
  }

  lemma {:induction false} PlainBindingsAt(names: seq<Alias>)
    ensures |PlainBindings(names)| == |names|
    ensures forall j :: 0 <= j < |names| ==> PlainBindings(names)[j] == (PlainBoundName(names[j]), names[j].name)
  {
    if names != [] {
      PlainBindingsAt(names[..|names| - 1]);
    }
  }

  lemma {:induction false} FromBindingsAt(base: string, names: seq<Alias>)
    ensures |FromBindings(base, names)| == |names|
    ensures forall j :: 0 <= j < |names| ==> FromBindings(base, names)[j] == (FromBoundName(names[j]), (base, names[j].name))
  {
    if names != [] {
      FromBindingsAt(base, names[..|names| - 1]);
    }
  }

  /** `import` statement `i` binds its `j`-th name. */
  predicate PlainBindingAt(nodes: seq<Node>, i: int, j: int)
  {
    0 <= i < |nodes| && nodes[i].Import? && 0 <= j < |nodes[i].names|
  }

  /** `from` statement `i` binds its `j`-th name. */
  predicate FromBindingAt(nodes: seq<Node>, i: int, j: int)
  {
    0 <= i < |nodes| && nodes[i].ImportFrom? && 0 <= j < |nodes[i].names|
  }

  /** Every `alias_map` assignment comes from one name of one `import` statement: bound name to full module. */
  lemma {:induction false} ModuleAliasesMembers(nodes: seq<Node>, b: (string, string))
    ensures b in ModuleAliases(nodes)
        <==> exists i, j :: PlainBindingAt(nodes, i, j)
               && b == (PlainBoundName(nodes[i].names[j]), nodes[i].names[j].name)
  {
    if b in ModuleAliases(nodes) {
      ModuleAliasesSound(nodes, b);
    }
    if exists i, j :: PlainBindingAt(nodes, i, j) && b == (PlainBoundName(nodes[i].names[j]), nodes[i].names[j].name) {
      var i, j :| PlainBindingAt(nodes, i, j) && b == (PlainBoundName(nodes[i].names[j]), nodes[i].names[j].name);
      ModuleAliasesComplete(nodes, i, j);
    }
  }

  lemma {:induction false} ModuleAliasesSound(nodes: seq<Node>, b: (string, string))
    requires b in ModuleAliases(nodes)
    ensures exists i, j :: PlainBindingAt(nodes, i, j)
              && b == (PlainBoundName(nodes[i].names[j]), nodes[i].names[j].name)
  {
    var n := |nodes|;
    var init := nodes[..n - 1];
    if b in ModuleAliases(init) {
      ModuleAliasesSound(init, b);
      var i, j :| PlainBindingAt(init, i, j) && b == (PlainBoundName(init[i].names[j]), init[i].names[j].name);
      assert init[i] == nodes[i];
      assert PlainBindingAt(nodes, i, j);
    } else {
      var names := nodes[n - 1].names;
      assert b in PlainBindings(names);
      PlainBindingsAt(names);
      var j :| 0 <= j < |names| && PlainBindings(names)[j] == b;
      assert PlainBindingAt(nodes, n - 1, j);
    }
  }

  lemma {:induction false} ModuleAliasesComplete(nodes: seq<Node>, i: int, j: int)
    requires PlainBindingAt(nodes, i, j)
    ensures (PlainBoundName(nodes[i].names[j]), nodes[i].names[j].name) in ModuleAliases(nodes)
  {
    var n := |nodes|;
    var init := nodes[..n - 1];
    var node := nodes[n - 1];
    var before := ModuleAliases(init);
    var added := if node.Import? then PlainBindings(node.names) else [];
    assert ModuleAliases(nodes) == before + added;
    if i < n - 1 {
      assert init[i] == nodes[i];
      ModuleAliasesComplete(init, i, j);
    } else {
      PlainBindingsAt(node.names);
      assert added[j] == (PlainBoundName(nodes[i].names[j]), nodes[i].names[j].name);
    }
  }

  /** The `direct_imports` assignment for the `j`-th name of `from` statement `node`. */
  function FromEntry(node: Node, j: nat, current: string): (string, (string, string))
    requires node.ImportFrom? && j < |node.names|
  {
    (FromBoundName(node.names[j]), (FromTarget(OrElse(node.moduleName, ""), node.level, current), node.names[j].name))
  }

  /**
   * Every `direct_imports` assignment comes from one name of one `from` statement: bound
   * name to the statement's resolved base and the original name.
   */
  lemma {:induction false} FunctionAliasesMembers(nodes: seq<Node>, current: string, b: (string, (string, string)))
    ensures b in FunctionAliases(nodes, current)
        <==> exists i, j :: FromBindingAt(nodes, i, j) && b == FromEntry(nodes[i], j, current)
  {
    if b in FunctionAliases(nodes, current) {
      FunctionAliasesSound(nodes, current, b);
    }
    if exists i, j :: FromBindingAt(nodes, i, j) && b == FromEntry(nodes[i], j, current) {
      var i, j :| FromBindingAt(nodes, i, j) && b == FromEntry(nodes[i], j, current);
      FunctionAliasesComplete(nodes, current, i, j);
    }
  }

  lemma {:induction false} FunctionAliasesSound(nodes: seq<Node>, current: string, b: (string, (string, string)))
    requires b in FunctionAliases(nodes, current)
    ensures exists i, j :: FromBindingAt(nodes, i, j) && b == FromEntry(nodes[i], j, current)
  {
    var n := |nodes|;
    var init := nodes[..n - 1];
    var node := nodes[n - 1];
    if b in FunctionAliases(init, current) {
      FunctionAliasesSound(init, current, b);
      var i, j :| FromBindingAt(init, i, j) && b == FromEntry(init[i], j, current);
      assert init[i] == nodes[i];
      assert FromBindingAt(nodes, i, j);
    } else {
      var base := FromTarget(OrElse(node.moduleName, ""), node.level, current);
      assert b in FromBindings(base, node.names);
      FromBindingsAt(base, node.names);
      var j :| 0 <= j < |node.names| && FromBindings(base, node.names)[j] == b;
      assert FromBindingAt(nodes, n - 1, j) && b == FromEntry(nodes[n - 1], j, current);
    }
  }

  lemma {:induction false} FunctionAliasesComplete(nodes: seq<Node>, current: string, i: int, j: int)
    requires FromBindingAt(nodes, i, j)
    ensures FromEntry(nodes[i], j, current) in FunctionAliases(nodes, current)
  {
    var n := |nodes|;
    var init := nodes[..n - 1];
    var before := FunctionAliases(init, current);
    if i < n - 1 {
      assert init[i] == nodes[i];
      FunctionAliasesComplete(init, current, i, j);
      FunctionAliasesGrow(nodes, current);
    } else {
      var node := nodes[n - 1];
      var base := FromTarget(OrElse(node.moduleName, ""), node.level, current);
      FromBindingsAt(base, node.names);
      assert FunctionAliases(nodes, current) == before + FromBindings(base, node.names);
      assert FromBindings(base, node.names)[j] == FromEntry(nodes[i], j, current);
    }
  }

  /** The direct-import assignments of a walk extend those of its prefix. */
  lemma FunctionAliasesGrow(nodes: seq<Node>, current: string)
    requires nodes != []
    ensures forall b :: b in FunctionAliases(nodes[..|nodes| - 1], current) ==> b in FunctionAliases(nodes, current)
  {
    var before := FunctionAliases(nodes[..|nodes| - 1], current);
    var node := nodes[|nodes| - 1];
    if node.ImportFrom? {
      assert FunctionAliases(nodes, current)
          == before + FromBindings(FromTarget(OrElse(node.moduleName, ""), node.level, current), node.names);
    } else {
      assert FunctionAliases(nodes, current) == before;
    }
  }

  /**
   * The module-alias table: a name is bound exactly when some `import` binds it, and it
   * maps to the full module of one of those imports.
   */
  lemma {:induction false} AliasMapEntries(nodes: seq<Node>, k: string)
    ensures k in LastWins(ModuleAliases(nodes))
        <==> exists i, j :: PlainBindingAt(nodes, i, j) && PlainBoundName(nodes[i].names[j]) == k
    ensures k in LastWins(ModuleAliases(nodes))
        ==> exists i, j :: PlainBindingAt(nodes, i, j) && PlainBoundName(nodes[i].names[j]) == k
              && LastWins(ModuleAliases(nodes))[k] == nodes[i].names[j].name
  {
    var bindings := ModuleAliases(nodes);
    LastWinsKeys(bindings, k);
    if k in LastWins(bindings) {
      LastWinsBinding(bindings, k);
      ModuleAliasesMembers(nodes, (k, LastWins(bindings)[k]));
    }
    if exists i, j :: PlainBindingAt(nodes, i, j) && PlainBoundName(nodes[i].names[j]) == k {
      var i, j :| PlainBindingAt(nodes, i, j) && PlainBoundName(nodes[i].names[j]) == k;
      var b := (k, nodes[i].names[j].name);
      ModuleAliasesMembers(nodes, b);
      var m :| 0 <= m < |bindings| && bindings[m] == b;
    }
  }

  /**
   * A later `import` overwrites: a name bound by the `j`-th name of `import` statement
   * `i` stands for that name's module when no later name of the same statement and no
   * name of a later `import` binds it again, whatever other nodes follow.
   */
  lemma {:induction false} ImportOverrides(nodes: seq<Node>, i: int, j: int)
    requires PlainBindingAt(nodes, i, j)
    requires forall j' :: j < j' < |nodes[i].names| ==> PlainBoundName(nodes[i].names[j']) != PlainBoundName(nodes[i].names[j])
    requires forall i', j' :: i < i' && PlainBindingAt(nodes, i', j') ==> PlainBoundName(nodes[i'].names[j']) != PlainBoundName(nodes[i].names[j])
    ensures PlainBoundName(nodes[i].names[j]) in LastWins(ModuleAliases(nodes))
    ensures LastWins(ModuleAliases(nodes))[PlainBoundName(nodes[i].names[j])] == nodes[i].names[j].name
  {
    var n := |nodes|;
    var init, last := nodes[..n - 1], nodes[n - 1];
    var prior := ModuleAliases(init);
    var k := PlainBoundName(nodes[i].names[j]);
    if i == n - 1 {
      var names := last.names;
      assert ModuleAliases(nodes) == prior + PlainBindings(names);
      PlainBindingsAt(names);
      LastWinsValue(prior + PlainBindings(names), |prior| + j);
    } else {
      assert init[i] == nodes[i];
      forall i', j' | i < i' && PlainBindingAt(init, i', j')
        ensures PlainBoundName(init[i'].names[j']) != PlainBoundName(init[i].names[j])
      {
        assert init[i'] == nodes[i'];
      }
      ImportOverrides(init, i, j);
      if last.Import? {
        var extra := PlainBindings(last.names);
        assert ModuleAliases(nodes) == prior + extra;
        PlainBindingsAt(last.names);
        forall m | 0 <= m < |extra|
          ensures extra[m].0 != k
        {
          assert PlainBindingAt(nodes, n - 1, m);
        }
        LastWinsKeep(prior, extra, k);
      } else {
        assert ModuleAliases(nodes) == prior;
      }
    }
  }

  /**
   * Likewise for `from` statements and the direct-import table: the `j`-th name of
   * `from` statement `i` gives the pair it binds when nothing later binds its name again.
   */
  lemma {:induction false} FromImportOverrides(nodes: seq<Node>, current: string, i: int, j: int)
    requires FromBindingAt(nodes, i, j)
    requires forall j' :: j < j' < |nodes[i].names| ==> FromBoundName(nodes[i].names[j']) != FromBoundName(nodes[i].names[j])
    requires forall i', j' :: i < i' && FromBindingAt(nodes, i', j') ==> FromBoundName(nodes[i'].names[j']) != FromBoundName(nodes[i].names[j])
    ensures FromBoundName(nodes[i].names[j]) in LastWins(FunctionAliases(nodes, current))
    ensures LastWins(FunctionAliases(nodes, current))[FromBoundName(nodes[i].names[j])]
         == (FromTarget(OrElse(nodes[i].moduleName, ""), nodes[i].level, current), nodes[i].names[j].name)
  {
    var n := |nodes|;
    var init, last := nodes[..n - 1], nodes[n - 1];
    var prior := FunctionAliases(init, current);
    var k := FromBoundName(nodes[i].names[j]);
    if i == n - 1 {
      var base := FromTarget(OrElse(last.moduleName, ""), last.level, current);
      assert FunctionAliases(nodes, current) == prior + FromBindings(base, last.names);
      FromBindingsAt(base, last.names);
      LastWinsValue(prior + FromBindings(base, last.names), |prior| + j);
    } else {
      assert init[i] == nodes[i];
      forall i', j' | i < i' && FromBindingAt(init, i', j')
        ensures FromBoundName(init[i'].names[j']) != FromBoundName(init[i].names[j])
      {
        assert init[i'] == nodes[i'];
      }
      FromImportOverrides(init, current, i, j);
      if last.ImportFrom? {
        var base := FromTarget(OrElse(last.moduleName, ""), last.level, current);
        var extra := FromBindings(base, last.names);
        assert FunctionAliases(nodes, current) == prior + extra;
        FromBindingsAt(base, last.names);
        forall m | 0 <= m < |extra|
          ensures extra[m].0 != k
        {
          assert FromBindingAt(nodes, n - 1, m);
        }
        LastWinsKeep(prior, extra, k);
      } else {
        assert FunctionAliases(nodes, current) == prior;
      }
    }
  }

  /** A pair is a candidate exactly when some call's callee yields it. */
  lemma {:induction false} CallsOfMembers(nodes: seq<Node>, aliasMap: map<string, string>,
                                          directImports: map<string, (string, string)>, c: (string, string))
    ensures c in CallsOf(nodes, aliasMap, directImports)
        <==> exists i :: 0 <= i < |nodes| && nodes[i].Call? && CalleeTarget(nodes[i].func, aliasMap, directImports) == Some(c)
  {
    if nodes != [] {
      var init := nodes[..|nodes| - 1];
      CallsOfMembers(init, aliasMap, directImports, c);
      if exists i :: 0 <= i < |init| && init[i].Call? && CalleeTarget(init[i].func, aliasMap, directImports) == Some(c) {
        var i :| 0 <= i < |init| && init[i].Call? && CalleeTarget(init[i].func, aliasMap, directImports) == Some(c);
        assert nodes[i] == init[i];
      }
      if exists i :: 0 <= i < |nodes| && nodes[i].Call? && CalleeTarget(nodes[i].func, aliasMap, directImports) == Some(c) {
        var i :| 0 <= i < |nodes| && nodes[i].Call? && CalleeTarget(nodes[i].func, aliasMap, directImports) == Some(c);
        if i < |init| {
          assert init[i] == nodes[i];
        }
      }
    }
  }

  /**
   * Every usage names a project module, a function that module defines, and that module's
   * path; no two usages share a (module, function) pair.
   */
  lemma {:induction false} UsagesConfirmed(fs: FileSystem, file: Path, moduleMap: map<string, Path>, root: Path,
                        moduleFunctions: map<string, seq<string>>, u: FunctionUsage, v: FunctionUsage)
    requires u in UsagesOf(fs, file, moduleMap, root, moduleFunctions)
    ensures u.moduleName in moduleMap && u.path == moduleMap[u.moduleName] && u.path in moduleMap.Values
    ensures u.functionName in FunctionsOf(moduleFunctions, u.moduleName)
    ensures (v in UsagesOf(fs, file, moduleMap, root, moduleFunctions)
              && (v.moduleName, v.functionName) == (u.moduleName, u.functionName)) ==> v == u
  {
  }

  lemma DottedAliasTable()
    ensures LastWins(ModuleAliases([Import([Alias("src.b", None)])])) == map["src" := "src.b"]
  {
    var alias := Alias("src.b", None);
    assert PlainBoundName(alias) == "src" by {
      var parts: seq<string> := ["src", "b"];
      assert Join(parts, '.') == "src.b" by {
        assert Join(parts[1..], '.') == "b";
      }
      SplitJoin(parts, '.');
    }
    var names, nodes := [alias], [Import([alias])];
    var bindings: seq<(string, string)> := [("src", "src.b")];
    assert PlainBindings(names) == bindings by {
      assert names[..0] == [];
    }
    assert ModuleAliases(nodes) == bindings by {
      assert nodes[..0] == [];
    }
    assert bindings[..0] == [];
    assert LastWins(bindings) == map["src" := "src.b"];
  }

  /**
   * `import src.b` binds `src` to `src.b`: the call `src.b.func()` has a callee whose
   * value is an attribute, not a name, and yields nothing, while `src.func()` is read
   * as a call of `func` in `src.b`.
   */
  lemma DottedImportCalls()
    ensures var aliasMap := LastWins(ModuleAliases([Import([Alias("src.b", None)])]));
            && CalleeTarget(Attribute(Attribute(Name("src"), "b"), "func"), aliasMap, map[]) == None
            && CalleeTarget(Attribute(Name("src"), "func"), aliasMap, map[]) == Some(("src.b", "func"))
  {
    DottedAliasTable();
  }

}
