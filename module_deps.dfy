/**
 * `resolve_file_dependencies`: the project files one file imports, found by turning
 * each import record into a module name and looking it up in the module map.
 * Names the map does not hold are external and dropped; each path is kept once,
 * in the order its first record appears.
 */
module ModuleDeps {
  import opened Strings
  import opened Collections
  import opened Paths
  import opened Syntax
  import opened Imports
  import opened Relative

  /** The module an import record refers to, seen from module `current`. */
  function TargetModule(dep: Dependency, current: string): string
  {
    match dep
    case PlainImport(name, _) => name
    case FromImport(name, level, _) => FromTarget(name, if level.Some? then level.value else 0, current)
  }

  /** `module_map.get(name)` as the truth test `if path` sees it: a missing name gives the falsy `""`. */
  function Lookup(moduleMap: map<string, Path>, name: string): Path
  {
    if name in moduleMap then moduleMap[name] else ""
  }

  /** The list `internal_files` after the loop has seen `deps`. */
  function InternalFiles(deps: seq<Dependency>, current: string, moduleMap: map<string, Path>): seq<Path>
  {
    if deps == [] then []
    else
      var before := InternalFiles(deps[..|deps| - 1], current, moduleMap);
      var path := Lookup(moduleMap, TargetModule(deps[|deps| - 1], current));
      if path != "" && path !in before then before + [path] else before
  }

  /** What `resolve_file_dependencies(file, module_map, root_dir)` returns. */
  function FileDependencies(fs: FileSystem, file: Path, moduleMap: map<string, Path>, root: Path): seq<Path>
  {
    InternalFiles(ReportOf(fs, file).Dependencies(), CurrentModule(file, root), moduleMap)
  }

  /** The module-name step of the loop in `resolve_file_dependencies`. */
  method ResolveModuleName(dep: Dependency, relCurr: string) returns (modName: string)
    ensures modName == TargetModule(dep, relCurr)
  {
    match dep
    case PlainImport(name, _) =>
      modName := name;
    case FromImport(name, levelEntry, _) =>
      var level := if levelEntry.Some? then levelEntry.value else 0;
      var base := name;
      if level > 0 {
        var parts := DropLast(Split(relCurr, '.'), level);
        if base != "" {
          parts := parts + Split(base, '.');
        }
        modName := Join(parts, '.');
      } else {
        modName := base;
      }
  }

  /** `os.path.relpath` raises `ValueError` for the empty path, so callers never pass it. */
  method ResolveFileDependencies(fs: FileSystem, file: Path, moduleMap: map<string, Path>, root: Path)
    returns (internalFiles: seq<Path>)
    requires file != ""
    ensures internalFiles == FileDependencies(fs, file, moduleMap, root)
  {
    var depsInfo := ExtractDependencies(fs, file);
    var relCurr := ModuleName(RelPath(file, root));
    internalFiles := CollectInternalFiles(depsInfo.Dependencies(), relCurr, moduleMap);
  }

  /** The loop of `resolve_file_dependencies` over the extracted records. */
  method CollectInternalFiles(deps: seq<Dependency>, relCurr: string, moduleMap: map<string, Path>)
    returns (internalFiles: seq<Path>)
    ensures internalFiles == InternalFiles(deps, relCurr, moduleMap)
  {
    internalFiles := [];
    var seen: set<Path> := {};
    for i := 0 to |deps|
      invariant internalFiles == InternalFiles(deps[..i], relCurr, moduleMap)
      invariant forall p :: p in seen <==> p in internalFiles
    {
      var modName := ResolveModuleName(deps[i], relCurr);
      InternalFilesStep(deps, relCurr, moduleMap, i);
      var path := Lookup(moduleMap, modName);
      if path != "" && path !in seen {
        seen := seen + {path};
        internalFiles := internalFiles + [path];
      }
    }
    assert deps[..|deps|] == deps;
  }

  lemma {:induction false} InternalFilesStep(deps: seq<Dependency>, current: string, moduleMap: map<string, Path>, i: nat)
    requires i < |deps|
    ensures var before := InternalFiles(deps[..i], current, moduleMap);
            var path := Lookup(moduleMap, TargetModule(deps[i], current));
            InternalFiles(deps[..i + 1], current, moduleMap)
              == if path != "" && path !in before then before + [path] else before
  {
    assert deps[..i + 1][..i] == deps[..i];
  }

  /**
   * A path is listed exactly when it is non-empty and some record's module resolves
   * to it; every listed path is therefore a value of the module map.
   */
  lemma {:induction false} InternalFilesMembers(deps: seq<Dependency>, current: string, moduleMap: map<string, Path>, p: Path)
    ensures p in InternalFiles(deps, current, moduleMap)
        <==> p != "" && exists k :: 0 <= k < |deps| && Lookup(moduleMap, TargetModule(deps[k], current)) == p
    ensures p in InternalFiles(deps, current, moduleMap) ==> p in moduleMap.Values
  {
    if deps != [] {
      var init := deps[..|deps| - 1];
      InternalFilesMembers(init, current, moduleMap, p);
      if exists k :: 0 <= k < |deps| && Lookup(moduleMap, TargetModule(deps[k], current)) == p {
        var k :| 0 <= k < |deps| && Lookup(moduleMap, TargetModule(deps[k], current)) == p;
        if k < |init| {
          assert init[k] == deps[k];
        }
      }
      if exists k :: 0 <= k < |init| && Lookup(moduleMap, TargetModule(init[k], current)) == p {
        var k :| 0 <= k < |init| && Lookup(moduleMap, TargetModule(init[k], current)) == p;
        assert deps[k] == init[k];
      }
    }
  }

  /** No path is listed twice. */
  lemma {:induction false} InternalFilesNoDuplicates(deps: seq<Dependency>, current: string, moduleMap: map<string, Path>)
    ensures NoDuplicates(InternalFiles(deps, current, moduleMap))
  {
    if deps != [] {
      InternalFilesNoDuplicates(deps[..|deps| - 1], current, moduleMap);
    }
  }

  /**
   * Paths are listed in the order of their first records: any record that resolves to
   * the path listed at `j` comes after some record resolving to the path listed at an
   * earlier position `i`.
   */
  lemma {:induction false} InternalFilesFirstSeen(deps: seq<Dependency>, current: string, moduleMap: map<string, Path>, i: nat, j: nat, k: nat)
    requires i < j < |InternalFiles(deps, current, moduleMap)|
    requires k < |deps| && Lookup(moduleMap, TargetModule(deps[k], current)) == InternalFiles(deps, current, moduleMap)[j]
    ensures exists k' :: 0 <= k' < k && Lookup(moduleMap, TargetModule(deps[k'], current)) == InternalFiles(deps, current, moduleMap)[i]
  {
    var n := |deps|;
    var init := deps[..n - 1];
    var before := InternalFiles(init, current, moduleMap);
    var r := InternalFiles(deps, current, moduleMap);
    var target := r[j];
    var earlier := r[i];
    assert forall m :: 0 <= m < n - 1 ==> init[m] == deps[m];
    if j < |before| {
      assert r[j] == before[j] && r[i] == before[i];
      if k < n - 1 {
        InternalFilesFirstSeen(init, current, moduleMap, i, j, k);
        var k' :| 0 <= k' < k && Lookup(moduleMap, TargetModule(init[k'], current)) == before[i];
      } else {
        InternalFilesMembers(init, current, moduleMap, target);
        var k0 :| 0 <= k0 < n - 1 && Lookup(moduleMap, TargetModule(init[k0], current)) == target;
        InternalFilesFirstSeen(init, current, moduleMap, i, j, k0);
        var k' :| 0 <= k' < k0 && Lookup(moduleMap, TargetModule(init[k'], current)) == before[i];
      }
    } else {
      assert r == before + [target] && target !in before && target != "";
      InternalFilesMembers(init, current, moduleMap, target);
      assert k == n - 1;
      InternalFilesMembers(init, current, moduleMap, earlier);
      assert earlier in before by { assert before[i] == earlier; }
      var k' :| 0 <= k' < n - 1 && Lookup(moduleMap, TargetModule(init[k'], current)) == earlier;
    }
  }

  /** Every file a file depends on is a non-empty value of the module map. */
  lemma {:induction false} FileDependenciesInProject(fs: FileSystem, file: Path, moduleMap: map<string, Path>, root: Path, p: Path)
    requires p in FileDependencies(fs, file, moduleMap, root)
    ensures p != "" && p in moduleMap.Values
  {
    InternalFilesMembers(ReportOf(fs, file).Dependencies(), CurrentModule(file, root), moduleMap, p);
  }
}
