/**
 * `build_dependency_graph` and `build_function_dependency_graph`: a depth-first walk
 * from an entry file that resolves each file once, records the result under the file,
 * and recurses into every file the result names. Each nested `dfs` closure, with the
 * `graph` and `visited` variables it captures, becomes a builder object whose `Dfs`
 * method updates those fields; the closure's `for` loop over the resolved list is the
 * builder's `VisitAll` method.
 */
module Graphs {
  import opened Wrappers
  import opened Collections
  import opened Paths
  import opened Syntax
  import opened Imports
  import opened ModuleDeps
  import opened Usages
  import opened Reachability

  /** `resolve_file_dependencies` as a function of the file alone. */
  function DependencyResolver(fs: FileSystem, moduleMap: map<string, Path>, root: Path): Path -> seq<Path>
  {
    f => FileDependencies(fs, f, moduleMap, root)
  }

  /** The resolver only ever names non-empty files of the module map. */
  lemma ResolverInProject(fs: FileSystem, moduleMap: map<string, Path>, root: Path)
    ensures forall f, p {:trigger p in DependencyResolver(fs, moduleMap, root)(f)} ::
              p in DependencyResolver(fs, moduleMap, root)(f) ==> p != "" && p in moduleMap.Values
  {
    forall f, p {:trigger p in DependencyResolver(fs, moduleMap, root)(f)} | p in DependencyResolver(fs, moduleMap, root)(f)
      ensures p != "" && p in moduleMap.Values
    {
      FileDependenciesInProject(fs, f, moduleMap, root, p);
    }
  }

  /** The graph whose edges lead from a file to each file its resolved list names. */
  function ListEdges(resolver: Path -> seq<Path>): Path -> set<Path>
  {
    f => Elements(resolver(f))
  }

  /** The edges of the import graph: a file points to each project file it imports. */
  function DependencyEdges(fs: FileSystem, moduleMap: map<string, Path>, root: Path): Path -> set<Path>
  {
    ListEdges(DependencyResolver(fs, moduleMap, root))
  }

  /** `resolve_function_usages` as a function of the file alone, with the order of its list forgotten. */
  function UsageResolver(fs: FileSystem, moduleMap: map<string, Path>, root: Path,
                         moduleFunctions: map<string, seq<string>>): Path -> set<FunctionUsage>
  {
    f => UsagesOf(fs, f, moduleMap, root, moduleFunctions)
  }

  /** The graph whose edges lead from a file to the file of each usage it resolves to. */
  function UsageTargets(resolver: Path -> set<FunctionUsage>): Path -> set<Path>
  {
    f => set u | u in resolver(f) :: u.path
  }

  /** The edges of the call graph: a file points to the file of each module whose functions it calls. */
  function UsageEdges(fs: FileSystem, moduleMap: map<string, Path>, root: Path,
                      moduleFunctions: map<string, seq<string>>): Path -> set<Path>
  {
    UsageTargets(UsageResolver(fs, moduleMap, root, moduleFunctions))
  }

  /** The state captured by the `dfs` closure of `build_dependency_graph`. */
  class DependencyGraphBuilder {
    const fs: FileSystem
    const moduleMap: map<string, Path>
    const root: Path
    ghost const entry: Path
    /** What `resolve_file_dependencies` returns for each file. */
    ghost const resolution: Path -> seq<Path>
    var graph: map<Path, seq<Path>>
    var visited: set<Path>
    /** The files resolved so far, in the order of their resolver calls. */
    ghost var resolved: seq<Path>

    /** Every file the walk can reach: the entry and the files of the module map. */
    ghost function Universe(): set<Path>
    {
      moduleMap.Values + {entry}
    }

    ghost function Edges(): Path -> set<Path>
    {
      ListEdges(resolution)
    }

    /** `resolution` is the resolver's specification, and it only ever names project files. */
    ghost predicate Wired()
    {
      && (forall f {:trigger FileDependencies(fs, f, moduleMap, root)} ::
            resolution(f) == FileDependencies(fs, f, moduleMap, root))
      && (forall f, p {:trigger p in resolution(f)} :: p in resolution(f) ==> p != "" && p in moduleMap.Values)
    }

    /** The keys are the visited files, each mapped to its resolved list; each visited file was resolved exactly once. */
    ghost predicate Valid()
      reads this
    {
      && graph.Keys == visited
      && Elements(resolved) == visited && NoDuplicates(resolved)
      && visited <= Universe()
      && (forall f :: f in graph ==> graph[f] == resolution(f))
    }

    constructor (fs: FileSystem, moduleMap: map<string, Path>, root: Path, ghost entry: Path)
      ensures this.fs == fs && this.moduleMap == moduleMap && this.root == root && this.entry == entry
      ensures resolution == DependencyResolver(fs, moduleMap, root)
      ensures Valid() && Wired() && visited == {} && resolved == []
    {
      this.fs := fs;
      this.moduleMap := moduleMap;
      this.root := root;
      this.entry := entry;
      this.resolution := DependencyResolver(fs, moduleMap, root);
      graph := map[];
      visited := {};
      resolved := [];
      new;
      ResolverInProject(fs, moduleMap, root);
    }

    /**
     * `dfs(file)`: a file already visited is skipped; otherwise it is resolved once, its
     * list recorded, and each listed file walked in turn. Every file newly visited is
     * reachable from `file` and has all of its edges inside the visited set.
     */
    method Dfs(file: Path)
      requires Valid() && Wired() && file in Universe() && file != ""
      modifies this
      ensures Valid()
      ensures old(visited) <= visited && file in visited
      ensures file in old(visited) ==> graph == old(graph) && visited == old(visited) && resolved == old(resolved)
      ensures forall g :: g in visited && g !in old(visited) ==> Reaches(Edges(), file, g)
      ensures forall g :: g in visited && g !in old(visited) ==> Elements(graph[g]) <= visited
      decreases Universe() - visited, 1
    {
      if file in visited {
        return;
      }
      visited := visited + {file};
      var deps := ResolveFileDependencies(fs, file, moduleMap, root);
      resolved := resolved + [file];
      graph := graph[file := deps];
      assert visited - {file} == old(visited);
      VisitAll(deps, file);
      ReachesSelf(Edges(), file);
    }

    /**
     * The loop `for dep_path in deps: dfs(dep_path)` over the resolved list `deps` of the
     * file `parent` being walked: every file newly visited is reachable from `parent`.
     */
    method VisitAll(deps: seq<Path>, ghost parent: Path)
      requires Valid() && Wired() && parent in visited && deps == resolution(parent)
      modifies this
      ensures Valid()
      ensures old(visited) <= visited
      ensures forall p :: p in deps ==> p in visited
      ensures forall g :: g in visited && g !in old(visited) ==> Reaches(Edges(), parent, g)
      ensures forall g :: g in visited && g !in old(visited) ==> Elements(graph[g]) <= visited
      decreases Universe() - (visited - {parent}), 0
    {
      for k := 0 to |deps|
        invariant Valid()
        invariant old(visited) <= visited
        invariant forall m :: 0 <= m < k ==> deps[m] in visited
        invariant forall g :: g in visited && g !in old(visited) ==> Reaches(Edges(), parent, g)
        invariant forall g :: g in visited && g !in old(visited) ==> Elements(graph[g]) <= visited
      {
        var dep := deps[k];
        assert dep in resolution(parent) && dep in Edges()(parent);
        ghost var before := visited;
        Dfs(dep);
        forall g | g in visited && g !in before
          ensures Reaches(Edges(), parent, g)
        {
          ReachesPrepend(Edges(), parent, dep, g);
        }
      }
    }
  }

  /**
   * The graph maps exactly the files reachable from the entry along import edges, each
   * to its resolved dependency list; the entry is a key and every listed file is a key.
   */
  method BuildDependencyGraph(entry: Path, fs: FileSystem, moduleMap: map<string, Path>, root: Path)
    returns (graph: map<Path, seq<Path>>)
    requires entry != ""
    ensures entry in graph
    ensures forall f :: f in graph ==> graph[f] == FileDependencies(fs, f, moduleMap, root)
    ensures forall f, g :: f in graph && g in graph[f] ==> g in graph
    ensures forall f :: f in graph <==> Reaches(DependencyEdges(fs, moduleMap, root), entry, f)
  {
    var builder := new DependencyGraphBuilder(fs, moduleMap, root, entry);
    builder.Dfs(entry);
    graph := builder.graph;
    ReachesSelf(builder.Edges(), entry);
    ReachableSet(builder.Edges(), entry, graph.Keys);
  }

  /** The state captured by the `dfs` closure of `build_function_dependency_graph`. */
  class FunctionGraphBuilder {
    const fs: FileSystem
    const moduleMap: map<string, Path>
    const root: Path
    const moduleFunctions: map<string, seq<string>>
    ghost const entry: Path
    /** The usages `resolve_function_usages` finds in each file. */
    ghost const usages: Path -> set<FunctionUsage>
    var funcGraph: map<Path, seq<FunctionUsage>>
    var visited: set<Path>
    /** The files resolved so far, in the order of their resolver calls. */
    ghost var resolved: seq<Path>

    /** Every file the walk can reach: the entry and the files of the module map. */
    ghost function Universe(): set<Path>
    {
      moduleMap.Values + {entry}
    }

    ghost function Edges(): Path -> set<Path>
    {
      UsageTargets(usages)
    }

    /** `usages` is the resolver's specification, and every usage it gives points at a project file. */
    ghost predicate Wired()
    {
      && (forall f {:trigger UsagesOf(fs, f, moduleMap, root, moduleFunctions)} ::
            usages(f) == UsagesOf(fs, f, moduleMap, root, moduleFunctions))
      && (forall f, u {:trigger u in usages(f)} :: u in usages(f) ==> u.path in moduleMap.Values)
    }

    /**
     * The keys are the visited files, each mapped to a duplicate-free list of exactly its
     * usages; each visited file was resolved exactly once.
     */
    ghost predicate Valid()
      reads this
    {
      && funcGraph.Keys == visited
      && Elements(resolved) == visited && NoDuplicates(resolved)
      && visited <= Universe()
      && (forall f, u :: f in funcGraph ==> (u in funcGraph[f] <==> u in usages(f)))
      && (forall f :: f in funcGraph ==> DistinctCalls(funcGraph[f]))
    }

    constructor (fs: FileSystem, moduleMap: map<string, Path>, root: Path,
                 moduleFunctions: map<string, seq<string>>, ghost entry: Path)
      ensures this.fs == fs && this.moduleMap == moduleMap && this.root == root
      ensures this.moduleFunctions == moduleFunctions && this.entry == entry
      ensures usages == UsageResolver(fs, moduleMap, root, moduleFunctions)
      ensures Valid() && Wired() && visited == {} && resolved == []
    {
      this.fs := fs;
      this.moduleMap := moduleMap;
      this.root := root;
      this.moduleFunctions := moduleFunctions;
      this.entry := entry;
      this.usages := UsageResolver(fs, moduleMap, root, moduleFunctions);
      funcGraph := map[];
      visited := {};
      resolved := [];
      new;
      forall f, u | u in usages(f)
        ensures u.path in moduleMap.Values
      {
        UsagesConfirmed(fs, f, moduleMap, root, moduleFunctions, u, u);
      }
    }

    /**
     * `dfs(file)`: a file already visited is skipped; otherwise its usages are resolved
     * once, recorded, and the file of each usage walked in turn. Every file newly visited
     * is reachable from `file` and has the files of all its usages inside the visited set.
     */
    method Dfs(file: Path)
      requires Valid() && Wired() && file in Universe()
      modifies this
      ensures Valid()
      ensures old(visited) <= visited && file in visited
      ensures file in old(visited) ==> funcGraph == old(funcGraph) && visited == old(visited) && resolved == old(resolved)
      ensures forall g :: g in visited && g !in old(visited) ==> Reaches(Edges(), file, g)
      ensures forall g :: g in visited && g !in old(visited) ==> Edges()(g) <= visited
      decreases Universe() - visited, 1
    {
      if file in visited {
        return;
      }
      visited := visited + {file};
      var found := ResolveFunctionUsages(fs, file, moduleMap, root, moduleFunctions);
      resolved := resolved + [file];
      funcGraph := funcGraph[file := found];
      assert forall u :: u in found <==> u in usages(file);
      assert visited - {file} == old(visited);
      VisitAll(found, file);
      ReachesSelf(Edges(), file);
      forall p | p in Edges()(file)
        ensures p in visited
      {
        var u :| u in usages(file) && u.path == p;
        assert u in found;
      }
    }

    /**
     * The loop `for usage in usages: dfs(usage["path"])` over the usages `found` of the
     * file `parent` being walked: every file newly visited is reachable from `parent`.
     */
    method VisitAll(found: seq<FunctionUsage>, ghost parent: Path)
      requires Valid() && Wired() && parent in visited
      requires forall u :: u in found ==> u in usages(parent)
      modifies this
      ensures Valid()
      ensures old(visited) <= visited
      ensures forall u :: u in found ==> u.path in visited
      ensures forall g :: g in visited && g !in old(visited) ==> Reaches(Edges(), parent, g)
      ensures forall g :: g in visited && g !in old(visited) ==> Edges()(g) <= visited
      decreases Universe() - (visited - {parent}), 0
    {
      for k := 0 to |found|
        invariant Valid()
        invariant old(visited) <= visited
        invariant forall m :: 0 <= m < k ==> found[m].path in visited
        invariant forall g :: g in visited && g !in old(visited) ==> Reaches(Edges(), parent, g)
        invariant forall g :: g in visited && g !in old(visited) ==> Edges()(g) <= visited
      {
        var dep := found[k].path;
        assert found[k] in usages(parent) && dep in Edges()(parent);
        ghost var before := visited;
        Dfs(dep);
        forall g | g in visited && g !in before
          ensures Reaches(Edges(), parent, g)
        {
          ReachesPrepend(Edges(), parent, dep, g);
        }
      }
    }
  }

  /**
   * The graph maps exactly the files reachable from the entry along call edges, each to
   * a duplicate-free list of its usages; the entry is a key and so is every usage's file.
   */
  method BuildFunctionDependencyGraph(entry: Path, fs: FileSystem, moduleMap: map<string, Path>, root: Path,
                                      moduleFunctions: map<string, seq<string>>)
    returns (funcGraph: map<Path, seq<FunctionUsage>>)
    ensures entry in funcGraph
    ensures forall f, u :: f in funcGraph ==>
              (u in funcGraph[f] <==> u in UsagesOf(fs, f, moduleMap, root, moduleFunctions))
    ensures forall f :: f in funcGraph ==> DistinctCalls(funcGraph[f])
    ensures forall f, u :: f in funcGraph && u in funcGraph[f] ==> u.path in funcGraph
    ensures forall f :: f in funcGraph <==> Reaches(UsageEdges(fs, moduleMap, root, moduleFunctions), entry, f)
  {
    var builder := new FunctionGraphBuilder(fs, moduleMap, root, moduleFunctions, entry);
    builder.Dfs(entry);
    funcGraph := builder.funcGraph;
    ReachesSelf(builder.Edges(), entry);
    ReachableSet(builder.Edges(), entry, funcGraph.Keys);
    forall f, u | f in funcGraph && u in funcGraph[f]
      ensures u.path in funcGraph
    {
      assert u.path in builder.Edges()(f);
    }
  }

  /** The two-file project of the graph test: `src/app.py` imports `src.b`, and `src/b.py` defines `func`. */
  function SampleFiles(): FileSystem
  {
    map["proj/src/app.py" := Parsed([Import([Alias("src.b", None)])], false),
        "proj/src/b.py" := Parsed([FunctionDef("func")], false)]
  }

  function SampleModules(): map<string, Path>
  {
    map["src.app" := "proj/src/app.py", "src.b" := "proj/src/b.py"]
  }

  /** `app.py` depends on `b.py` alone. */
  lemma SampleDependencies()
    ensures FileDependencies(SampleFiles(), "proj/src/app.py", SampleModules(), "proj") == ["proj/src/b.py"]
  {
    var deps := [PlainImport("src.b", None)];
    assert ReportOf(SampleFiles(), "proj/src/app.py").Dependencies() == deps by {
      var nodes := [Import([Alias("src.b", None)])];
      assert nodes[..0] == [] && [Alias("src.b", None)][..0] == [];
      assert PlainRecords([Alias("src.b", None)]) == deps;
      assert DependenciesOf(nodes) == deps;
    }
    OnePlainImport("src.b", None, CurrentModule("proj/src/app.py", "proj"), SampleModules());
  }

  /** A file whose one import names a module of the project depends on that module's file alone. */
  lemma OnePlainImport(name: string, asname: Option<string>, current: string, moduleMap: map<string, Path>)
    requires name in moduleMap && moduleMap[name] != ""
    ensures InternalFiles([PlainImport(name, asname)], current, moduleMap) == [moduleMap[name]]
  {
    assert [PlainImport(name, asname)][..0] == [];
  }

  /** `app.py` calls none of the functions it could reach. */
  lemma SampleUsages()
    ensures UsagesOf(SampleFiles(), "proj/src/app.py", SampleModules(), "proj", map["src.app" := [], "src.b" := ["func"]]) == {}
  {
    NoCallNoUsages(SampleFiles(), "proj/src/app.py", SampleModules(), "proj",
                   map["src.app" := [], "src.b" := ["func"]], Import([Alias("src.b", None)]));
  }

  /** A parsed file whose one node is not a call uses no function. */
  lemma NoCallNoUsages(fs: FileSystem, file: Path, moduleMap: map<string, Path>, root: Path,
                       moduleFunctions: map<string, seq<string>>, node: Node)
    requires file in fs && fs[file] == Parsed([node], false) && !node.Call?
    ensures UsagesOf(fs, file, moduleMap, root, moduleFunctions) == {}
  {
    var nodes := [node];
    assert nodes[..0] == [];
    var current := CurrentModule(file, root);
    assert CallsOf(nodes, LastWins(ModuleAliases(nodes)), LastWins(FunctionAliases(nodes, current))) == {};
  }

  /**
   * The graph test: the dependency graph from `app.py` lists `b.py` under `app.py`, and
   * the function graph maps `app.py` to an empty list because it makes no calls.
   */
  method SampleGraphs() returns (graph: map<Path, seq<Path>>, funcGraph: map<Path, seq<FunctionUsage>>)
    ensures "proj/src/app.py" in graph && "proj/src/b.py" in graph["proj/src/app.py"]
    ensures "proj/src/app.py" in funcGraph && funcGraph["proj/src/app.py"] == []
  {
    var fs, modules := SampleFiles(), SampleModules();
    var moduleFunctions := map["src.app" := [], "src.b" := ["func"]];
    var app := "proj/src/app.py";
    SampleDependencies();
    SampleUsages();
    graph := BuildDependencyGraph(app, fs, modules, "proj");
    assert graph[app] == FileDependencies(fs, app, modules, "proj");
    funcGraph := BuildFunctionDependencyGraph(app, fs, modules, "proj", moduleFunctions);
    ElementsEmpty(funcGraph[app]);
  }
}
