# PyMesh dependency mapper, modelled in Dafny

PyMesh maps a Python project. The module `dependency_mapper` turns a project into
two graphs:

- the **import graph**: which project files each file imports;
- the **call graph**: which functions of other project modules each file calls.

It builds them in six steps:

1. `discover_modules` walks the project directory. It maps every eligible `.py`
   file's dotted module name (`src.app`) to its path.
2. `extract_dependencies` reads and parses one file. It lists its `import` and
   `from ... import` statements as records.
3. `resolve_file_dependencies` turns those records into module names and looks
   them up in the module map. Relative imports are resolved against the file's own
   module name. The result is the deduplicated list of project files the file
   imports, in order of first mention.
4. `build_dependency_graph` walks depth-first from an entry file. It resolves each
   reached file once and records its list.
5. `extract_defined_functions` lists the names of a file's `def` statements.
   `resolve_function_usages` builds two alias tables from a file's imports. It then
   collects every call `f()` or `m.f()` that goes through them. It keeps the
   (module, function) pairs whose module is in the project and defines the function.
6. `build_function_dependency_graph` walks depth-first from the entry along those
   usages.

The same file exists as `pymesh/dependency_mapper.py` and
`utils/dependency_mapper.py`. The two are identical, so the table below cites the
first.

Python's own operations are written out explicitly:

- `str.split`, `str.join`, `str.replace`, `str.endswith` and the slice `s[:-n]`
  (module `Strings`);
- `os.path.join` and `os.path.relpath` for the paths the walk builds (module
  `Paths`);
- dictionary assignment, where a later key wins (`Collections.LastWins`);
- `dict.get` with the falsy empty path (`ModuleDeps.Lookup`);
- `x or default` (`Wrappers.OrElse`).

The file system is a map from path to file outcome (`Syntax.Source`). A file is
missing, unreadable, unparsable, or parsed. A parsed file carries its syntax-tree
nodes in the order `ast.walk` yields them. It also records whether it parses only
after `textwrap.dedent`. The file resolver and the function extractor dedent;
the usage resolver does not.

Each extractor is a specification function plus a method with the source's loops.
The method's `ensures` ties its result to the function. Lemmas then state what the
function promises: membership in both directions, order, no duplicates, last
binding wins, and the error paths.

Each of the two graph walks is a class. Its fields are the `graph` and `visited`
variables that the nested `dfs` closure captures. `Dfs` is the closure, and
`VisitAll` is its loop. A ghost log records each file as it is resolved, and the
class invariant keeps that log free of repeats, so no file is resolved twice. The
builders are proved against a ghost specification of the resolver. The builder methods state the final graph outright:

- its keys are exactly the files reachable from the entry along the graph's edges;
- each key maps to exactly that file's resolved list.

## Model

| member | source | states |
|---|---|---|
| Strings.Split | pymesh/dependency_mapper.py:157 | `str.split` never returns an empty list |
| Strings.SplitPartsWithoutSep | pymesh/dependency_mapper.py:157 | no piece of a split contains the separator |
| Strings.JoinSplit | pymesh/dependency_mapper.py:157-160 | joining the pieces of a split with the same separator gives back the string |
| Strings.SplitJoin | pymesh/dependency_mapper.py:157-160 | splitting a join of separator-free pieces gives back the pieces |
| Strings.JoinAppend | pymesh/dependency_mapper.py:159-160 | joining two non-empty lists puts one separator between the two joins |
| Strings.ReplaceJoin | pymesh/dependency_mapper.py:123 | replacing the separator in a join of separator-free pieces is joining them with the new character |
| Paths.RelPathOfJoin | pymesh/dependency_mapper.py:120-122 | `relpath` of a path joined under a non-empty root gives back the relative part |
| Paths.WalkPathIsJoin | pymesh/dependency_mapper.py:111-120 | the path the walk builds through proper directory names is the root joined with those names and `/` |
| Paths.ModuleNameOfComponents | pymesh/dependency_mapper.py:123 | the module name of a relative `.py` path is its directories and its stem, joined with dots |
| Collections.LastWinsKeys | pymesh/dependency_mapper.py:124 | after a run of dictionary assignments, a key is present exactly when some assignment names it |
| Collections.LastWinsValue | pymesh/dependency_mapper.py:124 | a key holds the value of the last assignment to it |
| Collections.LastWinsBinding | pymesh/dependency_mapper.py:287 | every entry of the dictionary is one of the assignments made |
| Discovery.DiscoverModules | pymesh/dependency_mapper.py:99-126 | the walk loop produces the module map of the included files, a later file overwriting an earlier one with the same module name |
| Discovery.DiscoveredKeys | pymesh/dependency_mapper.py:113-124 | a name is a key exactly when some file is reached outside the ignored directories, is not an ignored file, ends in `.py` and has that module name |
| Discovery.DiscoveredLastWins | pymesh/dependency_mapper.py:124 | a module name maps to the path of the last included file with that name |
| Discovery.DiscoveredSelfNamed | pymesh/dependency_mapper.py:122-124 | for every path in the map, computing the current module name from it (as the resolvers do) gives back its own key |
| Discovery.EntryModuleName | pymesh/dependency_mapper.py:120-123 | under a non-empty root, a file's module name is its directory names and its `.py`-less name, joined with dots |
| Discovery.DiscoverTwoModules | tests/test_discover.py:5-19 | `src/a.py` and `src/b.py` under the project give exactly the keys `src.a` and `src.b` |
| Imports.ExtractDependencies | pymesh/dependency_mapper.py:12-95 | a missing file, a read error and a syntax error each give their error with no dependencies; a parsed file gives its records in walk order |
| Imports.NodeRecords | pymesh/dependency_mapper.py:55-90 | one node's records: one per name of an `import`, one per `from` statement, none for any other node |
| Imports.ImportRecordAt | pymesh/dependency_mapper.py:55-64 | the `j`-th name of an `import` at walk position `i` gives a record with its name and alias, right after the records of the earlier nodes |
| Imports.FromImportRecordAt | pymesh/dependency_mapper.py:67-90 | a `from` statement gives exactly one record: its module or `""`, its names in order, and a level exactly when the level is positive |
| Imports.DependenciesCount | pymesh/dependency_mapper.py:53-90 | the number of records is the number of plain-import names plus the number of `from` statements, so no other node contributes |
| Imports.DependenciesOfAppend | pymesh/dependency_mapper.py:53 | the records of two consecutive stretches of the walk are the records of the first followed by those of the second |
| Imports.ParsingExample | tests/test_parsing.py:17-30 | `import os`, `from math import sqrt, sin as sine` and `from .helper import util` give the records `os`, `math` (no level) and `helper` (level 1) |
| Functions.ExtractDefinedFunctions | pymesh/dependency_mapper.py:225-254 | a file that cannot be read or parsed gives `[]`; a parsed file gives the names of its `def` nodes in walk order |
| Functions.DefinedFunctionsMembers | pymesh/dependency_mapper.py:250-253 | a name is listed exactly when some node of the walk is a non-async `def` of that name |
| Functions.DefinedFunctionsCount | pymesh/dependency_mapper.py:249-253 | the list has one entry per `def` node, so duplicates are kept |
| Functions.DefinedFunctionsExample | tests/test_parsing.py:5-14 | a module with `def foo` and `def bar` (and an `async def`) yields exactly `["foo", "bar"]` |
| Relative.RelativeAboveTop | pymesh/dependency_mapper.py:156-160 | a level at least the number of components of the current module leaves only the base |
| Relative.RelativeWithinPackage | pymesh/dependency_mapper.py:156-160 | a smaller positive level resolves to a dotted prefix of the current module, followed by the base when there is one |
| Relative.RelativeComposes | pymesh/dependency_mapper.py:157 | climbing `a` levels and then `b` more is climbing `a + b` levels |
| Relative.RelativeParentExample | pymesh/dependency_mapper.py:156-160 | from `pkg.sub.mod`, level 2 with no base names `pkg` |
| Relative.RelativeSiblingExample | pymesh/dependency_mapper.py:156-160 | from `src.app`, `from .helper` names `src.helper` |
| ModuleDeps.ResolveModuleName | pymesh/dependency_mapper.py:151-162 | the module name of one record: the name of a plain import, the base of an absolute from-import, the climbed and extended name of a relative one |
| ModuleDeps.ResolveFileDependencies | pymesh/dependency_mapper.py:129-176 | for a non-empty path, the result is the resolved list of the file's records, an extraction error giving `[]` |
| ModuleDeps.CollectInternalFiles | pymesh/dependency_mapper.py:143-168 | the loop with its `seen` set computes the internal-file list |
| ModuleDeps.InternalFilesMembers | pymesh/dependency_mapper.py:164-168 | a path is listed exactly when it is non-empty and some record's module maps to it; every listed path is a value of the module map |
| ModuleDeps.InternalFilesNoDuplicates | pymesh/dependency_mapper.py:164-168 | no path is listed twice |
| ModuleDeps.InternalFilesFirstSeen | pymesh/dependency_mapper.py:164-168 | paths are listed in the order of their first records |
| ModuleDeps.FileDependenciesInProject | pymesh/dependency_mapper.py:165-168 | every file a file depends on is a non-empty path of the module map |
| Usages.ResolveFromBase | pymesh/dependency_mapper.py:289-297 | a `from` statement's base is resolved with the same arithmetic as the file resolver's |
| Usages.AddPlainBindings | pymesh/dependency_mapper.py:285-287 | each name of an `import` binds its `as` name, or else its first dotted segment, to the full module, in order |
| Usages.AddFromBindings | pymesh/dependency_mapper.py:298-300 | each name of a `from` statement binds its `as` name, or else itself, to the resolved base and the original name, in order |
| Usages.BuildAliasTables | pymesh/dependency_mapper.py:277-300 | the first pass over the walk fills both alias tables, a later binding overwriting an earlier one |
| Usages.ScanCalls | pymesh/dependency_mapper.py:302-314 | the second pass collects, for every call, the pair its callee yields through the complete tables |
| Usages.ConfirmCalls | pymesh/dependency_mapper.py:316-320 | in whatever order the set is iterated, the result holds exactly the candidates defined in the project, each with its module's path, and no pair twice |
| Usages.ResolveFunctionUsages | pymesh/dependency_mapper.py:256-327 | a missing, unreadable or unparsable file, or one that parses only after dedenting, gives `[]`; otherwise the list holds exactly the file's usages, no pair twice |
| Usages.ConfirmedMembers | pymesh/dependency_mapper.py:318-320 | a usage is kept exactly when its pair is a candidate, its module is in the map and defines the function, and its path is the module's |
| Usages.ModuleAliasesMembers | pymesh/dependency_mapper.py:284-287 | every module-alias assignment comes from one name of one `import`, and every such name makes one |
| Usages.FunctionAliasesMembers | pymesh/dependency_mapper.py:289-300 | every direct-import assignment comes from one name of one `from` statement, and every such name makes one |
| Usages.AliasMapEntries | pymesh/dependency_mapper.py:284-287 | a name is in the module-alias table exactly when some `import` binds it, and it maps to the full module of one of those imports |
| Usages.ImportOverrides | pymesh/dependency_mapper.py:284-287 | a name bound by an `import` maps to that name's full module when no later name of the statement and no later `import` binds it again, whatever nodes follow |
| Usages.FromImportOverrides | pymesh/dependency_mapper.py:289-300 | a name bound by a `from` statement maps to its resolved base and original name when no later name of the statement and no later `from` statement binds it again, whatever nodes follow |
| Usages.CallsOfMembers | pymesh/dependency_mapper.py:303-314 | a pair is a candidate exactly when some call's callee yields it |
| Usages.UsagesConfirmed | pymesh/dependency_mapper.py:317-320 | every usage names a project module, a function that module defines and that module's path; two usages with the same pair are equal |
| Usages.DottedAliasTable | pymesh/dependency_mapper.py:286-287 | `import src.b` binds `src` to `src.b` |
| Usages.DottedImportCalls | pymesh/dependency_mapper.py:306-314 | after `import src.b`, the call `src.b.func()` yields nothing, while `src.func()` is read as a call of `func` in `src.b` |
| Reachability.ClosedContainsReachable | pymesh/dependency_mapper.py:187-194 | a set closed under the edges that holds a file holds everything reachable from it |
| Reachability.ReachableSet | pymesh/dependency_mapper.py:187-197 | a closed set that holds the start and whose members are all reachable from it is exactly the reachable set |
| Graphs.DependencyGraphBuilder.constructor | pymesh/dependency_mapper.py:184-185 | the walk starts with an empty graph and nothing visited |
| Graphs.DependencyGraphBuilder.Dfs | pymesh/dependency_mapper.py:187-194 | a visited file changes nothing, not even the log of resolved files; otherwise the file becomes visited and is resolved once, the log holding each visited file exactly once, and every newly visited file is reachable from it, is mapped to its resolved list, and has all its listed files visited |
| Graphs.DependencyGraphBuilder.VisitAll | pymesh/dependency_mapper.py:193-194 | walking the resolved list of the file being visited leaves every listed file visited, every newly visited file reachable from that file, and the listed files of each newly visited file visited |
| Graphs.BuildDependencyGraph | pymesh/dependency_mapper.py:179-197 | for a non-empty entry, the graph holds the entry; its keys are exactly the files reachable from the entry along import edges, each mapped to its resolved list, and every listed file is a key |
| Graphs.FunctionGraphBuilder.constructor | pymesh/dependency_mapper.py:339-340 | the walk starts with an empty graph and nothing visited |
| Graphs.FunctionGraphBuilder.Dfs | pymesh/dependency_mapper.py:342-355 | a visited file changes nothing, not even the log of resolved files; otherwise the file becomes visited and is resolved once, the log holding each visited file exactly once, and every newly visited file is reachable from it, is mapped to exactly its usages, and has the files of all its usages visited |
| Graphs.FunctionGraphBuilder.VisitAll | pymesh/dependency_mapper.py:354-355 | walking the usages of the file being visited leaves the file of every usage visited, every newly visited file reachable from that file, and the usage files of each newly visited file visited |
| Graphs.BuildFunctionDependencyGraph | pymesh/dependency_mapper.py:330-358 | the graph holds the entry; its keys are exactly the files reachable along call edges, each mapped to a duplicate-free list of exactly its usages, and the file of every usage is a key |
| Graphs.OnePlainImport | pymesh/dependency_mapper.py:164-168 | a record list of one import of a project module resolves to that module's file alone |
| Graphs.SampleDependencies | tests/test_graph.py:5-18 | in the two-file project, `app.py` depends on `b.py` alone |
| Graphs.SampleUsages | tests/test_graph.py:20-22 | in the two-file project, `app.py` calls none of the project's functions |
| Graphs.SampleGraphs | tests/test_graph.py:5-22 | the import graph lists `b.py` under `app.py`, and the call graph maps `app.py` to `[]` |

## Left out

- File contents, `open`, `textwrap.dedent` and `ast.parse` are not modelled as
  computations. A file is given by its outcome: missing, unreadable, unparsable,
  or its node list, with a flag saying whether it parses only after dedenting.
- `Unparsable` stands for an `ast.parse` that raises `SyntaxError` and nothing else.
  `extract_dependencies` (line 44) and `extract_defined_functions` (line 245) catch
  only `SyntaxError`. Any other exception from the parser escapes them and aborts
  `build_dependency_graph` or the caller's scan: for example, the `ValueError` that
  Python before 3.12 raises for a null byte, or a `RecursionError` on over-deep
  nesting. `resolve_function_usages` catches every `Exception` (line 273). The model
  has no outcome for these other exceptions.
- `ast.walk` is not modelled. Its order is the order of the given node list.
  Nodes other than imports, `def`, `async def` and calls are not told apart.
- `os.walk` is given as the list of files in the order the walk reaches them, each
  with its directory names from the root. Pruning `dirnames` is modelled as
  skipping every file below an ignored directory.
- `os.path.relpath` is modelled only for a path that begins, as text, with the root
  followed by `/`. Every path the walk builds does (`Paths.WalkPathIsJoin`). Any
  other path is returned unchanged. Python would first normalise both paths, so it
  returns the relative path for a path under the root written another way
  (`./proj/src/a.py` or `proj/./src/a.py` against `proj`, or an absolute path
  against a relative root), and a `../` path for one outside it. An entry file
  given in such a form therefore gets a different `rel_curr` in the model.
  `os.path.join` follows the POSIX rules with `/` as separator.
- The text of the error messages is not modelled. Only which error occurred is
  kept.
- `print` output is left out: the debug lines of the two resolvers and the
  message of `extract_defined_functions`.
- `export_graph_to_json` is not modelled; it writes a file. It also calls `json`,
  which the module never imports.
- Python's recursion limit on the nested `dfs` is not modelled.
- Dict insertion order is not modelled; maps are Dafny maps. In Python, `module_map`
  keeps the walk order, and a key that is overwritten keeps its first position.
  `graph` and `func_graph` keep the order in which `dfs` first visits each file.
  Nothing in the module reads these orders back.
- ModuleDeps.ResolveFileDependencies and Graphs.BuildDependencyGraph require a
  non-empty path. With `""`, `os.path.relpath` raises `ValueError`, which the
  source does not catch; the model has no such error.
- `app.py`, `json_to_csv.py` and `style_config.py` are not part of this model.
  They are the Streamlit front end, a converter and display settings.
- Usages.ConfirmCalls: the result is stated as a set plus "no pair twice", not as a
  list order. The source iterates a Python set, whose order is unspecified.
- Graphs.FunctionGraphBuilder.Dfs: each graph entry is stated as exactly the
  file's usages, not as a list order, for the same reason.

Two points where the docstrings and the code differ; the model follows the code:

- `extract_defined_functions` says it returns the top-level functions. The code
  walks the whole tree, so it also collects nested functions and methods. It skips
  `async def`.
- `resolve_function_usages` parses the raw text without dedenting it, unlike the
  other two extractors. An indented file therefore has no usages.
