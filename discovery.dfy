/**
 * `discover_modules`: the map from dotted module name to file path for every
 * eligible `.py` file under the project root.
 *
 * `os.walk` is abstracted as the list of every file under the root in the order
 * the walk reaches them, each with the directory names leading to it from the
 * root. Pruning `dirnames` in place keeps the walk out of ignored directories and
 * leaves the order of the rest unchanged, so it is modelled as skipping every file
 * below an ignored directory.
 */
module Discovery {
  import opened Strings
  import opened Paths
  import opened Collections

  const IGNORED_DIRS: set<string> := {"__pycache__", ".git", ".venv", "venv", "env", ".env", "node_modules", "old"}
  const IGNORED_FILES: set<string> := {"__pycache__", "__init__.py"}

  /** A file under the root: the directories from the root down to it, and its name. */
  datatype FileEntry = FileEntry(dirs: seq<string>, name: string)

  /** The walk reaches a file only when none of the directories on its way down is ignored. */
  predicate Reached(e: FileEntry)
  {
    forall i :: 0 <= i < |e.dirs| ==> e.dirs[i] !in IGNORED_DIRS
  }

  /** The files that get a module name. */
  predicate Included(e: FileEntry)
  {
    Reached(e) && e.name !in IGNORED_FILES && EndsWith(e.name, ".py")
  }

  /** `os.path.join(dirpath, filename)`, with `dirpath` as the walk builds it from the root. */
  function FilePath(root: Path, e: FileEntry): Path
  {
    WalkPath(root, e.dirs + [e.name])
  }

  /** `mod_name`: the relative path of the file, less its last three characters, separators turned into dots. */
  function EntryModule(root: Path, e: FileEntry): string
  {
    ModuleName(RelPath(FilePath(root, e), root))
  }

  /** The assignments `module_map[mod_name] = file_path` the loop performs, in order. */
  function ModuleBindings(root: Path, entries: seq<FileEntry>): seq<(string, Path)>
  {
    SelectedBindings(entries, Included, e => EntryModule(root, e), e => FilePath(root, e))
  }

  /** The module map the walk produces. */
  function ModuleMapOf(root: Path, entries: seq<FileEntry>): map<string, Path>
  {
    LastWins(ModuleBindings(root, entries))
  }

  method DiscoverModules(root: Path, entries: seq<FileEntry>) returns (moduleMap: map<string, Path>)
    ensures moduleMap == ModuleMapOf(root, entries)
  {
    moduleMap := map[];
    for i := 0 to |entries|
      invariant moduleMap == ModuleMapOf(root, entries[..i])
    {
      var e := entries[i];
      SelectedSnoc(entries[..i + 1], Included, e => EntryModule(root, e), e => FilePath(root, e));
      assert entries[..i + 1][..i] == entries[..i];
      if !Reached(e) || e.name in IGNORED_FILES || !EndsWith(e.name, ".py") {
        continue;
      }
      var filePath := FilePath(root, e);
      var relPath := RelPath(filePath, root);
      var modName := ModuleName(relPath);
      moduleMap := moduleMap[modName := filePath];
    }
    assert entries[..|entries|] == entries;
  }

  /** A name is a key exactly when some included file has that module name. */
  lemma {:induction false} DiscoveredKeys(root: Path, entries: seq<FileEntry>, k: string)
    ensures k in ModuleMapOf(root, entries)
        <==> exists i :: 0 <= i < |entries| && Included(entries[i]) && EntryModule(root, entries[i]) == k
  {
    var name, path := e => EntryModule(root, e), e => FilePath(root, e);
    if k in ModuleMapOf(root, entries) {
      SelectedSource(entries, Included, name, path, k);
    }
    if exists i :: 0 <= i < |entries| && Included(entries[i]) && EntryModule(root, entries[i]) == k {
      var i :| 0 <= i < |entries| && Included(entries[i]) && EntryModule(root, entries[i]) == k;
      SelectedHasKey(entries, Included, name, path, i);
    }
  }

  /** When several files share a module name, the one the walk reaches last gives the path. */
  lemma {:induction false} DiscoveredLastWins(root: Path, entries: seq<FileEntry>, i: nat)
    requires i < |entries| && Included(entries[i])
    requires forall j :: i < j < |entries| && Included(entries[j]) ==> EntryModule(root, entries[j]) != EntryModule(root, entries[i])
    ensures EntryModule(root, entries[i]) in ModuleMapOf(root, entries)
    ensures ModuleMapOf(root, entries)[EntryModule(root, entries[i])] == FilePath(root, entries[i])
  {
    SelectedLastWins(entries, Included, e => EntryModule(root, e), e => FilePath(root, e), i);
  }

  /** Every path in the map gives back its own key when a resolver computes its current module name. */
  lemma {:induction false} DiscoveredSelfNamed(root: Path, entries: seq<FileEntry>, k: string)
    requires k in ModuleMapOf(root, entries)
    ensures CurrentModule(ModuleMapOf(root, entries)[k], root) == k
  {
    SelectedSource(entries, Included, e => EntryModule(root, e), e => FilePath(root, e), k);
  }

  /**
   * For a root that is not empty and proper directory and file names, a file's module
   * name is its directories and its `.py`-less name joined with dots.
   */
  lemma {:induction false} EntryModuleName(root: Path, e: FileEntry)
    requires root != ""
    requires ProperComponents(e.dirs + [e.name]) && EndsWith(e.name, ".py")
    ensures EntryModule(root, e) == Join(e.dirs + [Stem(e.name)], '.')
  {
    var comps := e.dirs + [e.name];
    WalkPathIsJoin(root, comps);
    RelPathOfJoin(root, Join(comps, SEP));
    ModuleNameOfComponents(comps);
    assert comps[..|comps| - 1] == e.dirs;
  }

  /** `src/a.py` and `src/b.py` under a project directory give the keys `src.a` and `src.b`. */
  lemma DiscoverTwoModules()
    ensures ModuleMapOf("proj", [FileEntry(["src"], "a.py"), FileEntry(["src"], "b.py")]).Keys == {"src.a", "src.b"}
  {
    SrcEntryModule("a");
    SrcEntryModule("b");
    assert "a" + ".py" == "a.py" && "b" + ".py" == "b.py";
    assert "src." + "a" == "src.a" && "src." + "b" == "src.b";
    TwoEntriesKeys("proj", FileEntry(["src"], "a" + ".py"), FileEntry(["src"], "b" + ".py"));
  }

  /** Two included files give exactly their two module names as keys. */
  lemma TwoEntriesKeys(root: Path, a: FileEntry, b: FileEntry)
    requires Included(a) && Included(b)
    ensures ModuleMapOf(root, [a, b]).Keys == {EntryModule(root, a), EntryModule(root, b)}
  {
    var name, path := e => EntryModule(root, e), e => FilePath(root, e);
    assert [a, b][..1] == [a] && [a][..0] == [];
    assert SelectedBindings([a], Included, name, path) == [] + [(name(a), path(a))];
    assert SelectedBindings([a, b], Included, name, path) == [(name(a), path(a)), (name(b), path(b))];
    LastWinsPairKeys(name(a), path(a), name(b), path(b));
  }

  /** A one-letter file `src/<c>.py` under a project directory is included and named `src.<c>`. */
  lemma SrcEntryModule(c: string)
    requires |c| == 1 && c[0] != '.' && c[0] != SEP
    ensures Included(FileEntry(["src"], c + ".py"))
    ensures EntryModule("proj", FileEntry(["src"], c + ".py")) == "src." + c
  {
    var e := FileEntry(["src"], c + ".py");
    assert e.name[|e.name| - 3..] == ".py";
    EntryModuleName("proj", e);
    assert Stem(e.name) == c;
    assert e.dirs + [c] == ["src", c];
  }
}
