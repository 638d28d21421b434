/**
 * File paths and the module names derived from them. A path is a string with `/`
 * as separator; `os.path.join` and `os.path.relpath` are written out for the paths
 * the extractor builds, and the dotted module name is computed character by
 * character exactly as the source's inline expression does.
 */
module Paths {
  import opened Strings

  type Path = string

  /** `os.path.sep`. */
  const SEP: char := '/'

  /** `os.path.join(dir, name)` for a relative `name`: no separator is added after an empty `dir` or one that already ends with it. */
  function JoinPath(dir: Path, name: string): Path
  {
    if dir == "" || dir[|dir| - 1] == SEP then dir + name else dir + [SEP] + name
  }

  /** The `dirpath` that `os.walk(root)` reports for the directory reached through `comps`, then joined with a file name. */
  function WalkPath(dir: Path, comps: seq<string>): Path
    decreases |comps|
  {
    if comps == [] then dir else WalkPath(JoinPath(dir, comps[0]), comps[1..])
  }

  /** `os.path.relpath(path, root)` for a normalised `path` that lies under `root`; any other path is returned unchanged. */
  function RelPath(path: Path, root: Path): string
  {
    var prefix := if root != "" && root[|root| - 1] == SEP then root else root + [SEP];
    if prefix <= path then path[|prefix|..] else path
  }

  /** `rel_path[:-3].replace(os.path.sep, '.')`: the module name of a file, given its path relative to the root. */
  function ModuleName(relPath: string): string
  {
    Replace(DropLast(relPath, 3), SEP, '.')
  }

  /** The module name a resolver computes for the file it is given (`rel_curr`). */
  function CurrentModule(file: Path, root: Path): string
  {
    ModuleName(RelPath(file, root))
  }

  /** `name` without its last three characters: the stem of a `.py` file name. */
  function Stem(name: string): string
    requires |name| >= 3
  {
    name[..|name| - 3]
  }

  /** Path components as a file system has them: non-empty and free of the separator. */
  predicate ProperComponents(comps: seq<string>)
  {
    forall i :: 0 <= i < |comps| ==> comps[i] != "" && SEP !in comps[i]
  }

  /** `relpath` undoes `join`: a path built under the root is taken back to the relative path it was built from. */
  lemma {:induction false} RelPathOfJoin(root: Path, rel: string)
    requires root != ""
    ensures RelPath(JoinPath(root, rel), root) == rel
  {
    if root[|root| - 1] == SEP {
      assert JoinPath(root, rel) == root + rel;
      assert root <= root + rel;
      assert (root + rel)[|root|..] == rel;
    } else {
      assert JoinPath(root, rel) == (root + [SEP]) + rel;
      assert (root + [SEP]) <= (root + [SEP]) + rel;
      assert ((root + [SEP]) + rel)[|root + [SEP]|..] == rel;
    }
  }

  /** Walking down directory by directory and joining once with the separator-joined relative path give the same path. */
  lemma {:induction false} WalkPathIsJoin(dir: Path, comps: seq<string>)
    requires dir != ""
    requires |comps| >= 1 && ProperComponents(comps)
    ensures WalkPath(dir, comps) == JoinPath(dir, Join(comps, SEP))
    decreases |comps|
  {
    var first := JoinPath(dir, comps[0]);
    if |comps| > 1 {
      var tail := Join(comps[1..], SEP);
      assert ProperComponents(comps[1..]) by {
        forall i | 0 <= i < |comps[1..]| ensures comps[1..][i] != "" && SEP !in comps[1..][i] {
          assert comps[1..][i] == comps[i + 1];
        }
      }
      WalkPathIsJoin(first, comps[1..]);
      assert comps[0] != "" && SEP !in comps[0];
      assert first[|first| - 1] == comps[0][|comps[0]| - 1];
      assert first[|first| - 1] != SEP;
      assert WalkPath(dir, comps) == first + [SEP] + tail;
      assert Join(comps, SEP) == comps[0] + [SEP] + tail;
      if dir[|dir| - 1] == SEP {
        assert first + [SEP] + tail == dir + (comps[0] + [SEP] + tail);
      } else {
        assert first + [SEP] + tail == dir + [SEP] + (comps[0] + [SEP] + tail);
      }
    }
  }

  /**
   * The module name of a `.py` file whose relative path has the components `comps`
   * is those components joined with dots, the file name losing its `.py`.
   */
  lemma {:induction false} ModuleNameOfComponents(comps: seq<string>)
    requires |comps| >= 1 && ProperComponents(comps)
    requires EndsWith(comps[|comps| - 1], ".py")
    ensures ModuleName(Join(comps, SEP)) == Join(comps[..|comps| - 1] + [Stem(comps[|comps| - 1])], '.')
  {
    var n := |comps|;
    var init, last := comps[..n - 1], comps[n - 1];
    var stem := Stem(last);
    assert SEP !in stem by {
      assert SEP !in last;
      forall i | 0 <= i < |stem| ensures stem[i] != SEP { assert stem[i] == last[i]; }
    }
    var stemmed := init + [stem];
    assert forall i :: 0 <= i < |stemmed| ==> SEP !in stemmed[i] by {
      forall i | 0 <= i < |stemmed| ensures SEP !in stemmed[i] {
        if i < n - 1 { assert stemmed[i] == comps[i]; assert ProperComponents(comps); }
      }
    }
    if n == 1 {
      assert comps == [last];
      assert DropLast(Join(comps, SEP), 3) == stem;
      assert stemmed == [stem];
    } else {
      assert comps == init + [last];
      JoinAppend(init, [last], SEP);
      JoinAppend(init, [stem], SEP);
      var j := Join(init, SEP) + [SEP];
      assert Join(comps, SEP) == j + last;
      assert DropLast(j + last, 3) == (j + last)[..|j| + |last| - 3];
      assert (j + last)[..|j| + |last| - 3] == j + stem;
      assert DropLast(Join(comps, SEP), 3) == Join(stemmed, SEP);
    }
    ReplaceJoin(stemmed, SEP, '.');
  }
}
