/**
 * Resolution of a `from ... import` statement's module: `from m import x` names `m`
 * itself, while `from ..m import x` (level 2) climbs from the current module by
 * dropping its last two dotted components and then descends into `m`.
 */
module Relative {
  import opened Strings

  /** `rel_curr.split('.')[:-level]`, followed by `base.split('.')` when `base` is non-empty, joined with dots. */
  function ResolveRelative(current: string, level: nat, base: string): string
  {
    var parts := DropLast(Split(current, '.'), level);
    Join(if base != "" then parts + Split(base, '.') else parts, '.')
  }

  /** The module a from-import with this base and level refers to, seen from module `current`. */
  function FromTarget(base: string, level: nat, current: string): string
  {
    if level > 0 then ResolveRelative(current, level, base) else base
  }

  /** Climbing as many levels as the current module has components, or more, leaves only the base. */
  lemma {:induction false} RelativeAboveTop(current: string, level: nat, base: string)
    requires level >= |Split(current, '.')|
    ensures ResolveRelative(current, level, base) == base
  {
    assert DropLast(Split(current, '.'), level) == [];
    if base != "" {
      JoinSplit(base, '.');
      assert [] + Split(base, '.') == Split(base, '.');
    }
  }

  /**
   * Climbing fewer levels than the current module has components resolves to a
   * package that is a dotted prefix of the current module, followed by the base.
   */
  lemma {:induction false} RelativeWithinPackage(current: string, level: nat, base: string)
    requires 0 < level < |Split(current, '.')|
    ensures var parts := Split(current, '.');
            var package := Join(parts[..|parts| - level], '.');
            && current == package + "." + Join(parts[|parts| - level..], '.')
            && ResolveRelative(current, level, base) == if base == "" then package else package + "." + base
  {
    var parts := Split(current, '.');
    var keep := parts[..|parts| - level];
    JoinSplit(current, '.');
    assert parts == keep + parts[|parts| - level..];
    JoinAppend(keep, parts[|parts| - level..], '.');
    if base != "" {
      JoinSplit(base, '.');
      JoinAppend(keep, Split(base, '.'), '.');
    }
  }

  /** Climbing `a` levels and then `b` more from the resulting package is climbing `a + b` levels at once. */
  lemma {:induction false} RelativeComposes(current: string, a: nat, b: nat)
    requires a > 0 && b > 0
    ensures ResolveRelative(ResolveRelative(current, a, ""), b, "") == ResolveRelative(current, a + b, "")
  {
    var parts := Split(current, '.');
    var n := |parts|;
    if a >= n {
      assert ResolveRelative(current, a, "") == "";
      assert Split("", '.') == [""];
    } else {
      var keep := parts[..n - a];
      SplitPartsWithoutSep(current, '.');
      assert forall i :: 0 <= i < |keep| ==> '.' !in keep[i];
      SplitJoin(keep, '.');
      if b < n - a {
        assert keep[..|keep| - b] == parts[..n - (a + b)];
      }
    }
  }

  /** From `pkg.sub.mod`, `from .. import x` (level 2, no base) names `pkg`. */
  lemma RelativeParentExample()
    ensures ResolveRelative("pkg.sub.mod", 2, "") == "pkg"
  {
    var pkg: seq<string> := ["pkg", "sub", "mod"];
    assert Join(pkg[2..], '.') == "mod";
    assert Join(pkg[1..], '.') == "sub.mod";
    assert Join(pkg, '.') == "pkg.sub.mod";
    SplitJoin(pkg, '.');
    assert DropLast(pkg, 2) == ["pkg"];
  }

  /** From `src.app`, `from .helper import x` names `src.helper`. */
  lemma RelativeSiblingExample()
    ensures ResolveRelative("src.app", 1, "helper") == "src.helper"
  {
    var app: seq<string> := ["src", "app"];
    assert Join(app[1..], '.') == "app";
    assert Join(app, '.') == "src.app";
    SplitJoin(app, '.');
    assert DropLast(app, 1) == ["src"];
    assert Join(["helper"], '.') == "helper";
    SplitJoin(["helper"], '.');
    assert ["src"] + ["helper"] == ["src", "helper"];
    assert Join(["src", "helper"], '.') == "src.helper";
  }
}
