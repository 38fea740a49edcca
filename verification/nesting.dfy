/** Vendor directories nested to any depth: a chain of vendor dependencies,
    each found in the vendor directory of the one before, all collapse to
    the same host and to one flat path inside it. */
module Nesting {
  import opened UnixPaths
  import opened Dependencies

  /** The dependency reached from `root` by vendoring `names[0]` under it,
      then `names[1]` under that, and so on; `times[i]` is the modification
      time of the root directory of level `i`. */
  function Nest(root: Dep, names: seq<string>, times: seq<int>, produce: Dep -> set<string>): Dep
    requires |times| == |names|
    decreases |names|
  {
    if |names| == 0 then root
    else
      var n := |names|;
      FromParent(names[n - 1], Nest(root, names[..n - 1], times[..n - 1], produce), times[n - 1], produce)
  }

  /** The expected path of such a chain, stated independently: the pairs
      `vendor/<name>`, one per level, joined by separators. */
  function ChainPath(names: seq<string>): string {
    Join(VendorPairs(names))
  }

  function VendorPairs(names: seq<string>): (pairs: seq<string>)
    ensures |pairs| == |names|
    ensures forall i :: 0 <= i < |names| ==> pairs[i] == VendorDirectory + "/" + names[i]
  {
    seq(|names|, i requires 0 <= i < |names| => VendorDirectory + "/" + names[i])
  }

  lemma VendorPairsSnoc(names: seq<string>)
    requires |names| > 0
    ensures VendorPairs(names)
      == VendorPairs(names[..|names| - 1]) + [VendorDirectory + "/" + names[|names| - 1]]
  {
    var n := |names|;
    var a, b := VendorPairs(names), VendorPairs(names[..n - 1]) + [VendorDirectory + "/" + names[n - 1]];
    assert |a| == |b|;
    forall i | 0 <= i < n ensures a[i] == b[i] {
      if i < n - 1 {
        assert names[..n - 1][i] == names[i];
      }
    }
  }

  /** At every depth N >= 1 the chain's host is the original root, its
      version and exclusions are the root's, the chain is well formed, and
      its path is the N `vendor/<name>` pairs in order, whatever the
      modification times of the levels. */
  lemma {:induction false} DepthIndependence(root: Dep, names: seq<string>, times: seq<int>, produce: Dep -> set<string>)
    requires !root.Vendor?
    requires |names| > 0 && |times| == |names|
    requires forall i :: 0 <= i < |names| ==> IsNormalRelative(names[i])
    ensures var r := Nest(root, names, times, produce);
      && r.Vendor?
      && r.name == names[|names| - 1]
      && r.updateTime == times[|times| - 1]
      && WellFormed(r)
      && r.host == root
      && r.version == root.version
      && r.exclusions == root.exclusions
      && r.relativePathToHost == ChainPath(names)
      && IsNormalRelative(r.relativePathToHost)
    decreases |names|
  {
    var n := |names|;
    var last := names[n - 1];
    var init := names[..n - 1];
    var parent := Nest(root, init, times[..n - 1], produce);
    var r := FromParent(last, parent, times[n - 1], produce);
    assert Nest(root, names, times, produce) == r;
    var pair := VendorDirectory + "/" + last;
    if n == 1 {
      assert parent == root;
      FromNonVendorParent(last, root, times[n - 1], produce);
      assert VendorPairs(names) == [pair];
    } else {
      DepthIndependence(root, init, times[..n - 1], produce);
      FromVendorParent(last, parent, times[n - 1], produce);
      VendorPairsSnoc(names);
      JoinConcat(VendorPairs(init), [pair]);
      assert Join([pair]) == pair;
      SeparatedAssoc(ChainPath(init), VendorDirectory, last);
    }
  }

  /** The formatted version of a chain names the original root. */
  lemma ChainFormatVersion(root: Dep, names: seq<string>, times: seq<int>, produce: Dep -> set<string>)
    requires !root.Vendor?
    requires |names| > 0 && |times| == |names|
    requires forall i :: 0 <= i < |names| ==> IsNormalRelative(names[i])
    ensures FormatVersion(Nest(root, names, times, produce))
      == root.name + "#" + root.formattedVersion + "/" + ChainPath(names)
  {
    var n := |names|;
    DepthIndependence(root, names, times, produce);
    if n > 1 {
      DepthIndependence(root, names[..n - 1], times[..n - 1], produce);
    }
    FormatVersionOfVendor(names[n - 1], Nest(root, names[..n - 1], times[..n - 1], produce), times[n - 1], produce);
  }

  /** Two levels: host H, package `foo` in H's vendor directory, package
      `bar` in foo's, with modification times `t1` and `t2`.
      The package names are parameters pinned by `requires` rather than
      literals in the body: given literal arguments, the verifier unfolds
      `Nest`, `Parse` and `Join` on them character by character, which is
      far more costly than applying the general lemmas. */
  lemma TwoLevelScenario(h: Dep, foo: string, bar: string, t1: int, t2: int, produce: Dep -> set<string>)
    requires h.Plain? && h.name == "github.com/x/y" && h.version == "1.0" && h.formattedVersion == "v1.2.3"
    requires foo == "foo" && bar == "bar"
    ensures var a := Nest(h, [foo], [t1], produce);
      var b := Nest(h, [foo, bar], [t1, t2], produce);
      && a.host == h && a.relativePathToHost == "vendor/foo"
      && b.host == h && b.relativePathToHost == "vendor/foo/vendor/bar"
      && b.version == "1.0" && b.updateTime == t2
      && FormatVersion(a) == "github.com/x/y#v1.2.3/vendor/foo"
  {
    ScenarioPaths(foo, bar);
    DepthIndependence(h, [foo], [t1], produce);
    DepthIndependence(h, [foo, bar], [t1, t2], produce);
    ChainFormatVersion(h, [foo], [t1], produce);
    ScenarioFormat(h.name, h.formattedVersion, ChainPath([foo]));
  }

  /** The scenario's paths; the names are pinned parameters for the reason
      given at TwoLevelScenario. */
  lemma ScenarioPaths(foo: string, bar: string)
    requires foo == "foo" && bar == "bar"
    ensures IsNormalRelative(foo) && IsNormalRelative(bar)
    ensures ChainPath([foo]) == "vendor/foo"
    ensures ChainPath([foo, bar]) == "vendor/foo/vendor/bar"
  {
    var p, q := VendorDirectory + "/" + foo, VendorDirectory + "/" + bar;
    assert p == "vendor/foo";
    assert q == "vendor/bar";
    assert VendorPairs([foo]) == [p];
    assert VendorPairs([foo, bar]) == [p, q];
    assert Join([p, q]) == p + "/" + q;
  }

  /** The formatted version of the scenario spelled out: kept apart so that
      the string concatenation is settled on its own, away from the rest of
      the scenario's facts. */
  lemma ScenarioFormat(name: string, version: string, path: string)
    requires name == "github.com/x/y" && version == "v1.2.3" && path == "vendor/foo"
    ensures name + "#" + version + "/" + path == "github.com/x/y#v1.2.3/vendor/foo"
  {
  }
}
