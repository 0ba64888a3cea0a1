/**
 * The manifest side of `r2x plugins remove`: which dependency packages the
 * removed package leaves orphaned, and how the manifest drops the package's
 * plugins and then those of its orphans. The `uv pip` calls that follow and
 * the messages printed are process I/O and are not modelled.
 */
module PluginRemove {
  import opened Wrappers
  import opened Errors
  import opened PluginManifest

  // ---------------------------------------------------------------------------
  // Specification
  // ---------------------------------------------------------------------------

  /** A plugin installed explicitly by the user, as part of package `d`. */
  predicate ExplicitOf(plugin: Plugin, d: string)
  {
    plugin.packageName == Some(d) && plugin.installType == Some("explicit")
  }

  /** A plugin of package `d` pulled in as a dependency of package `installer`. */
  predicate DependencyOf(plugin: Plugin, installer: string, d: string)
  {
    plugin.packageName == Some(d) && plugin.installType == Some("dependency") && plugin.installedBy == Some(installer)
  }

  /** The packages with an explicitly installed plugin among `keys`. */
  ghost function ExplicitIn(m: map<string, Plugin>, keys: set<string>): set<string>
  {
    set n | n in keys && n in m && m[n].packageName.Some? && ExplicitOf(m[n], m[n].packageName.value) ::
      m[n].packageName.value
  }

  /** The packages among `keys` that `installer` pulled in as dependencies. */
  ghost function DepsIn(m: map<string, Plugin>, keys: set<string>, installer: string): set<string>
  {
    set n | n in keys && n in m && m[n].packageName.Some? && DependencyOf(m[n], installer, m[n].packageName.value) ::
      m[n].packageName.value
  }

  /** Some package other than `p` also pulled in `d`. */
  ghost predicate UsedByOther(m: map<string, Plugin>, p: string, d: string)
  {
    exists n :: n in m && m[n].installedBy.Some? && m[n].installedBy.value != p
      && DependencyOf(m[n], m[n].installedBy.value, d)
  }

  /**
   * The dependencies of `p` that nothing else keeps: no other package pulled
   * them in, and none of their plugins was installed explicitly.
   */
  ghost function Orphaned(m: map<string, Plugin>, p: string): set<string>
  {
    set d | d in DepsIn(m, m.Keys, p) && d !in ExplicitIn(m, m.Keys) && !UsedByOther(m, p, d)
  }

  /** The registry with the plugins of every listed package dropped, one package after another. */
  function WithoutPackages(m: map<string, Plugin>, packages: seq<string>): map<string, Plugin>
    decreases |packages|
  {
    if packages == [] then m
    else WithoutPackage(WithoutPackages(m, packages[..|packages| - 1]), packages[|packages| - 1])
  }

  /**
   * The registry after removing package `p`: the orphans are dropped only
   * when `p` itself had plugins.
   */
  function AfterRemoval(m: map<string, Plugin>, p: string, orphans: seq<string>): map<string, Plugin>
  {
    if PackageMembers(m, p) == {} then m else WithoutPackages(WithoutPackage(m, p), orphans)
  }

  // ---------------------------------------------------------------------------
  // find_orphaned_dependencies
  // ---------------------------------------------------------------------------

  /** `depsBy` lists, for each installer among `keys`, exactly the packages it pulled in. */
  ghost predicate IndexesDeps(m: map<string, Plugin>, keys: set<string>, depsBy: map<string, seq<string>>)
  {
    && (forall i :: i in depsBy <==> DepsIn(m, keys, i) != {})
    && (forall i, d :: i in depsBy ==> (d in depsBy[i] <==> d in DepsIn(m, keys, i)))
  }

  /** The index after visiting one plugin: a dependency is appended to its installer's list. */
  function IndexDependency(depsBy: map<string, seq<string>>, plugin: Plugin): map<string, seq<string>>
  {
    if plugin.packageName.Some? && plugin.installType == Some("dependency") && plugin.installedBy.Some? then
      var installer := plugin.installedBy.value;
      depsBy[installer := (if installer in depsBy then depsBy[installer] else []) + [plugin.packageName.value]]
    else depsBy
  }

  /**
   * The single pass over the manifest: the set of explicitly installed
   * packages, and for each installer the packages it pulled in (with
   * repetitions, in visiting order).
   */
  method IndexManifest(m: map<string, Plugin>) returns (explicit: set<string>, depsBy: map<string, seq<string>>)
    ensures explicit == ExplicitIn(m, m.Keys)
    ensures IndexesDeps(m, m.Keys, depsBy)
  {
    explicit := {};
    depsBy := map[];
    var rest := m.Keys;
    assert m.Keys - rest == {};
    while rest != {}
      invariant rest <= m.Keys
      invariant explicit == ExplicitIn(m, m.Keys - rest)
      invariant IndexesDeps(m, m.Keys - rest, depsBy)
      decreases rest
    {
      var n :| n in rest;
      ghost var done := m.Keys - rest;
      ExplicitStep(m, done, n);
      DepsIndexStep(m, done, n, depsBy);
      explicit, depsBy := VisitPlugin(explicit, depsBy, m[n]);
      rest := rest - {n};
      assert m.Keys - rest == done + {n};
    }
  }

  /** One round of the pass: an explicit plugin adds its package, a dependency is listed under its installer. */
  method VisitPlugin(explicit: set<string>, depsBy: map<string, seq<string>>, plugin: Plugin)
    returns (explicit': set<string>, depsBy': map<string, seq<string>>)
    ensures explicit' == explicit + (if plugin.packageName.Some? && plugin.installType == Some("explicit")
                                     then {plugin.packageName.value} else {})
    ensures depsBy' == IndexDependency(depsBy, plugin)
  {
    explicit', depsBy' := explicit, depsBy;
    if plugin.packageName.Some? {
      var pkg := plugin.packageName.value;
      if plugin.installType == Some("explicit") {
        explicit' := explicit + {pkg};
      } else if plugin.installType == Some("dependency") && plugin.installedBy.Some? {
        var installer := plugin.installedBy.value;
        var deps := if installer in depsBy then depsBy[installer] else [];
        depsBy' := depsBy[installer := deps + [pkg]];
      }
    }
  }

  /** Visiting one more key adds its package when that plugin is explicit. */
  lemma ExplicitStep(m: map<string, Plugin>, done: set<string>, n: string)
    requires n in m
    ensures ExplicitIn(m, done + {n}) ==
      ExplicitIn(m, done) + (if m[n].packageName.Some? && m[n].installType == Some("explicit")
                             then {m[n].packageName.value} else {})
  {
  }

  /** Visiting one more key keeps the index exact. */
  lemma DepsIndexStep(m: map<string, Plugin>, done: set<string>, n: string, depsBy: map<string, seq<string>>)
    requires n in m && IndexesDeps(m, done, depsBy)
    ensures IndexesDeps(m, done + {n}, IndexDependency(depsBy, m[n]))
  {
    forall i
      ensures DepsIn(m, done + {n}, i) ==
        DepsIn(m, done, i) + (if m[n].packageName.Some? && DependencyOf(m[n], i, m[n].packageName.value)
                              then {m[n].packageName.value} else {})
    {
      DepsInStep(m, done, n, i);
    }
    var plugin := m[n];
    if plugin.packageName.Some? && plugin.installType == Some("dependency") && plugin.installedBy.Some? {
      assert plugin.packageName.value in DepsIn(m, done + {n}, plugin.installedBy.value);
    }
  }

  /** Visiting one more key adds its package to its installer's dependencies, and to no one else's. */
  lemma DepsInStep(m: map<string, Plugin>, done: set<string>, n: string, i: string)
    requires n in m
    ensures DepsIn(m, done + {n}, i) ==
      DepsIn(m, done, i) + (if m[n].packageName.Some? && DependencyOf(m[n], i, m[n].packageName.value)
                            then {m[n].packageName.value} else {})
  {
  }

  /**
   * `find_orphaned_dependencies`: the dependencies of `package` that no
   * other installer lists and that are not explicitly installed, each once,
   * in some order.
   */
  method FindOrphanedDependencies(manifest: Manifest, package: string) returns (r: seq<string>)
    ensures forall d :: d in r <==> d in Orphaned(manifest.plugins, package)
    ensures forall i, j :: 0 <= i < j < |r| ==> r[i] != r[j]
  {
    var m := manifest.plugins;
    var explicit, depsBy := IndexManifest(m);
    var orphaned: set<string> := {};
    if package in depsBy {
      var depPackages := depsBy[package];
      var k := 0;
      while k < |depPackages|
        invariant 0 <= k <= |depPackages|
        invariant forall d :: d in orphaned <==>
          d in depPackages[..k] && d !in explicit
          && !exists installer :: installer in depsBy && installer != package && d in depsBy[installer]
      {
        var depPkg := depPackages[k];
        assert depPackages[..k + 1] == depPackages[..k] + [depPkg];
        var usedByOther := exists installer :: installer in depsBy && installer != package && depPkg in depsBy[installer];
        if !usedByOther && depPkg !in explicit {
          orphaned := orphaned + {depPkg};
        }
        k := k + 1;
      }
      assert depPackages[..k] == depPackages;
    }
    OrphanedOfIndex(m, package, explicit, depsBy, orphaned);
    r := Enumerate(orphaned);
  }

  /** The orphans computed from the index are the specified ones. */
  lemma OrphanedOfIndex(m: map<string, Plugin>, package: string, explicit: set<string>,
                        depsBy: map<string, seq<string>>, orphaned: set<string>)
    requires explicit == ExplicitIn(m, m.Keys)
    requires IndexesDeps(m, m.Keys, depsBy)
    requires package !in depsBy ==> orphaned == {}
    requires package in depsBy ==> forall d :: d in orphaned <==>
      d in depsBy[package] && d !in explicit
      && !exists installer :: installer in depsBy && installer != package && d in depsBy[installer]
    ensures orphaned == Orphaned(m, package)
  {
    forall d
      ensures d in orphaned <==> d in Orphaned(m, package)
    {
      UsedByOtherOfIndex(m, package, depsBy, d);
    }
  }

  /** `used_by_other` over the index agrees with the specification. */
  lemma UsedByOtherOfIndex(m: map<string, Plugin>, package: string, depsBy: map<string, seq<string>>, d: string)
    requires IndexesDeps(m, m.Keys, depsBy)
    ensures (exists installer :: installer in depsBy && installer != package && d in depsBy[installer]) <==>
      UsedByOther(m, package, d)
  {
    if UsedByOther(m, package, d) {
      var n :| n in m && m[n].installedBy.Some? && m[n].installedBy.value != package
        && DependencyOf(m[n], m[n].installedBy.value, d);
      var installer := m[n].installedBy.value;
      assert d in DepsIn(m, m.Keys, installer);
      assert installer in depsBy;
    }
  }

  /** `into_iter().collect()` of a set: each element once, in some order. */
  method Enumerate(s: set<string>) returns (r: seq<string>)
    ensures forall d :: d in r <==> d in s
    ensures forall i, j :: 0 <= i < j < |r| ==> r[i] != r[j]
  {
    r := [];
    var rest := s;
    while rest != {}
      invariant rest <= s
      invariant forall d :: d in r <==> d in s - rest
      invariant forall i, j :: 0 <= i < j < |r| ==> r[i] != r[j]
      decreases rest
    {
      var d :| d in rest;
      forall i | 0 <= i < |r|
        ensures r[i] != d
      {
        assert r[i] in r;
      }
      r := r + [d];
      rest := rest - {d};
    }
  }

  // ---------------------------------------------------------------------------
  // The manifest update of remove_plugin
  // ---------------------------------------------------------------------------

  /**
   * The manifest part of `remove_plugin`: when the manifest loads, the
   * orphans are found first, then the package's plugins are removed, and
   * only when that removed something are the orphans' plugins removed too,
   * their counts added up. A manifest that fails to load removes nothing.
   */
  method RemoveFromManifest(loaded: Result<Manifest, ManifestError>, package: string)
    returns (removedCount: nat, orphans: seq<string>)
    modifies if loaded.Ok? then {loaded.value} else {}
    ensures loaded.Err? ==> removedCount == 0 && orphans == []
    ensures loaded.Ok? ==>
      && (forall d :: d in orphans <==> d in Orphaned(old(loaded.value.plugins), package))
      && loaded.value.plugins == AfterRemoval(old(loaded.value.plugins), package, orphans)
      && removedCount == |old(loaded.value.plugins)| - |loaded.value.plugins|
  {
    removedCount := 0;
    orphans := [];
    if loaded.Err? {
      return;
    }
    var manifest := loaded.value;
    ghost var m0 := manifest.plugins;
    orphans := FindOrphanedDependencies(manifest, package);
    removedCount := manifest.RemovePluginsByPackage(package);
    RemovalCount(m0, package);
    if removedCount > 0 {
      ghost var m1 := manifest.plugins;
      var k := 0;
      while k < |orphans|
        invariant 0 <= k <= |orphans|
        invariant manifest.plugins == WithoutPackages(m1, orphans[..k])
        invariant removedCount == |m0| - |manifest.plugins|
      {
        assert orphans[..k + 1][..k] == orphans[..k];
        ghost var before := manifest.plugins;
        var count := manifest.RemovePluginsByPackage(orphans[k]);
        RemovalCount(before, orphans[k]);
        if count > 0 {
          removedCount := removedCount + count;
        }
        k := k + 1;
      }
      assert orphans[..k] == orphans;
    } else {
      assert PackageMembers(m0, package) == {};
      forall n | n in m0
        ensures m0[n].packageName != Some(package)
      {
        assert n !in PackageMembers(m0, package);
      }
      RemoveAbsentPackage(m0, package);
    }
  }

  // ---------------------------------------------------------------------------
  // Properties
  // ---------------------------------------------------------------------------

  /**
   * A package is orphaned by removing `p` exactly when `p` pulled in one of
   * its plugins as a dependency, and every plugin of that package is neither
   * explicitly installed nor pulled in by another package.
   */
  lemma OrphanedSpec(m: map<string, Plugin>, p: string, d: string)
    ensures d in Orphaned(m, p) <==>
      (exists n :: n in m && DependencyOf(m[n], p, d))
      && (forall n :: n in m && m[n].packageName == Some(d) ==>
            !ExplicitOf(m[n], d) && (m[n].installType == Some("dependency") && m[n].installedBy.Some? ==> m[n].installedBy == Some(p)))
  {
    if exists n :: n in m && DependencyOf(m[n], p, d) {
      var n :| n in m && DependencyOf(m[n], p, d);
      assert d in DepsIn(m, m.Keys, p);
    }
    if d in ExplicitIn(m, m.Keys) {
      var n :| n in m && m[n].packageName.Some? && ExplicitOf(m[n], m[n].packageName.value) && m[n].packageName.value == d;
      assert n in m && m[n].packageName == Some(d);
    }
    if UsedByOther(m, p, d) {
      var n :| n in m && m[n].installedBy.Some? && m[n].installedBy.value != p
        && DependencyOf(m[n], m[n].installedBy.value, d);
      assert n in m && m[n].packageName == Some(d);
    }
  }

  /** A package that pulled in nothing orphans nothing. */
  lemma NoDependenciesNoOrphans(m: map<string, Plugin>, p: string)
    requires forall n :: n in m ==> m[n].installType != Some("dependency") || m[n].installedBy != Some(p)
    ensures Orphaned(m, p) == {}
  {
    forall d | d in Orphaned(m, p)
      ensures false
    {
      OrphanedSpec(m, p, d);
    }
  }

  /** Dropping a list of packages keeps exactly the plugins of the other packages, untouched. */
  lemma {:induction false} WithoutPackagesSpec(m: map<string, Plugin>, packages: seq<string>, name: string)
    ensures name in WithoutPackages(m, packages) <==>
      name in m && (m[name].packageName.None? || m[name].packageName.value !in packages)
    ensures name in WithoutPackages(m, packages) ==> WithoutPackages(m, packages)[name] == m[name]
    decreases |packages|
  {
    if packages != [] {
      var front := packages[..|packages| - 1];
      WithoutPackagesSpec(m, front, name);
      assert packages == front + [packages[|packages| - 1]];
    }
  }

  /**
   * The removal keeps a plugin exactly when its package is neither `p` nor
   * (when `p` had plugins) one of the orphans; when `p` had no plugins the
   * manifest is unchanged.
   */
  lemma AfterRemovalSpec(m: map<string, Plugin>, p: string, orphans: seq<string>, name: string)
    ensures PackageMembers(m, p) == {} ==> AfterRemoval(m, p, orphans) == m
    ensures PackageMembers(m, p) != {} ==>
      (name in AfterRemoval(m, p, orphans) <==>
        name in m && (m[name].packageName.None? || (m[name].packageName.value != p && m[name].packageName.value !in orphans)))
  {
    if PackageMembers(m, p) != {} {
      WithoutPackagesSpec(WithoutPackage(m, p), orphans, name);
    }
  }
}
