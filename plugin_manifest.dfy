/**
 * The registry of installed plugins: a map from plugin name to the metadata
 * serialized for it, updated in place by the install and remove commands.
 * Loading, saving and the JSON rendering are file and serializer I/O and are
 * not modelled.
 */
module PluginManifest {
  import opened Wrappers
  import opened Errors

  /** Type annotation, default (as JSON text) and requiredness of one parameter. */
  datatype ParameterMetadata = ParameterMetadata(annotation: Option<string>, default: Option<string>, isRequired: bool)

  /** The callable a plugin invokes. */
  datatype CallableMetadata = CallableMetadata(
    moduleName: string,
    name: string,
    callableType: string,
    returnAnnotation: Option<string>,
    parameters: map<string, ParameterMetadata>)

  /** The configuration class of a plugin. */
  datatype ConfigMetadata = ConfigMetadata(
    moduleName: string,
    name: string,
    returnAnnotation: Option<string>,
    parameters: map<string, ParameterMetadata>)

  datatype UpgraderMetadata = UpgraderMetadata(
    versionStrategyJson: Option<string>,
    versionReaderJson: Option<string>,
    upgradeStepsJson: Option<string>)

  /** One plugin's metadata; its name is the key it is stored under. */
  datatype Plugin = Plugin(
    packageName: Option<string>,
    pluginType: Option<string>,
    description: Option<string>,
    doc: Option<string>,
    ioType: Option<string>,
    callMethod: Option<string>,
    requiresStore: Option<bool>,
    obj: Option<CallableMetadata>,
    config: Option<ConfigMetadata>,
    upgrader: Option<UpgraderMetadata>,
    installType: Option<string>,
    installedBy: Option<string>)

  /** `Plugin::validate`: every field is optional, so every plugin is valid. */
  function Validate(plugin: Plugin, name: string): (r: Result<(), ManifestError>)
    ensures r.Ok?
  {
    Ok(())
  }

  /** The plugin belongs to the package. */
  predicate InPackage(plugin: Plugin, packageName: string)
  {
    plugin.packageName == Some(packageName)
  }

  /** The names of the plugins of a package. */
  function PackageMembers(plugins: map<string, Plugin>, packageName: string): set<string>
  {
    set n | n in plugins && InPackage(plugins[n], packageName)
  }

  /** The registry with the plugins of a package dropped. */
  function WithoutPackage(plugins: map<string, Plugin>, packageName: string): map<string, Plugin>
  {
    map n | n in plugins && !InPackage(plugins[n], packageName) :: plugins[n]
  }

  class Manifest {
    var plugins: map<string, Plugin>

    /** `PluginManifest::default()`: no plugins. */
    constructor ()
      ensures plugins == map[]
    {
      plugins := map[];
    }

    /** `has_plugin` */
    predicate HasPlugin(name: string)
      reads this
    {
      name in plugins
    }

    /** `is_empty`: no name has a plugin. */
    function IsEmpty(): (r: bool)
      reads this
      ensures r <==> forall name :: !HasPlugin(name)
    {
      if plugins == map[] then true
      else
        var name :| name in plugins;
        assert HasPlugin(name);
        false
    }

    /** `get_plugin`: present exactly when `has_plugin` holds, and then the stored metadata. */
    function GetPlugin(name: string): (r: Option<Plugin>)
      reads this
      ensures r.Some? <==> HasPlugin(name)
      ensures r.Some? ==> r.value == plugins[name]
    {
      if name in plugins then Some(plugins[name]) else None
    }

    /** `add_plugin`: validation never fails, so the plugin is always stored, replacing any of that name. */
    method AddPlugin(name: string, plugin: Plugin) returns (r: Result<(), ManifestError>)
      modifies this
      ensures r.Ok?
      ensures plugins == old(plugins)[name := plugin]
      ensures HasPlugin(name) && !IsEmpty()
    {
      r := Validate(plugin, name);
      if r.Err? {
        return;
      }
      plugins := plugins[name := plugin];
      assert HasPlugin(name);
    }

    /** `remove_plugin`: true exactly when the name was registered; afterwards it is not. */
    method RemovePlugin(name: string) returns (removed: bool)
      modifies this
      ensures removed <==> name in old(plugins)
      ensures plugins == old(plugins) - {name}
      ensures !HasPlugin(name)
    {
      removed := name in plugins;
      plugins := plugins - {name};
    }

    /**
     * `remove_plugins_by_package`: the names of the package's plugins are
     * collected first, then removed one by one; the count is how many were
     * collected.
     */
    method RemovePluginsByPackage(packageName: string) returns (count: nat)
      modifies this
      ensures plugins == WithoutPackage(old(plugins), packageName)
      ensures count == |PackageMembers(old(plugins), packageName)|
    {
      ghost var before := plugins;
      var toRemove := PackageMembers(plugins, packageName);
      count := |toRemove|;
      var rest := toRemove;
      while rest != {}
        invariant rest <= toRemove
        invariant plugins.Keys == before.Keys - (toRemove - rest)
        invariant forall n :: n in plugins ==> plugins[n] == before[n]
        decreases rest
      {
        var name :| name in rest;
        plugins := plugins - {name};
        rest := rest - {name};
      }
      forall n
        ensures n in plugins <==> n in WithoutPackage(before, packageName)
      {
        WithoutPackageSpec(before, packageName, n);
      }
    }

    /** `list_plugins`: every registered name with its metadata, once each, in some order. */
    method ListPlugins() returns (r: seq<(string, Plugin)>)
      ensures |r| == |plugins|
      ensures forall i :: 0 <= i < |r| ==> r[i].0 in plugins && plugins[r[i].0] == r[i].1
      ensures forall i, j :: 0 <= i < j < |r| ==> r[i].0 != r[j].0
    {
      r := [];
      var rest := plugins.Keys;
      while rest != {}
        invariant rest <= plugins.Keys
        invariant |r| + |rest| == |plugins|
        invariant forall i :: 0 <= i < |r| ==> r[i].0 in plugins - rest && plugins[r[i].0] == r[i].1
        invariant forall i, j :: 0 <= i < j < |r| ==> r[i].0 != r[j].0
        decreases rest
      {
        var name :| name in rest;
        assert forall i :: 0 <= i < |r| ==> r[i].0 != name;
        r := r + [(name, plugins[name])];
        rest := rest - {name};
      }
    }
  }

  /**
   * Removing a package keeps exactly the plugins of other packages or of
   * none, with their metadata untouched.
   */
  lemma WithoutPackageSpec(plugins: map<string, Plugin>, packageName: string, name: string)
    ensures name in WithoutPackage(plugins, packageName) <==>
      name in plugins && plugins[name].packageName != Some(packageName)
    ensures name in WithoutPackage(plugins, packageName) ==> WithoutPackage(plugins, packageName)[name] == plugins[name]
    ensures name in PackageMembers(plugins, packageName) <==>
      name in plugins && plugins[name].packageName == Some(packageName)
  {
  }

  /** The count of removed plugins is what the registry shrinks by. */
  lemma RemovalCount(plugins: map<string, Plugin>, packageName: string)
    ensures |plugins| == |WithoutPackage(plugins, packageName)| + |PackageMembers(plugins, packageName)|
  {
    var kept := WithoutPackage(plugins, packageName).Keys;
    var gone := PackageMembers(plugins, packageName);
    assert plugins.Keys == kept + gone;
    assert kept * gone == {};
  }

  /** Removing a package a second time removes nothing. */
  lemma RemovalIdempotent(plugins: map<string, Plugin>, packageName: string)
    ensures PackageMembers(WithoutPackage(plugins, packageName), packageName) == {}
    ensures WithoutPackage(WithoutPackage(plugins, packageName), packageName) == WithoutPackage(plugins, packageName)
  {
    var once := WithoutPackage(plugins, packageName);
    assert forall n :: n in once ==> !InPackage(once[n], packageName);
  }

  /** A package with no plugins is a no-op to remove. */
  lemma RemoveAbsentPackage(plugins: map<string, Plugin>, packageName: string)
    requires forall n :: n in plugins ==> plugins[n].packageName != Some(packageName)
    ensures WithoutPackage(plugins, packageName) == plugins
    ensures PackageMembers(plugins, packageName) == {}
  {
    assert WithoutPackage(plugins, packageName).Keys == plugins.Keys;
  }
}
