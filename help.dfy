/**
 * The data-store check behind `r2x run --plugin … --help`: whether the usage
 * line should ask for `--store-path`. The help text itself is printing and is
 * not modelled.
 */
module Help {
  import opened Wrappers
  import opened Strings
  import opened PluginManifest

  /** An annotation that names the data store type or a `data_store` value. */
  predicate MentionsStore(annotation: string)
  {
    Contains(annotation, "DataStore") || Contains(annotation, "data_store")
  }

  /** Some parameter is annotated with a mention of the data store. */
  predicate AnyMentionsStore(parameters: map<string, ParameterMetadata>)
  {
    exists name :: name in parameters && parameters[name].annotation.Some?
      && MentionsStore(parameters[name].annotation.value)
  }

  /**
   * A plugin needs a store when its metadata says so, or when a parameter of
   * its callable or of its configuration class mentions the data store.
   */
  predicate NeedsStore(plugin: Plugin)
  {
    || UnwrapOr(plugin.requiresStore, false)
    || (plugin.obj.Some? && AnyMentionsStore(plugin.obj.value.parameters))
    || (plugin.config.Some? && AnyMentionsStore(plugin.config.value.parameters))
  }

  /**
   * One of the loops of `check_needs_datastore`: the parameters are visited
   * in some order until one mentions the data store.
   */
  method ScanParameters(parameters: map<string, ParameterMetadata>) returns (found: bool)
    ensures found <==> AnyMentionsStore(parameters)
  {
    found := false;
    var rest := parameters.Keys;
    while rest != {}
      invariant rest <= parameters.Keys
      invariant forall name :: name in parameters - rest ==>
        parameters[name].annotation.None? || !MentionsStore(parameters[name].annotation.value)
      decreases rest
    {
      var name :| name in rest;
      var annotation := parameters[name].annotation;
      if annotation.Some? {
        if Contains(annotation.value, "DataStore") || Contains(annotation.value, "data_store") {
          found := true;
          break;
        }
      }
      rest := rest - {name};
    }
  }

  /**
   * `check_needs_datastore`: start from `requires_store` (false when
   * absent), then scan the callable's parameters, and the configuration's
   * only while no reason has been found.
   */
  method CheckNeedsDatastore(plugin: Plugin) returns (needsStore: bool)
    ensures needsStore <==> NeedsStore(plugin)
  {
    needsStore := UnwrapOr(plugin.requiresStore, false);
    if plugin.obj.Some? {
      var found := ScanParameters(plugin.obj.value.parameters);
      if found {
        needsStore := true;
      }
    }
    if !needsStore {
      if plugin.config.Some? {
        var found := ScanParameters(plugin.config.value.parameters);
        if found {
          needsStore := true;
        }
      }
    }
  }

  /** `requires_store = true` is never overridden. */
  lemma DeclaredStoreWins(plugin: Plugin)
    requires plugin.requiresStore == Some(true)
    ensures NeedsStore(plugin)
  {
  }

  /**
   * A new callable parameter without an annotation changes nothing.
   */
  lemma UnannotatedParameterIrrelevant(plugin: Plugin, name: string, param: ParameterMetadata)
    requires param.annotation.None?
    requires plugin.obj.Some? && name !in plugin.obj.value.parameters
    ensures NeedsStore(plugin.(obj := Some(plugin.obj.value.(parameters := plugin.obj.value.parameters[name := param]))))
      <==> NeedsStore(plugin)
  {
    var before := plugin.obj.value.parameters;
    var after := before[name := param];
    if AnyMentionsStore(after) {
      var k :| k in after && after[k].annotation.Some? && MentionsStore(after[k].annotation.value);
      assert k != name && k in before;
    }
    if AnyMentionsStore(before) {
      var k :| k in before && before[k].annotation.Some? && MentionsStore(before[k].annotation.value);
      assert k in after && after[k] == before[k];
    }
  }

  /**
   * An annotation with `DataStore` or `data_store` anywhere in it, on any
   * callable parameter, makes the plugin need a store.
   */
  lemma AnnotationDecides(plugin: Plugin, name: string, annotation: string, i: int)
    requires plugin.obj.Some? && name in plugin.obj.value.parameters
    requires plugin.obj.value.parameters[name].annotation == Some(annotation)
    requires OccursAt(annotation, "DataStore", i) || OccursAt(annotation, "data_store", i)
    ensures NeedsStore(plugin)
  {
    if OccursAt(annotation, "DataStore", i) {
      ContainsAt(annotation, "DataStore", i);
    } else {
      ContainsAt(annotation, "data_store", i);
    }
  }

  /** With no mention of the store in any parameter, the declared flag alone decides. */
  lemma NoMentionFlagDecides(plugin: Plugin)
    requires plugin.obj.None? || !AnyMentionsStore(plugin.obj.value.parameters)
    requires plugin.config.None? || !AnyMentionsStore(plugin.config.value.parameters)
    ensures NeedsStore(plugin) <==> plugin.requiresStore == Some(true)
  {
  }
}
