/**
 * Two helpers of the plugin invoker: splitting a qualified target such as
 * `pkg.module:Class` into its module and attribute, and choosing the keyword
 * arguments a configuration class is built from. Python dictionaries are
 * modelled as maps from string keys to abstract values.
 */
module InvokerKwargs {
  import opened Wrappers
  import opened Strings

  // ---------------------------------------------------------------------------
  // split_qualified_target
  // ---------------------------------------------------------------------------

  /**
   * `split_qualified_target`: split at the last `:` when there is one,
   * otherwise at the last `.`; a target with neither does not split.
   */
  function SplitQualifiedTarget(target: string): (r: Option<(string, string)>)
    ensures r.None? <==> ':' !in target && '.' !in target
    ensures r.Some? && ':' in target ==> r.value.0 + [':'] + r.value.1 == target && ':' !in r.value.1
    ensures r.Some? && ':' !in target ==>
      r.value.0 + ['.'] + r.value.1 == target && '.' !in r.value.1 && ':' !in r.value.0 + r.value.1
  {
    match RFindChar(target, ':')
    case Some(idx) =>
      assert target == target[..idx] + [':'] + target[idx + 1..];
      Some((target[..idx], target[idx + 1..]))
    case None =>
      match RFindChar(target, '.')
      case Some(idx) =>
        assert target == target[..idx] + ['.'] + target[idx + 1..];
        Some((target[..idx], target[idx + 1..]))
      case None => None
  }

  /** A module path and an attribute without `:` joined by `:` split back into the two. */
  lemma ColonRoundTrip(modulePath: string, attribute: string)
    requires ':' !in attribute
    ensures SplitQualifiedTarget(modulePath + [':'] + attribute) == Some((modulePath, attribute))
  {
    var target := modulePath + [':'] + attribute;
    assert forall j :: |modulePath| < j < |target| ==> target[j] == attribute[j - |modulePath| - 1];
    RFindCharIs(target, ':', |modulePath|);
    assert target[..|modulePath|] == modulePath;
    assert target[|modulePath| + 1..] == attribute;
  }

  /** A dotted path without `:` splits at its last dot. */
  lemma DotRoundTrip(modulePath: string, attribute: string)
    requires ':' !in modulePath && ':' !in attribute && '.' !in attribute
    ensures SplitQualifiedTarget(modulePath + ['.'] + attribute) == Some((modulePath, attribute))
  {
    var target := modulePath + ['.'] + attribute;
    assert forall j :: |modulePath| < j < |target| ==> target[j] == attribute[j - |modulePath| - 1];
    assert ':' !in target;
    RFindCharIs(target, '.', |modulePath|);
    assert target[..|modulePath|] == modulePath;
    assert target[|modulePath| + 1..] == attribute;
  }

  // ---------------------------------------------------------------------------
  // extract_config_params
  // ---------------------------------------------------------------------------

  /** A Python value: a dictionary, or anything else, known only by identity. */
  datatype PyValue = PyDict(items: map<string, PyValue>) | PyObject(id: nat)

  /** The keys that configure the store rather than the configuration class. */
  const StoreKeys: set<string> := {"data_store", "store_path", "path"}

  /** The keyword arguments of the configuration: the nested `config` dictionary, or the flat ones. */
  function ConfigParams(configDict: map<string, PyValue>, store: Option<PyValue>): map<string, PyValue>
  {
    if "config" in configDict && configDict["config"].PyDict? then configDict["config"].items
    else
      var params := map k | k in configDict && k !in StoreKeys :: configDict[k];
      if store.Some? then params["data_store" := store.value] else params
  }

  /**
   * `extract_config_params`: a nested `config` dictionary is returned as
   * it is; otherwise every entry but the store keys is copied in iteration
   * order, and the store instance, when there is one, is added as
   * `data_store`.
   */
  method ExtractConfigParams(configDict: map<string, PyValue>, store: Option<PyValue>)
    returns (params: map<string, PyValue>)
    ensures params == ConfigParams(configDict, store)
  {
    if "config" in configDict {
      var existingConfig := configDict["config"];
      if existingConfig.PyDict? {
        return existingConfig.items;
      }
    }
    params := map[];
    var rest := configDict.Keys;
    while rest != {}
      invariant rest <= configDict.Keys
      invariant params == map k | k in configDict.Keys - rest && k !in StoreKeys :: configDict[k]
      decreases rest
    {
      var key :| key in rest;
      rest := rest - {key};
      if key == "data_store" || key == "store_path" || key == "path" {
        continue;
      }
      params := params[key := configDict[key]];
    }
    if store.Some? {
      params := params["data_store" := store.value];
    }
  }

  /** A nested `config` dictionary is passed through unchanged, whatever else is given. */
  lemma NestedConfigWins(configDict: map<string, PyValue>, store: Option<PyValue>, items: map<string, PyValue>)
    requires "config" in configDict && configDict["config"] == PyDict(items)
    ensures ConfigParams(configDict, store) == items
  {
  }

  /**
   * Without a nested dictionary, a key is passed exactly when it was given
   * and is not a store key, or it is `data_store` and a store is supplied;
   * passed keys keep their values, and `data_store` holds the store.
   */
  lemma FlatParamsSpec(configDict: map<string, PyValue>, store: Option<PyValue>, key: string)
    requires !("config" in configDict && configDict["config"].PyDict?)
    ensures key in ConfigParams(configDict, store) <==>
      (key in configDict && key !in StoreKeys) || (key == "data_store" && store.Some?)
    ensures key in ConfigParams(configDict, store) && key != "data_store" ==>
      ConfigParams(configDict, store)[key] == configDict[key]
    ensures store.Some? ==> ConfigParams(configDict, store)["data_store"] == store.value
    ensures "store_path" !in ConfigParams(configDict, store) && "path" !in ConfigParams(configDict, store)
  {
  }
}
