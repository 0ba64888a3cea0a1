/**
 * The CLI's persisted settings: five optional string fields addressed by
 * their dashed key names, and the `r2x-core` requirement derived from one of
 * them. Locating, loading and saving the settings file, and installing `uv`,
 * are file-system and process I/O and are not modelled.
 */
module R2xConfig {
  import opened Wrappers
  import opened Strings

  /** The known keys, in the order `values_iter` lists them. */
  const KeyOrder: seq<string> := ["cache-path", "uv-path", "python-version", "venv-path", "r2x-core-version"]

  /** The version of `r2x-core` used when none is configured. */
  const DefaultR2xCoreVersion: string := "0.1.0rc1"

  /** The position of a known key in `KeyOrder`. */
  function KeyIndex(key: string): (r: int)
    ensures key in KeyOrder ==> 0 <= r < |KeyOrder| && KeyOrder[r] == key
    ensures key !in KeyOrder ==> r == -1
  {
    if key == "cache-path" then 0
    else if key == "uv-path" then 1
    else if key == "python-version" then 2
    else if key == "venv-path" then 3
    else if key == "r2x-core-version" then 4
    else -1
  }

  /** The version text already carries a comparison operator. */
  predicate HasOperator(version: string)
  {
    || Contains(version, ">=") || Contains(version, "<=") || Contains(version, "~=")
    || Contains(version, "!=") || Contains(version, "==") || Contains(version, ">")
    || Contains(version, "<")
  }

  /** `r2x-core` followed by the version, with `==` in between unless the version has an operator. */
  function PackageSpecFor(version: string): (r: string)
    ensures StartsWith(r, "r2x-core") && EndsWith(r, version)
    ensures HasOperator(r[8..])
    ensures HasOperator(version) ==> r == "r2x-core" + version
    ensures !HasOperator(version) ==> r == "r2x-core==" + version
  {
    if HasOperator(version) then
      var r := "r2x-core" + version;
      assert r[8..] == version;
      r
    else
      var r := "r2x-core==" + version;
      assert OccursAt(r[8..], "==", 0);
      ContainsAt(r[8..], "==", 0);
      r
  }

  /** The pair a set field contributes to the listing. */
  function Entry(key: string, field: Option<string>): seq<(string, string)>
  {
    if field.Some? then [(key, field.value)] else []
  }

  /** The pairs of the keys whose field is set, in key order. */
  function Listed(keys: seq<string>, fields: seq<Option<string>>): seq<(string, string)>
    requires |keys| == |fields|
    decreases |keys|
  {
    if keys == [] then []
    else Listed(keys[..|keys| - 1], fields[..|keys| - 1]) + Entry(keys[|keys| - 1], fields[|keys| - 1])
  }

  /** One `if let Some(ref val) = … { values.push(…) }` step of `values_iter`. */
  method PushIfSet(values: seq<(string, string)>, key: string, field: Option<string>) returns (r: seq<(string, string)>)
    ensures r == values + Entry(key, field)
  {
    r := values;
    if field.Some? {
      r := r + [(key, field.value)];
    }
  }

  /** One more key adds its pair, if its field is set. */
  lemma ListedPrefix(keys: seq<string>, fields: seq<Option<string>>, i: nat)
    requires |keys| == |fields| && i < |keys|
    ensures Listed(keys[..i + 1], fields[..i + 1]) == Listed(keys[..i], fields[..i]) + Entry(keys[i], fields[i])
  {
    assert keys[..i + 1][..i] == keys[..i];
    assert fields[..i + 1][..i] == fields[..i];
  }

  /** A pair is listed exactly when some key has that value. */
  lemma {:induction false} ListedMember(keys: seq<string>, fields: seq<Option<string>>, k: string, v: string)
    requires |keys| == |fields|
    ensures (k, v) in Listed(keys, fields) <==> exists i :: 0 <= i < |keys| && keys[i] == k && fields[i] == Some(v)
    decreases |keys|
  {
    if keys != [] {
      var n := |keys| - 1;
      ListedMember(keys[..n], fields[..n], k, v);
      assert forall i :: 0 <= i < n ==> keys[..n][i] == keys[i] && fields[..n][i] == fields[i];
    }
  }

  /**
   * With keys at their own positions, the listed keys come in increasing
   * position, all below the number of keys.
   */
  lemma {:induction false} ListedOrder(keys: seq<string>, fields: seq<Option<string>>)
    requires |keys| == |fields| <= |KeyOrder|
    requires forall i :: 0 <= i < |keys| ==> KeyIndex(keys[i]) == i
    ensures forall a :: 0 <= a < |Listed(keys, fields)| ==> 0 <= KeyIndex(Listed(keys, fields)[a].0) < |keys|
    ensures forall a, b :: 0 <= a < b < |Listed(keys, fields)| ==>
      KeyIndex(Listed(keys, fields)[a].0) < KeyIndex(Listed(keys, fields)[b].0)
    decreases |keys|
  {
    if keys != [] {
      var n := |keys| - 1;
      ListedOrder(keys[..n], fields[..n]);
    }
  }

  class Config {
    var cachePath: Option<string>
    var uvPath: Option<string>
    var pythonVersion: Option<string>
    var venvPath: Option<string>
    var r2xCoreVersion: Option<string>

    /** `Config::default()`: nothing set. */
    constructor ()
      ensures cachePath.None? && uvPath.None? && pythonVersion.None? && venvPath.None? && r2xCoreVersion.None?
      ensures IsEmpty()
    {
      cachePath := None;
      uvPath := None;
      pythonVersion := None;
      venvPath := None;
      r2xCoreVersion := None;
    }

    /** `get`: the field a known key names; nothing for any other key. */
    function Get(key: string): (r: Option<string>)
      reads this
      ensures key !in KeyOrder ==> r.None?
    {
      match key
      case "cache-path" => cachePath
      case "uv-path" => uvPath
      case "python-version" => pythonVersion
      case "venv-path" => venvPath
      case "r2x-core-version" => r2xCoreVersion
      case _ => None
    }

    /** `set`: a known key's field becomes the value and nothing else changes; any other key changes nothing. */
    method Set(key: string, value: string)
      modifies this
      ensures key in KeyOrder ==> Get(key) == Some(value)
      ensures forall k :: k != key ==> Get(k) == old(Get(k))
      ensures key !in KeyOrder ==>
        cachePath == old(cachePath) && uvPath == old(uvPath) && pythonVersion == old(pythonVersion)
        && venvPath == old(venvPath) && r2xCoreVersion == old(r2xCoreVersion)
      ensures key in KeyOrder ==> !IsEmpty()
    {
      match key
      case "cache-path" => cachePath := Some(value);
      case "uv-path" => uvPath := Some(value);
      case "python-version" => pythonVersion := Some(value);
      case "venv-path" => venvPath := Some(value);
      case "r2x-core-version" => r2xCoreVersion := Some(value);
      case _ =>
    }

    /** `is_empty`: no key has a value. */
    function IsEmpty(): (r: bool)
      reads this
      ensures r <==> forall k :: k in KeyOrder ==> Get(k).None?
    {
      assert Get(KeyOrder[0]) == cachePath && Get(KeyOrder[1]) == uvPath && Get(KeyOrder[2]) == pythonVersion
        && Get(KeyOrder[3]) == venvPath && Get(KeyOrder[4]) == r2xCoreVersion;
      cachePath.None? && uvPath.None? && pythonVersion.None? && venvPath.None? && r2xCoreVersion.None?
    }

    /** The fields, in the order of `KeyOrder`. */
    function Fields(): (r: seq<Option<string>>)
      reads this
      ensures |r| == |KeyOrder| && forall i :: 0 <= i < |KeyOrder| ==> r[i] == Get(KeyOrder[i])
    {
      [cachePath, uvPath, pythonVersion, venvPath, r2xCoreVersion]
    }

    /** The set keys with their values, in the order of `KeyOrder`. */
    function Values(): seq<(string, string)>
      reads this
    {
      Listed(KeyOrder, Fields())
    }

    /** `values_iter`: one push per field that is set, in declaration order. */
    method ValuesIter() returns (values: seq<(string, string)>)
      ensures values == Values()
    {
      ghost var fields := Fields();
      values := [];
      assert values == Listed(KeyOrder[..0], fields[..0]);
      values := PushIfSet(values, "cache-path", cachePath);
      ListedPrefix(KeyOrder, fields, 0);
      values := PushIfSet(values, "uv-path", uvPath);
      ListedPrefix(KeyOrder, fields, 1);
      values := PushIfSet(values, "python-version", pythonVersion);
      ListedPrefix(KeyOrder, fields, 2);
      values := PushIfSet(values, "venv-path", venvPath);
      ListedPrefix(KeyOrder, fields, 3);
      values := PushIfSet(values, "r2x-core-version", r2xCoreVersion);
      ListedPrefix(KeyOrder, fields, 4);
      assert KeyOrder[..5] == KeyOrder && fields[..5] == fields;
    }

    /**
     * `get_r2x_core_package_spec`: the configured version, or `0.1.0rc1`,
     * as a requirement on `r2x-core` that always carries an operator.
     */
    function R2xCorePackageSpec(): (r: string)
      reads this
      ensures StartsWith(r, "r2x-core") && HasOperator(r[8..])
      ensures EndsWith(r, UnwrapOr(r2xCoreVersion, DefaultR2xCoreVersion))
    {
      PackageSpecFor(UnwrapOr(r2xCoreVersion, DefaultR2xCoreVersion))
    }
  }

  /**
   * The listing holds exactly the keys that have a value, each with that
   * value, and lists them in the order of `KeyOrder`.
   */
  lemma ValuesSpec(c: Config, k: string, v: string)
    ensures (k, v) in c.Values() <==> k in KeyOrder && c.Get(k) == Some(v)
    ensures forall i, j :: 0 <= i < j < |c.Values()| ==> KeyIndex(c.Values()[i].0) < KeyIndex(c.Values()[j].0)
  {
    var fields := c.Fields();
    ListedMember(KeyOrder, fields, k, v);
    assert forall i :: 0 <= i < |KeyOrder| ==> KeyIndex(KeyOrder[i]) == i;
    ListedOrder(KeyOrder, fields);
  }

  /** The default version has no operator, so it is pinned with `==`. */
  lemma DefaultPackageSpec()
    ensures PackageSpecFor(DefaultR2xCoreVersion) == "r2x-core==0.1.0rc1"
  {
    NoOperatorInDefault();
    assert "r2x-core==" + DefaultR2xCoreVersion == "r2x-core==0.1.0rc1";
  }

  /** `0.1.0rc1` contains none of the operator characters. */
  lemma NoOperatorInDefault()
    ensures !HasOperator(DefaultR2xCoreVersion)
  {
    var v := DefaultR2xCoreVersion;
    assert '>' !in v && '<' !in v && '~' !in v && '!' !in v && '=' !in v;
    NoOccurrence(v, ">=");
    NoOccurrence(v, "<=");
    NoOccurrence(v, "~=");
    NoOccurrence(v, "!=");
    NoOccurrence(v, "==");
    NoOccurrence(v, ">");
    NoOccurrence(v, "<");
  }

  /** A pattern whose first character does not occur in the text does not occur in it. */
  lemma NoOccurrence(s: string, p: string)
    requires p != [] && p[0] !in s
    ensures !Contains(s, p)
  {
  }

  /** A version with an explicit operator is used as is. */
  lemma OperatorVersionKept(version: string, i: int)
    requires OccursAt(version, ">=", i)
    ensures PackageSpecFor(version) == "r2x-core" + version
  {
    ContainsAt(version, ">=", i);
  }
}
