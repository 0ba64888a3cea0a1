/**
 * The package document: the plugin list of `register_plugin()` is parsed
 * definition by definition, failures are dropped, and the records that parse
 * are wrapped with the package name and an empty metadata object.
 */
module JsonBuilder {
  import opened Wrappers
  import opened Errors
  import opened Json

  /** The records of the definitions that parse, in list order; the others are dropped. */
  function Parsed(defs: seq<string>, parse: string -> Result<Json, BridgeError>): seq<Json>
    decreases |defs|
  {
    if defs == [] then []
    else
      var front := Parsed(defs[..|defs| - 1], parse);
      match parse(defs[|defs| - 1])
      case Ok(record) => front + [record]
      case Err(_) => front
  }

  /** The document `{"name": …, "plugins": […], "metadata": {}}`. */
  function Envelope(packageName: string, plugins: seq<Json>): Json
  {
    JObj(map["name" := JStr(packageName), "plugins" := JArr(plugins), "metadata" := JObj(map[])])
  }

  /**
   * `extract_package_json`: an error of the list extractor is returned as is;
   * otherwise the envelope around the records that parse.
   */
  function PackageJson(funcContent: string, packageName: string,
                       extractList: string -> Result<seq<string>, BridgeError>,
                       parse: string -> Result<Json, BridgeError>): Result<Json, BridgeError>
  {
    match extractList(funcContent)
    case Err(e) => Err(e)
    case Ok(defs) => Ok(Envelope(packageName, Parsed(defs, parse)))
  }

  /** The loop of `extract_package_json`, with the list extractor and the parser passed in. */
  method ExtractPackageJson(funcContent: string, packageName: string,
                            extractList: string -> Result<seq<string>, BridgeError>,
                            parse: string -> Result<Json, BridgeError>)
    returns (r: Result<Json, BridgeError>)
    ensures r == PackageJson(funcContent, packageName, extractList, parse)
  {
    var list := extractList(funcContent);
    if list.Err? {
      return Err(list.error);
    }
    var defs := list.value;
    var plugins: seq<Json> := [];
    var idx := 0;
    while idx < |defs|
      invariant 0 <= idx <= |defs|
      invariant plugins == Parsed(defs[..idx], parse)
    {
      assert defs[..idx + 1][..idx] == defs[..idx];
      var parsed := parse(defs[idx]);
      if parsed.Ok? {
        plugins := plugins + [parsed.value];
      }
      idx := idx + 1;
    }
    assert defs[..|defs|] == defs;
    return Ok(Envelope(packageName, plugins));
  }

  /**
   * No more records than definitions; each record is the parse of some
   * definition, and each definition that parses gives its record.
   */
  lemma {:induction false} ParsedSpec(defs: seq<string>, parse: string -> Result<Json, BridgeError>)
    ensures |Parsed(defs, parse)| <= |defs|
    ensures forall p :: p in Parsed(defs, parse) ==> exists d :: d in defs && parse(d) == Ok(p)
    ensures forall d :: d in defs && parse(d).Ok? ==> parse(d).value in Parsed(defs, parse)
    decreases |defs|
  {
    if defs != [] {
      var front := defs[..|defs| - 1];
      ParsedSpec(front, parse);
      assert defs == front + [defs[|defs| - 1]];
    }
  }

  /** When every definition parses, the records are their parses one for one, in order. */
  lemma {:induction false} ParsedAllOk(defs: seq<string>, parse: string -> Result<Json, BridgeError>)
    requires forall i :: 0 <= i < |defs| ==> parse(defs[i]).Ok?
    ensures |Parsed(defs, parse)| == |defs|
    ensures forall i :: 0 <= i < |defs| ==> Parsed(defs, parse)[i] == parse(defs[i]).value
    decreases |defs|
  {
    if defs != [] {
      ParsedAllOk(defs[..|defs| - 1], parse);
    }
  }

  /** Definitions that fail to parse are skipped: appending one changes nothing. */
  lemma ParsedSkipsFailure(defs: seq<string>, d: string, parse: string -> Result<Json, BridgeError>)
    requires parse(d).Err?
    ensures Parsed(defs + [d], parse) == Parsed(defs, parse)
  {
    assert (defs + [d])[..|defs|] == defs;
  }

  /**
   * The document is an object with exactly `name`, `plugins` and an empty
   * `metadata`; the error of the list extractor is the only error.
   */
  lemma PackageJsonSpec(funcContent: string, packageName: string,
                        extractList: string -> Result<seq<string>, BridgeError>,
                        parse: string -> Result<Json, BridgeError>)
    ensures PackageJson(funcContent, packageName, extractList, parse).Err? <==> extractList(funcContent).Err?
    ensures extractList(funcContent).Err? ==>
      PackageJson(funcContent, packageName, extractList, parse).error == extractList(funcContent).error
    ensures PackageJson(funcContent, packageName, extractList, parse).Ok? ==>
      var doc := PackageJson(funcContent, packageName, extractList, parse).value;
      && doc.JObj? && doc.fields.Keys == {"name", "plugins", "metadata"}
      && doc.fields["name"] == JStr(packageName)
      && doc.fields["metadata"] == JObj(map[])
      && doc.fields["plugins"].JArr?
      && |doc.fields["plugins"].items| <= |extractList(funcContent).value|
  {
    if extractList(funcContent).Ok? {
      ParsedSpec(extractList(funcContent).value, parse);
    }
  }
}
