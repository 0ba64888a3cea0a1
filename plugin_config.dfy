/**
 * The fixed tables of plugin discovery: the recognised constructor names, the
 * constructor-to-type table, the name-based callable heuristic and the
 * `IOType` enum table.
 */
module PluginConfig {
  import opened Wrappers
  import opened Strings

  /** The recognised plugin constructor names, in the order the locator searches for them. */
  const PluginClasses: seq<string> := ["ParserPlugin", "UpgraderPlugin", "BasePlugin", "ExporterPlugin"]

  /** The plugin type discriminator for a constructor name. */
  function InferType(ctor: string): (r: string)
    ensures r == "parser" <==> ctor == "ParserPlugin"
    ensures r == "exporter" <==> ctor == "ExporterPlugin"
    ensures r == "upgrader" <==> ctor == "UpgraderPlugin"
    ensures r == "function" <==> ctor !in {"ParserPlugin", "ExporterPlugin", "UpgraderPlugin"}
  {
    match ctor
    case "ParserPlugin" => "parser"
    case "ExporterPlugin" => "exporter"
    case "UpgraderPlugin" => "upgrader"
    case "BasePlugin" => "function"
    case _ => "function"
  }

  /** Every name that contains `parser` also contains `parse`. */
  lemma ParserContainsParse(name: string)
    requires Contains(name, "parser")
    ensures Contains(name, "parse")
  {
    var i := Find(name, "parser").value;
    assert name[i..i + 5] == name[i..i + 6][..5];
    ContainsAt(name, "parse", i);
  }

  /**
   * The callable kind guessed from substrings of the name, first match wins:
   * `parse` (which covers `parser`), then `export`, then `upgrade`.
   */
  function InferCallableTypeFromName(name: string): (r: string)
    ensures r == "parser" <==> Contains(name, "parse")
    ensures r == "exporter" <==> !Contains(name, "parse") && Contains(name, "export")
    ensures r == "upgrader" <==> !Contains(name, "parse") && !Contains(name, "export") && Contains(name, "upgrade")
    ensures r == "function" <==> !Contains(name, "parse") && !Contains(name, "export") && !Contains(name, "upgrade")
  {
    if Contains(name, "parser") then ParserContainsParse(name); "parser"
    else if Contains(name, "parse") then "parser"
    else if Contains(name, "export") then "exporter"
    else if Contains(name, "upgrade") then "upgrader"
    else "function"
  }

  /**
   * `IOType.STDOUT`, `IOType.STDIN` and `IOType.BOTH` resolve to the member
   * name in lower case; every other expression is unknown.
   */
  function ResolveEnumValue(expr: string): (r: Option<string>)
    ensures r.Some? <==> expr in {"IOType.STDOUT", "IOType.STDIN", "IOType.BOTH"}
  {
    match expr
    case "IOType.STDOUT" => Some("stdout")
    case "IOType.STDIN" => Some("stdin")
    case "IOType.BOTH" => Some("both")
    case _ => None
  }

  /**
   * A resolved member is the `IOType.` name lowered: every character is a
   * lower-case letter, and upper-casing it gives back the member name.
   */
  lemma EnumValueSpec(expr: string)
    requires ResolveEnumValue(expr).Some?
    ensures StartsWith(expr, "IOType.") && ToUpper(ResolveEnumValue(expr).value) == expr[7..]
    ensures forall i :: 0 <= i < |ResolveEnumValue(expr).value| ==> 'a' <= ResolveEnumValue(expr).value[i] <= 'z'
  {
  }
}
