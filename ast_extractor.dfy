/**
 * The manifest-based extractor: the table from imported class names to
 * their modules, the plugin kind named by a `PluginSpec` helper method, the
 * input/output contract each kind implies, and the resources (configuration
 * class and data store) a registration declares.
 */
module AstExtractor {
  import opened Wrappers
  import opened Strings
  import opened Assoc
  import ImportResolver

  // ---------------------------------------------------------------------------
  // The import map
  // ---------------------------------------------------------------------------

  /** `s.trim_start_matches(|c| c in cs)` */
  function StripStart(s: string, cs: set<char>): (r: string)
    ensures |r| <= |s|
  {
    if s != [] && s[0] in cs then StripStart(s[1..], cs) else s
  }

  /** `s.trim_end_matches(|c| c in cs)` */
  function StripEnd(s: string, cs: set<char>): (r: string)
    ensures |r| <= |s|
  {
    if s != [] && s[|s| - 1] in cs then StripEnd(s[..|s| - 1], cs) else s
  }

  /** `s.trim_matches(|c| c in cs)`: the characters of `cs` dropped from both ends. */
  function StripMatches(s: string, cs: set<char>): string
  {
    StripEnd(StripStart(s, cs), cs)
  }

  /** Stripping the front leaves a suffix whose dropped part is all in `cs`. */
  lemma {:induction false} StripStartSpec(s: string, cs: set<char>)
    ensures var r := StripStart(s, cs);
      && |r| <= |s| && (forall j :: 0 <= j < |r| ==> r[j] == s[|s| - |r| + j])
      && (forall i :: 0 <= i < |s| - |r| ==> s[i] in cs)
      && (r != [] ==> r[0] !in cs)
    decreases |s|
  {
    if s != [] && s[0] in cs {
      var r := StripStart(s, cs);
      StripStartSpec(s[1..], cs);
      forall j | 0 <= j < |r|
        ensures r[j] == s[|s| - |r| + j]
      {
        assert s[1..][|s| - 1 - |r| + j] == s[|s| - |r| + j];
      }
      forall i | 1 <= i < |s| - |r|
        ensures s[i] in cs
      {
        assert s[1..][i - 1] == s[i];
      }
    }
  }

  /** Stripping the back leaves a prefix whose dropped part is all in `cs`. */
  lemma {:induction false} StripEndSpec(s: string, cs: set<char>)
    ensures var r := StripEnd(s, cs);
      && |r| <= |s| && (forall j :: 0 <= j < |r| ==> r[j] == s[j])
      && (forall i :: |r| <= i < |s| ==> s[i] in cs)
      && (r != [] ==> r[|r| - 1] !in cs)
    decreases |s|
  {
    if s != [] && s[|s| - 1] in cs {
      var r := StripEnd(s, cs);
      StripEndSpec(s[..|s| - 1], cs);
      forall j | 0 <= j < |r|
        ensures r[j] == s[j]
      {
        assert s[..|s| - 1][j] == s[j];
      }
      forall i | |r| <= i < |s| - 1
        ensures s[i] in cs
      {
        assert s[..|s| - 1][i] == s[i];
      }
    }
  }

  /**
   * What is left is the piece `s[a..a + |r|]` of the text with characters of
   * `cs` only before and after it, and it neither starts nor ends with one
   * of them.
   */
  lemma {:induction false} StripMatchesSpec(s: string, cs: set<char>)
    ensures var r := StripMatches(s, cs);
      var a := |s| - |StripStart(s, cs)|;
      && (r != [] ==> r[0] !in cs && r[|r| - 1] !in cs)
      && a + |r| <= |s| && (forall j :: 0 <= j < |r| ==> r[j] == s[a + j])
      && (forall i :: 0 <= i < a ==> s[i] in cs)
      && (forall i :: a + |r| <= i < |s| ==> s[i] in cs)
    decreases |s|
  {
    if s != [] && s[0] in cs {
      var rest := s[1..];
      StripMatchesSpec(rest, cs);
      var r := StripMatches(s, cs);
      var a := |s| - |StripStart(s, cs)|;
      assert r == StripMatches(rest, cs) && a - 1 == |rest| - |StripStart(rest, cs)|;
      forall j | 0 <= j < |r|
        ensures r[j] == s[a + j]
      {
        assert rest[a - 1 + j] == s[a + j];
      }
      forall i | 1 <= i < a
        ensures s[i] in cs
      {
        assert rest[i - 1] == s[i];
      }
      forall i | a + |r| <= i < |s|
        ensures s[i] in cs
      {
        assert rest[i - 1] == s[i];
      }
    } else {
      StripEndSpec(s, cs);
    }
  }

  const ItemDelimiters: set<char> := {'(', ')', ','}

  /**
   * The name one comma-separated item of `from M import …` binds: the
   * trimmed item, or what follows its first ` as `, with `(`, `)` and `,`
   * stripped from its ends and trimmed again. Empty items, items ending in
   * a backslash, and names that are empty or start with `#` bind nothing.
   */
  function ItemName(piece: string): Option<string>
  {
    var item := Trim(piece);
    if EndsWith(item, "\\") || item == [] then None
    else
      var name := CleanName(AliasTarget(item));
      if name != [] && name[0] != '#' then Some(name) else None
  }

  /** What follows the first ` as `, trimmed, or the whole item. */
  function AliasTarget(item: string): string
  {
    match Find(item, " as ")
    case Some(a) => Trim(item[a + 4..])
    case None => item
  }

  /** `(`, `)` and `,` stripped from both ends, then whitespace. */
  function CleanName(className: string): string
  {
    Trim(StripMatches(className, ItemDelimiters))
  }

  /** The insert each item makes: its name, mapped to the module text. */
  function ItemsOf(moduleText: string): string -> Option<(string, string)>
  {
    Tagged(ItemName, moduleText)
  }

  /**
   * The trimmed module text and the trimmed import list of a trimmed line
   * `from M import …`; None for a comment and for any other line. A line
   * whose first ` import ` overlaps `from ` is skipped, as in
   * ImportResolver.ImportStatement.
   */
  function StaticImport(line: string): Option<(string, string)>
  {
    if StartsWith(line, "#") then None
    else
      match ImportResolver.ImportStatement(line)
      case None => None
      case Some((moduleText, imports)) => Some((Trim(moduleText), Trim(imports)))
  }

  /** The inserts one line makes, in order. */
  function LineImports(line: string): seq<(string, string)>
  {
    match StaticImport(Trim(line))
    case None => []
    case Some((moduleText, imports)) => Collect(ItemsOf(moduleText), Split(imports, ','))
  }

  /** The inserts of a sequence of lines, in order. */
  function StaticEntries(lines: seq<string>): seq<(string, string)>
  {
    if lines == [] then [] else StaticEntries(lines[..|lines| - 1]) + LineImports(lines[|lines| - 1])
  }

  /** `build_import_map_static`: class name ↦ module. */
  function StaticImportMap(content: string): map<string, string>
  {
    ToMap(StaticEntries(Lines(content)))
  }

  /** The inner loop of `build_import_map_static` over the items of one import line. */
  method InsertImportItems(ghost done: seq<(string, string)>, moduleText: string, pieces: seq<string>,
                           map0: map<string, string>)
    returns (m: map<string, string>)
    requires map0 == ToMap(done)
    ensures m == ToMap(done + Collect(ItemsOf(moduleText), pieces))
  {
    m := map0;
    var k := 0;
    assert pieces[..0] == [];
    assert done + [] == done;
    while k < |pieces|
      invariant 0 <= k <= |pieces|
      invariant m == ToMap(done + Collect(ItemsOf(moduleText), pieces[..k]))
    {
      ToMapCollectStep(ItemsOf(moduleText), done, pieces, k);
      var className := ItemNameOf(pieces[k]);
      if className.Some? {
        m := m[className.value := moduleText];
      }
      k := k + 1;
    }
    assert pieces[..k] == pieces;
  }

  /** The body of the inner loop for one item, with its two `continue`s. */
  method ItemNameOf(piece: string) returns (r: Option<string>)
    ensures r == ItemName(piece)
  {
    var importItem := Trim(piece);
    if EndsWith(importItem, "\\") || importItem == [] {
      return None;
    }
    var className := AliasTargetOf(importItem);
    className := Trim(StripMatches(className, ItemDelimiters));
    if className != [] && className[0] != '#' {
      return Some(className);
    }
    return None;
  }

  /** The name an item binds before cleaning: the alias after ` as `, if any. */
  method AliasTargetOf(importItem: string) returns (className: string)
    ensures className == AliasTarget(importItem)
  {
    className := importItem;
    var asIdx := Find(importItem, " as ");
    if asIdx.Some? {
      className := Trim(importItem[asIdx.value + 4..]);
    }
  }

  /** `build_import_map_static`: a loop over the lines of the file. */
  method BuildImportMapStatic(content: string) returns (m: map<string, string>)
    ensures m == StaticImportMap(content)
  {
    m := map[];
    var lines := Lines(content);
    var n := 0;
    while n < |lines|
      invariant 0 <= n <= |lines|
      invariant m == ToMap(StaticEntries(lines[..n]))
    {
      StaticEntriesPrefix(lines, n);
      ghost var done := StaticEntries(lines[..n]);
      var line := Trim(lines[n]);
      var statement := StaticImport(line);
      if statement.Some? {
        LineImportsItems(lines[n], statement.value.0, statement.value.1);
        var pieces := Split(statement.value.1, ',');
        m := InsertImportItems(done, statement.value.0, pieces, m);
      } else {
        assert done + [] == done;
      }
      n := n + 1;
    }
    assert lines[..n] == lines;
  }

  /**
   * An item binds nothing when it is empty or ends in a backslash; a name it
   * binds is not empty, does not start with `#`, and has no whitespace at
   * either end.
   */
  lemma ItemNameSpec(piece: string)
    ensures Trim(piece) == [] || EndsWith(Trim(piece), "\\") ==> ItemName(piece).None?
    ensures ItemName(piece).Some? ==>
      var name := ItemName(piece).value;
      name != [] && name[0] != '#' && !IsWhitespace(name[0]) && !IsWhitespace(name[|name| - 1])
  {
  }

  /** `B as C` binds C, the alias, when B is one word and C a plain name. */
  lemma AliasItem(b: string, c: string)
    requires b != [] && forall k :: 0 <= k < |b| ==> !IsWhitespace(b[k])
    requires c != [] && c[0] != '#' && c[|c| - 1] != '\\'
    requires forall k :: 0 <= k < |c| ==> !IsWhitespace(c[k]) && c[k] !in ItemDelimiters
    ensures ItemName(b + " as " + c) == Some(c)
  {
    var item := b + " as " + c;
    assert item[|item| - 1] == c[|c| - 1] && item[0] == b[0];
    TrimNoop(item);
    AliasTargetOfAlias(b, c);
    CleanNameOfPlain(c);
  }

  /** The text after the first ` as ` of `B as C`, for a word B and a trimmed C. */
  lemma AliasTargetOfAlias(b: string, c: string)
    requires b != [] && forall k :: 0 <= k < |b| ==> !IsWhitespace(b[k])
    requires c != [] && !IsWhitespace(c[0]) && !IsWhitespace(c[|c| - 1])
    ensures AliasTarget(b + " as " + c) == c
  {
    var item := b + " as " + c;
    assert OccursAt(item, " as ", |b|);
    forall j | 0 <= j < |b|
      ensures !OccursAt(item, " as ", j)
    {
      ImportResolver.Mismatch(item, " as ", j, 0);
    }
    assert item[|b| + 4..] == c;
    TrimNoop(c);
  }

  /** A name with no delimiter and no whitespace at its ends is already clean. */
  lemma CleanNameOfPlain(c: string)
    requires c != [] && !IsWhitespace(c[0]) && !IsWhitespace(c[|c| - 1])
    requires c[0] !in ItemDelimiters && c[|c| - 1] !in ItemDelimiters
    ensures CleanName(c) == c
  {
    assert StripStart(c, ItemDelimiters) == c;
    assert StripEnd(c, ItemDelimiters) == c;
    TrimNoop(c);
  }

  /** A line that is a comment once trimmed imports nothing. */
  lemma CommentLineImportsNothing(line: string)
    requires StartsWith(Trim(line), "#")
    ensures LineImports(line) == []
  {
  }

  /** The prefix one line longer adds that line's inserts. */
  lemma StaticEntriesPrefix(lines: seq<string>, n: nat)
    requires n < |lines|
    ensures StaticEntries(lines[..n + 1]) == StaticEntries(lines[..n]) + LineImports(lines[n])
  {
    assert lines[..n + 1][..n] == lines[..n];
  }

  /** The inserts of an import line are those of its items. */
  lemma LineImportsItems(line: string, moduleText: string, imports: string)
    requires StaticImport(Trim(line)) == Some((moduleText, imports))
    ensures LineImports(line) == Collect(ItemsOf(moduleText), Split(imports, ','))
  {
  }

  /**
   * The names an import line imports are exactly the names its
   * comma-separated items bind, each mapped to the line's trimmed module
   * text.
   */
  lemma LineImportsSpec(line: string, moduleText: string, imports: string, name: string)
    requires StaticImport(Trim(line)) == Some((moduleText, imports))
    ensures name in ToMap(LineImports(line)) <==>
      exists i :: 0 <= i < |Split(imports, ',')| && ItemName(Split(imports, ',')[i]) == Some(name)
    ensures name in ToMap(LineImports(line)) ==> ToMap(LineImports(line))[name] == moduleText
  {
    LineImportsItems(line, moduleText, imports);
    CollectTagged(ItemName, moduleText, Split(imports, ','), name);
  }

  /** Lines act in order: a later import of a name overwrites an earlier one. */
  lemma StaticAppendLine(lines: seq<string>, line: string)
    ensures ToMap(StaticEntries(lines + [line])) == ToMap(StaticEntries(lines)) + ToMap(LineImports(line))
  {
    assert (lines + [line])[..|lines|] == lines;
    ToMapConcat(StaticEntries(lines), LineImports(line));
  }

  /** Line `i` of `lines` is an import line whose trimmed module text is `v`. */
  predicate ModuleOfLine(lines: seq<string>, i: int, v: string)
  {
    0 <= i < |lines| && StaticImport(Trim(lines[i])).Some? && StaticImport(Trim(lines[i])).value.0 == v
  }

  /** A name one line imports maps to that line's module text. */
  lemma LineImportsValue(line: string, name: string)
    requires name in ToMap(LineImports(line))
    ensures StaticImport(Trim(line)).Some? && ToMap(LineImports(line))[name] == StaticImport(Trim(line)).value.0
  {
    if StaticImport(Trim(line)).Some? {
      var (moduleText, imports) := StaticImport(Trim(line)).value;
      LineImportsSpec(line, moduleText, imports, name);
    }
  }

  /** Every value of the map is the trimmed module text of an import line. */
  lemma {:induction false} StaticValuesAreModules(lines: seq<string>, name: string)
    requires name in ToMap(StaticEntries(lines))
    ensures exists i :: ModuleOfLine(lines, i, ToMap(StaticEntries(lines))[name])
    decreases |lines|
  {
    if lines != [] {
      var front := lines[..|lines| - 1];
      var line := lines[|lines| - 1];
      assert StaticEntries(lines) == StaticEntries(front) + LineImports(line);
      ToMapConcat(StaticEntries(front), LineImports(line));
      var v := ToMap(StaticEntries(lines))[name];
      if name in ToMap(LineImports(line)) {
        LineImportsValue(line, name);
        assert ModuleOfLine(lines, |lines| - 1, v);
      } else {
        StaticValuesAreModules(front, name);
        var i :| ModuleOfLine(front, i, v);
        assert lines[i] == front[i];
        assert ModuleOfLine(lines, i, v);
      }
    }
  }

  // ---------------------------------------------------------------------------
  // Plugin kinds and their contracts
  // ---------------------------------------------------------------------------

  datatype PluginKind = Parser | Exporter | Modifier | Upgrader | Utility

  /** The `PluginSpec` helper method each kind is registered with. */
  function HelperName(kind: PluginKind): string
  {
    match kind
    case Parser => "parser"
    case Exporter => "exporter"
    case Modifier => "function"
    case Upgrader => "upgrader"
    case Utility => "utility"
  }

  /** The kind a helper method name stands for; any other name is an error. */
  function KindOfHelper(helperMethod: string): Result<PluginKind, string>
  {
    match helperMethod
    case "parser" => Ok(Parser)
    case "exporter" => Ok(Exporter)
    case "function" => Ok(Modifier)
    case "upgrader" => Ok(Upgrader)
    case "utility" => Ok(Utility)
    case _ => Err("Unknown PluginSpec helper method: " + helperMethod)
  }

  /** The mapping and the helper names are inverse: a name maps to a kind exactly when it is that kind's helper. */
  lemma KindOfHelperInverse(helperMethod: string, kind: PluginKind)
    ensures KindOfHelper(HelperName(kind)) == Ok(kind)
    ensures KindOfHelper(helperMethod) == Ok(kind) <==> helperMethod == HelperName(kind)
    ensures KindOfHelper(helperMethod).Err? <==> helperMethod !in {"parser", "exporter", "function", "upgrader", "utility"}
  {
  }

  datatype IOSlot = StoreFolder | ConfigFile | System | Folder

  datatype IOContract = IOContract(consumes: seq<IOSlot>, produces: seq<IOSlot>)

  /** `infer_io_contract` */
  function InferIoContract(kind: PluginKind): IOContract
  {
    match kind
    case Parser => IOContract([StoreFolder, ConfigFile], [System])
    case Exporter => IOContract([System, ConfigFile], [Folder])
    case Modifier => IOContract([System], [System])
    case _ => IOContract([], [])
  }

  /**
   * Parsers and modifiers produce a system, exporters and modifiers consume
   * one, only parsers read the store folder, only exporters write a folder,
   * and upgraders and utilities declare nothing.
   */
  lemma IoContractSpec(kind: PluginKind)
    ensures System in InferIoContract(kind).produces <==> kind == Parser || kind == Modifier
    ensures System in InferIoContract(kind).consumes <==> kind == Exporter || kind == Modifier
    ensures StoreFolder in InferIoContract(kind).consumes <==> kind == Parser
    ensures Folder in InferIoContract(kind).produces <==> kind == Exporter
    ensures ConfigFile in InferIoContract(kind).consumes <==> kind == Parser || kind == Exporter
    ensures InferIoContract(kind) == IOContract([], []) <==> kind == Upgrader || kind == Utility
  {
  }

  // ---------------------------------------------------------------------------
  // Resources
  // ---------------------------------------------------------------------------

  /** A keyword argument of a `PluginSpec` helper call, as the argument scanner gives it. */
  datatype KwArg = KwArg(name: string, value: string)

  /** The configuration class and the module it is imported from. */
  datatype ConfigSpec = ConfigSpec(moduleName: string, name: string)

  datatype StoreMode = FolderMode

  datatype StoreSpec = StoreSpec(mode: StoreMode, path: Option<string>)

  datatype ResourceSpec = ResourceSpec(store: Option<StoreSpec>, config: Option<ConfigSpec>)

  /** `kwargs.iter().find(|arg| arg.name == name)`: the first argument with that name. */
  function FindArg(kwargs: seq<KwArg>, name: string): (r: Option<KwArg>)
    ensures r.Some? ==> r.value in kwargs && r.value.name == name
    ensures r.None? <==> forall i :: 0 <= i < |kwargs| ==> kwargs[i].name != name
  {
    if kwargs == [] then None
    else if kwargs[0].name == name then Some(kwargs[0])
    else FindArg(kwargs[1..], name)
  }

  /** The `config` resource: the trimmed class name and its module from the import map, or "". */
  function ConfigResource(kwargs: seq<KwArg>, importMap: map<string, string>): Option<ConfigSpec>
  {
    match FindArg(kwargs, "config")
    case None => None
    case Some(arg) =>
      var configClass := Trim(arg.value);
      Some(ConfigSpec(if configClass in importMap then importMap[configClass] else "", configClass))
  }

  /** The `store` resource: a folder with no path for `True`/`true`, otherwise the unquoted value as its path. */
  function StoreResource(kwargs: seq<KwArg>): Option<StoreSpec>
  {
    match FindArg(kwargs, "store")
    case None => None
    case Some(arg) =>
      var value := Trim(arg.value);
      if value == "True" || value == "true" then Some(StoreSpec(FolderMode, None))
      else Some(StoreSpec(FolderMode, Some(StripMatches(value, {'"'}))))
  }

  /** `extract_resources` */
  function ExtractResources(kwargs: seq<KwArg>, importMap: map<string, string>): Option<ResourceSpec>
  {
    var config := ConfigResource(kwargs, importMap);
    var store := StoreResource(kwargs);
    if config.Some? || store.Some? then Some(ResourceSpec(store, config)) else None
  }

  /**
   * A configuration is declared exactly when a `config` argument is given;
   * its class is the first such argument's trimmed value, and its module is
   * the import map's entry for the class, or empty when it was not imported.
   */
  lemma ConfigResourceSpec(kwargs: seq<KwArg>, importMap: map<string, string>)
    ensures ConfigResource(kwargs, importMap).None? <==> forall i :: 0 <= i < |kwargs| ==> kwargs[i].name != "config"
    ensures ConfigResource(kwargs, importMap).Some? ==>
      var spec := ConfigResource(kwargs, importMap).value;
      exists i :: (0 <= i < |kwargs| && kwargs[i].name == "config"
        && (forall j :: 0 <= j < i ==> kwargs[j].name != "config")
        && spec.name == Trim(kwargs[i].value)
        && spec.moduleName == (if spec.name in importMap then importMap[spec.name] else ""))
  {
    var arg := FindArg(kwargs, "config");
    if arg.Some? {
      var i := FindArgIndex(kwargs, "config");
      assert kwargs[i] == arg.value;
    }
  }

  /** The position of the argument `FindArg` finds: the first with the name. */
  lemma {:induction false} FindArgIndex(kwargs: seq<KwArg>, name: string) returns (i: nat)
    requires FindArg(kwargs, name).Some?
    ensures i < |kwargs| && kwargs[i] == FindArg(kwargs, name).value
    ensures forall j :: 0 <= j < i ==> kwargs[j].name != name
    decreases |kwargs|
  {
    if kwargs[0].name == name {
      i := 0;
    } else {
      var k := FindArgIndex(kwargs[1..], name);
      i := k + 1;
    }
  }

  /**
   * A store is declared exactly when a `store` argument is given; it is a
   * folder, with no path exactly when the first such argument is `True` or
   * `true`, and a path it has neither starts nor ends with a double quote.
   */
  lemma StoreResourceSpec(kwargs: seq<KwArg>)
    ensures StoreResource(kwargs).None? <==> forall i :: 0 <= i < |kwargs| ==> kwargs[i].name != "store"
    ensures StoreResource(kwargs).Some? ==>
      var v := Trim(FindArg(kwargs, "store").value.value);
      && StoreResource(kwargs).value.mode == FolderMode
      && (StoreResource(kwargs).value.path.None? <==> v == "True" || v == "true")
    ensures StoreResource(kwargs).Some? && StoreResource(kwargs).value.path.Some? ==>
      var p := StoreResource(kwargs).value.path.value;
      p != [] ==> p[0] != '"' && p[|p| - 1] != '"'
  {
    var arg := FindArg(kwargs, "store");
    if arg.Some? {
      StripMatchesSpec(Trim(arg.value.value), {'"'});
    }
  }

  /** There are resources exactly when a `config` or a `store` argument is given. */
  lemma ExtractResourcesSpec(kwargs: seq<KwArg>, importMap: map<string, string>)
    ensures ExtractResources(kwargs, importMap).None? <==>
      forall i :: 0 <= i < |kwargs| ==> kwargs[i].name != "config" && kwargs[i].name != "store"
    ensures ExtractResources(kwargs, importMap).Some? ==>
      ExtractResources(kwargs, importMap).value == ResourceSpec(StoreResource(kwargs), ConfigResource(kwargs, importMap))
  {
    ConfigResourceSpec(kwargs, importMap);
    StoreResourceSpec(kwargs);
  }

  /** The first argument of a name decides: a later one with the same name is ignored. */
  lemma {:induction false} FirstArgWins(kwargs: seq<KwArg>, i: nat)
    requires i < |kwargs| && forall j :: 0 <= j < i ==> kwargs[j].name != kwargs[i].name
    ensures FindArg(kwargs, kwargs[i].name) == Some(kwargs[i])
  {
    if i > 0 {
      var rest := kwargs[1..];
      assert rest[i - 1] == kwargs[i];
      forall j | 0 <= j < i - 1
        ensures rest[j].name != rest[i - 1].name
      {
        assert rest[j] == kwargs[j + 1];
      }
      FirstArgWins(rest, i - 1);
      assert kwargs[0].name != kwargs[i].name;
    }
  }
}
