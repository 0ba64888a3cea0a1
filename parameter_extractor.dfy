/**
 * Constructor parameters of a plugin class: the `__init__` span of the
 * class, the typed parameters the syntax-tree tool reports inside it (given
 * here as a list of matches), the Python file a module lives in, and the
 * order in which directories are searched for it.
 */
module ParameterExtractor {
  import opened Wrappers
  import opened Strings
  import opened Errors
  import opened Json
  import opened Assoc

  // ---------------------------------------------------------------------------
  // The `__init__` parameters
  // ---------------------------------------------------------------------------

  /** A typed parameter the syntax-tree tool reports: its offsets in the file and its text. */
  datatype AstMatch = AstMatch(start: nat, end: nat, text: string)

  /**
   * The span of the parameter list of `class_name.__init__`: from the first
   * `(` after `def __init__` (itself the first after `class NAME`) through
   * the first `)` after `def __init__`, both included, as a half-open range.
   */
  function InitSpan(content: string, className: string): Option<(nat, nat)>
  {
    match Find(content, "class " + className)
    case None => None
    case Some(classStart) =>
      match FindFrom(content, "def __init__", classStart)
      case None => None
      case Some(initStart) =>
        match FindCharFrom(content, '(', initStart)
        case None => None
        case Some(openParen) =>
          match FindCharFrom(content, ')', initStart)
          case None => None
          case Some(closeParen) => Some((openParen, closeParen + 1))
  }

  /** The text before the first `=` of `rest`, trimmed, when it has one; otherwise `rest` itself. */
  function Annotation(rest: string): string
  {
    match FindChar(rest, '=')
    case None => rest
    case Some(eq) => Trim(rest[..eq])
  }

  /**
   * The entry of one parameter text `name: annotation [= default]`: None
   * without a `:`; otherwise the trimmed name before the first `:` and an
   * object with `is_required` (no `=` after the `:`) and `annotation` when
   * that text is not empty.
   */
  function ParamEntry(text: string): Option<(string, Json)>
  {
    match FindChar(text, ':')
    case None => None
    case Some(colon) => Some((Trim(text[..colon]), ParamFields(Trim(text[colon + 1..]))))
  }

  /** The object for the text after the `:`: `is_required`, and `annotation` when not empty. */
  function ParamFields(rest: string): Json
  {
    var hasDefault := '=' in rest;
    var annotation := Annotation(rest);
    var fields := if annotation != [] then map["annotation" := JStr(annotation)] else map[];
    JObj(fields["is_required" := JBool(!hasDefault)])
  }

  /** The object holds `is_required` (no `=`), `annotation` exactly when not empty, and nothing else. */
  lemma ParamFieldsSpec(rest: string)
    ensures var f := ParamFields(rest);
      && f.JObj? && "is_required" in f.fields
      && (f.fields["is_required"] == JBool(true) <==> '=' !in rest)
      && ("annotation" in f.fields <==> Annotation(rest) != [])
      && ("annotation" in f.fields ==> f.fields["annotation"] == JStr(Annotation(rest)))
      && f.fields.Keys <= {"annotation", "is_required"}
  {
  }

  /** A match counts when it lies within the span. */
  predicate InSpan(m: AstMatch, span: (nat, nat))
  {
    m.start >= span.0 && m.end <= span.1
  }

  /** The entry a match gives: none outside the span or without a `:`. */
  function MatchEntry(span: (nat, nat), m: AstMatch): Option<(string, Json)>
  {
    if InSpan(m, span) then ParamEntry(m.text) else None
  }

  /** `MatchEntry` for one span, as a function value. */
  function EntryOf(span: (nat, nat)): AstMatch -> Option<(string, Json)>
  {
    m => MatchEntry(span, m)
  }

  /** `extract_init_parameters`: the entries inserted one by one; no span, no parameters. */
  function InitParameters(content: string, className: string, matches: seq<AstMatch>): map<string, Json>
  {
    match InitSpan(content, className)
    case None => map[]
    case Some(span) => ToMap(Collect(EntryOf(span), matches))
  }

  /** The loop of `extract_init_parameters` over the matches; it never fails. */
  method ExtractInitParameters(content: string, className: string, matches: seq<AstMatch>)
    returns (r: Result<map<string, Json>, BridgeError>)
    ensures r == Ok(InitParameters(content, className, matches))
  {
    var parameters: map<string, Json> := map[];
    var span := InitSpan(content, className);
    if span.None? {
      return Ok(parameters);
    }
    var i := 0;
    while i < |matches|
      invariant 0 <= i <= |matches|
      invariant parameters == ToMap(Collect(EntryOf(span.value), matches[..i]))
    {
      assert matches[..i + 1][..i] == matches[..i];
      var m := matches[i];
      if m.start >= span.value.0 && m.end <= span.value.1 {
        var entry := ParamEntry(m.text);
        if entry.Some? {
          ToMapSnoc(Collect(EntryOf(span.value), matches[..i]), entry.value);
          parameters := parameters[entry.value.0 := entry.value.1];
        }
      }
      i := i + 1;
    }
    assert matches[..|matches|] == matches;
    return Ok(parameters);
  }

  /**
   * A text without `:` gives nothing; otherwise the name is the trimmed text
   * before the first `:`, the parameter is required exactly when no `=`
   * follows, and `annotation` is there exactly when it is not empty.
   */
  lemma ParamEntrySpec(text: string)
    ensures ParamEntry(text).None? <==> ':' !in text
    ensures ParamEntry(text).Some? ==>
      var colon := FindChar(text, ':').value;
      var rest := Trim(text[colon + 1..]);
      var e := ParamEntry(text).value;
      && e.0 == Trim(text[..colon])
      && e.1.JObj? && "is_required" in e.1.fields
      && (e.1.fields["is_required"] == JBool(true) <==> '=' !in rest)
      && ("annotation" in e.1.fields <==> Annotation(rest) != [])
      && ("annotation" in e.1.fields ==> e.1.fields["annotation"] == JStr(Annotation(rest)))
      && e.1.fields.Keys <= {"annotation", "is_required"}
  {
    match FindChar(text, ':')
    case None =>
    case Some(colon) =>
      ParamFieldsSpec(Trim(text[colon + 1..]));
  }

  /** The annotation never holds an `=` and is the whole rest when there is no default. */
  lemma AnnotationSpec(rest: string)
    ensures '=' !in Annotation(rest)
    ensures '=' !in rest ==> Annotation(rest) == rest
  {
    match FindChar(rest, '=')
    case None =>
    case Some(eq) =>
      var before := rest[..eq];
      forall i | 0 <= i < |before|
        ensures before[i] != '='
      {
        assert before[i] == rest[i];
      }
      TrimKeeps(before, '=');
  }

  /**
   * The parameter names are exactly the names of the matches within the
   * span whose text has a `:`; without a span there are none.
   */
  lemma InitParametersKeys(content: string, className: string, matches: seq<AstMatch>, name: string)
    ensures InitSpan(content, className).None? ==> InitParameters(content, className, matches) == map[]
    ensures InitSpan(content, className).Some? ==>
      (name in InitParameters(content, className, matches) <==>
        exists i :: 0 <= i < |matches| && MatchEntry(InitSpan(content, className).value, matches[i]).Some?
          && MatchEntry(InitSpan(content, className).value, matches[i]).value.0 == name)
  {
    if InitSpan(content, className).Some? {
      var span := InitSpan(content, className).value;
      CollectKeys(EntryOf(span), matches, name);
      assert forall i :: 0 <= i < |matches| ==> EntryOf(span)(matches[i]) == MatchEntry(span, matches[i]);
    }
  }

  /**
   * One more match: within the span and with a `:`, its entry replaces any
   * earlier entry of the same name; otherwise nothing changes.
   */
  lemma LaterMatchOverwrites(content: string, className: string, matches: seq<AstMatch>, m: AstMatch)
    ensures InitParameters(content, className, matches + [m]) ==
      match InitSpan(content, className)
      case None => map[]
      case Some(span) =>
        match MatchEntry(span, m)
        case None => InitParameters(content, className, matches)
        case Some(e) => InitParameters(content, className, matches)[e.0 := e.1]
  {
    if InitSpan(content, className).Some? {
      var span := InitSpan(content, className).value;
      CollectSnoc(EntryOf(span), matches, m);
      if MatchEntry(span, m).Some? {
        ToMapSnoc(Collect(EntryOf(span), matches), MatchEntry(span, m).value);
      }
    }
  }

  // ---------------------------------------------------------------------------
  // Where the module's file is looked for
  // ---------------------------------------------------------------------------

  /** The file a module lives in: the last `.`-separated segment, with `.py`. */
  function PythonFileName(moduleName: string): string
  {
    var parts := Split(moduleName, '.');
    parts[|parts| - 1] + ".py"
  }

  /** The directories searched, in order: the package path, then `VIRTUAL_ENV` and the working directory when known. */
  function SearchDirs(packagePath: string, virtualEnv: Option<string>, cwd: Option<string>): (r: seq<string>)
    ensures |r| >= 1 && r[0] == packagePath
  {
    [packagePath] + (if virtualEnv.Some? then [virtualEnv.value] else []) + (if cwd.Some? then [cwd.value] else [])
  }

  /**
   * The parameters from the first directory where the file is found and its
   * signature parses; an empty map when there is none.
   */
  function FirstFound(dirs: seq<string>, fileName: string, probe: (string, string) -> Option<map<string, Json>>): map<string, Json>
  {
    if dirs == [] then map[]
    else
      match probe(dirs[0], fileName)
      case Some(params) => params
      case None => FirstFound(dirs[1..], fileName, probe)
  }

  /**
   * `extract_callable_parameters` with the environment passed in: `probe`
   * stands for finding the file under a directory and parsing the
   * signature. It never fails.
   */
  method ExtractCallableParameters(moduleName: string, packagePath: string, virtualEnv: Option<string>, cwd: Option<string>,
                                   probe: (string, string) -> Option<map<string, Json>>)
    returns (r: Result<map<string, Json>, BridgeError>)
    ensures r == Ok(FirstFound(SearchDirs(packagePath, virtualEnv, cwd), PythonFileName(moduleName), probe))
  {
    var moduleParts := Split(moduleName, '.');
    var fileName := moduleParts[|moduleParts| - 1] + ".py";
    var searchDirs := [packagePath];
    if virtualEnv.Some? {
      searchDirs := searchDirs + [virtualEnv.value];
    }
    if cwd.Some? {
      searchDirs := searchDirs + [cwd.value];
    }
    var i := 0;
    while i < |searchDirs|
      invariant 0 <= i <= |searchDirs|
      invariant FirstFound(searchDirs[i..], fileName, probe) == FirstFound(searchDirs, fileName, probe)
    {
      var found := probe(searchDirs[i], fileName);
      if found.Some? {
        return Ok(found.value);
      }
      assert searchDirs[i..][1..] == searchDirs[i + 1..];
      i := i + 1;
    }
    return Ok(map[]);
  }

  /**
   * The first directory whose probe succeeds decides the result; when every
   * probe fails the result is empty.
   */
  lemma {:induction false} FirstFoundSpec(dirs: seq<string>, fileName: string, probe: (string, string) -> Option<map<string, Json>>, i: nat)
    requires i <= |dirs|
    requires forall j :: 0 <= j < i ==> probe(dirs[j], fileName).None?
    ensures i < |dirs| && probe(dirs[i], fileName).Some? ==> FirstFound(dirs, fileName, probe) == probe(dirs[i], fileName).value
    ensures i == |dirs| ==> FirstFound(dirs, fileName, probe) == map[]
    decreases i
  {
    if i > 0 {
      FirstFoundSpec(dirs[1..], fileName, probe, i - 1);
    }
  }

  /** The text after the last `.`, or the whole text without one. */
  function AfterLastDot(s: string): string
  {
    match RFindChar(s, '.')
    case None => s
    case Some(i) => s[i + 1..]
  }

  /** The last piece of a module split at its dots is the text after its last `.`. */
  lemma {:induction false} LastSegment(s: string)
    ensures var parts := Split(s, '.'); parts[|parts| - 1] == AfterLastDot(s)
    decreases |s|
  {
    match FindChar(s, '.')
    case None =>
      assert RFindChar(s, '.').None?;
      SplitWithoutSeparator(s, '.');
    case Some(i) =>
      LastSegment(s[i + 1..]);
      LastSegmentStep(s, i);
  }

  /** The last piece of the text is the last piece of what follows its first `.`. */
  lemma LastSegmentStep(s: string, i: nat)
    requires FindChar(s, '.') == Some(i)
    requires var tail := Split(s[i + 1..], '.'); tail[|tail| - 1] == AfterLastDot(s[i + 1..])
    ensures var parts := Split(s, '.'); parts[|parts| - 1] == AfterLastDot(s)
  {
    SplitAtFirst(s, '.', i);
    RFindCharAfter(s, i);
  }

  /** Past a `.` at `i`, the text after the last `.` is the same whether the search starts at `i + 1` or at 0. */
  lemma RFindCharAfter(s: string, i: nat)
    requires i < |s| && s[i] == '.'
    ensures AfterLastDot(s[i + 1..]) == AfterLastDot(s)
  {
    match RFindChar(s[i + 1..], '.')
    case None =>
      NoDotAfter(s, i);
    case Some(j) =>
      LastDotInRest(s, i, j);
  }

  /** No `.` after the one at `i`: it is the last. */
  lemma NoDotAfter(s: string, i: nat)
    requires i < |s| && s[i] == '.' && RFindChar(s[i + 1..], '.').None?
    ensures RFindChar(s, '.') == Some(i)
    ensures AfterLastDot(s) == s[i + 1..] == AfterLastDot(s[i + 1..])
  {
    var rest := s[i + 1..];
    forall j | i < j < |s|
      ensures s[j] != '.'
    {
      assert s[j] == rest[j - i - 1];
    }
    RFindCharIs(s, '.', i);
  }

  /** The last `.` after position `i` is the last of the whole text. */
  lemma LastDotInRest(s: string, i: nat, j: nat)
    requires i < |s| && RFindChar(s[i + 1..], '.') == Some(j)
    ensures AfterLastDot(s) == AfterLastDot(s[i + 1..])
  {
    RFindCharSuffix(s, i + 1, '.');
    assert s[i + 1 + j + 1..] == s[i + 1..][j + 1..];
  }

  /**
   * The file name ends in `.py`, and its stem is the module's text after its
   * last `.` (so it holds no `.`), or the whole module.
   */
  lemma PythonFileNameSpec(moduleName: string)
    ensures PythonFileName(moduleName) == AfterLastDot(moduleName) + ".py" && '.' !in AfterLastDot(moduleName)
  {
    LastSegment(moduleName);
    var parts := Split(moduleName, '.');
    assert '.' !in parts[|parts| - 1];
  }
}
