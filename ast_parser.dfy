/**
 * The registration locator: the body of `register_plugin()` is cut out of
 * `plugins.py` by indentation, and each `XxxPlugin(...)` constructor call is
 * carved out of its `plugins=[...]` list by delimiter matching.
 */
module AstParser {
  import opened Wrappers
  import opened Strings
  import opened Errors
  import opened PluginConfig
  import opened PluginUtils
  import opened Assoc

  // ---------------------------------------------------------------------------
  // The body of register_plugin()
  // ---------------------------------------------------------------------------

  /** `line.len() - line.trim_start().len()`: the leading whitespace of a line. */
  function Indent(line: string): (n: nat)
    ensures n <= |line|
  {
    if line != [] && IsWhitespace(line[0]) then 1 + Indent(line[1..]) else 0
  }

  /** `line.trim().is_empty()`: a line of whitespace only. */
  predicate Blank(line: string)
  {
    Indent(line) == |line|
  }

  /** The indentation is what `trim_start` removes. */
  lemma {:induction false} IndentIsTrimStart(line: string)
    ensures Indent(line) == |line| - |TrimStart(line)|
  {
    if line != [] && IsWhitespace(line[0]) {
      IndentIsTrimStart(line[1..]);
    }
  }

  /** A line is blank exactly when its trimmed text is empty. */
  lemma BlankIsTrimEmpty(line: string)
    ensures Blank(line) <==> Trim(line) == []
  {
    IndentIsTrimStart(line);
    var t := TrimStart(line);
    if t != [] {
      assert Trim(line) != [] by {
        assert !IsWhitespace(line[|line| - |t|]);
      }
    }
  }

  /** The number of blank lines before the first non-blank one. */
  function LeadingBlank(lines: seq<string>): (n: nat)
    ensures n <= |lines|
  {
    if lines == [] || !Blank(lines[0]) then 0 else 1 + LeadingBlank(lines[1..])
  }

  /** The lines `LeadingBlank` counts are blank, and the one after them is not. */
  lemma {:induction false} LeadingBlankSpec(lines: seq<string>)
    ensures forall j :: 0 <= j < LeadingBlank(lines) ==> Blank(lines[j])
    ensures LeadingBlank(lines) < |lines| ==> !Blank(lines[LeadingBlank(lines)])
  {
    if lines != [] && Blank(lines[0]) {
      LeadingBlankSpec(lines[1..]);
      forall j | 1 <= j < LeadingBlank(lines)
        ensures Blank(lines[j])
      {
        assert lines[j] == lines[1..][j - 1];
      }
      if LeadingBlank(lines) < |lines| {
        assert lines[LeadingBlank(lines)] == lines[1..][LeadingBlank(lines[1..])];
      }
    }
  }

  /** A line that does not end a body whose base indentation is `base`. */
  predicate InBody(line: string, base: nat)
  {
    Blank(line) || Indent(line) >= base
  }

  /** The number of lines before the first non-blank line indented less than `base`. */
  function BodyLength(lines: seq<string>, base: nat): (n: nat)
    ensures n <= |lines|
  {
    if lines == [] || !InBody(lines[0], base) then 0 else 1 + BodyLength(lines[1..], base)
  }

  /** The lines `BodyLength` counts stay in the body, and the one after them does not. */
  lemma {:induction false} BodyLengthSpec(lines: seq<string>, base: nat)
    ensures forall j :: 0 <= j < BodyLength(lines, base) ==> InBody(lines[j], base)
    ensures BodyLength(lines, base) < |lines| ==> !InBody(lines[BodyLength(lines, base)], base)
  {
    if lines != [] && InBody(lines[0], base) {
      BodyLengthSpec(lines[1..], base);
      forall j | 1 <= j < BodyLength(lines, base)
        ensures InBody(lines[j], base)
      {
        assert lines[j] == lines[1..][j - 1];
      }
      if BodyLength(lines, base) < |lines| {
        assert lines[BodyLength(lines, base)] == lines[1..][BodyLength(lines[1..], base)];
      }
    }
  }

  /**
   * The lines of the body: leading blank lines dropped, the first non-blank
   * line setting the base indentation, and every line kept up to the first
   * non-blank line indented less than that.
   */
  function BodyLines(lines: seq<string>): seq<string>
  {
    var lead := LeadingBlank(lines);
    if lead == |lines| then []
    else lines[lead..lead + BodyLength(lines[lead..], Indent(lines[lead]))]
  }

  function RegisterPluginNotFound(path: string): BridgeError
  {
    PluginNotFound("register_plugin() function not found in " + path)
  }

  /**
   * `extract_register_plugin_function` on the text of the file at `path`:
   * the body starts after the first `:` that follows `def register_plugin(`.
   */
  function RegisterPluginBody(content: string, path: string): Result<string, BridgeError>
  {
    match Find(content, "def register_plugin(")
    case None => Err(RegisterPluginNotFound(path))
    case Some(start) =>
      match FindCharFrom(content, ':', start)
      case None => Err(RegisterPluginNotFound(path))
      case Some(colon) => Ok(BodyAfter(content, colon))
  }

  /** The body lines of the text after the header's `:` at `colon`, joined by newlines. */
  function BodyAfter(content: string, colon: nat): string
    requires colon < |content|
  {
    Join(BodyLines(Lines(content[colon + 1..])), "\n")
  }

  /**
   * The body is empty exactly when every line is blank; otherwise it is the
   * run of lines that starts at the first non-blank line, every line of it
   * is blank or indented at least as far as its first line, and the line
   * after it, when there is one, is a non-blank line indented less.
   */
  lemma BodyLinesSpec(lines: seq<string>)
    ensures BodyLines(lines) == [] <==> forall j :: 0 <= j < |lines| ==> Blank(lines[j])
    ensures BodyLines(lines) != [] ==>
      var lead := LeadingBlank(lines);
      var body := BodyLines(lines);
      var base := Indent(body[0]);
      && (forall j :: 0 <= j < lead ==> Blank(lines[j]))
      && !Blank(body[0])
      && lead + |body| <= |lines| && (forall j :: 0 <= j < |body| ==> body[j] == lines[lead + j])
      && (forall j :: 0 <= j < |body| ==> InBody(body[j], base))
      && (lead + |body| < |lines| ==> !InBody(lines[lead + |body|], base))
  {
    LeadingBlankSpec(lines);
    var lead := LeadingBlank(lines);
    if lead < |lines| {
      var rest := lines[lead..];
      var base := Indent(lines[lead]);
      var n := BodyLength(rest, base);
      BodyLengthSpec(rest, base);
      BodyLinesRun(lines);
      var body := BodyLines(lines);
      assert body[0] == lines[lead];
      forall j | 0 <= j < |body|
        ensures InBody(body[j], base)
      {
        assert body[j] == rest[j];
      }
      if n < |rest| {
        assert rest[n] == lines[lead + n];
      }
    }
  }

  /** A body that is not empty is the run `BodyLength` measures from the first non-blank line. */
  lemma BodyLinesRun(lines: seq<string>)
    requires LeadingBlank(lines) < |lines|
    ensures
      var lead := LeadingBlank(lines);
      var n := BodyLength(lines[lead..], Indent(lines[lead]));
      && 1 <= n && lead + n <= |lines| && |BodyLines(lines)| == n
      && forall j :: 0 <= j < n ==> BodyLines(lines)[j] == lines[lead + j]
  {
    LeadingBlankSpec(lines);
    var lead := LeadingBlank(lines);
    var rest := lines[lead..];
    assert rest[0] == lines[lead];
    assert InBody(rest[0], Indent(lines[lead]));
  }

  /** A body that is all lines is cut at nothing: an unindented tail keeps every line. */
  lemma BodyOfIndentedLines(lines: seq<string>)
    requires lines != [] && !Blank(lines[0])
    requires forall j :: 0 <= j < |lines| ==> InBody(lines[j], Indent(lines[0]))
    ensures BodyLines(lines) == lines
  {
    assert LeadingBlank(lines) == 0;
    assert lines[0..] == lines;
    BodyLengthSpec(lines, Indent(lines[0]));
  }

  /**
   * The line loop of `extract_register_plugin_function`: blank lines are
   * skipped until the first non-blank line, which fixes the base
   * indentation; a non-blank line indented less ends the body.
   */
  method CollectBody(lines: seq<string>) returns (funcLines: seq<string>)
    ensures funcLines == BodyLines(lines)
  {
    LeadingBlankSpec(lines);
    ghost var lead := LeadingBlank(lines);
    ghost var n := 0;
    ghost var base := 0;
    if lead < |lines| {
      base := Indent(lines[lead]);
      n := BodyLength(lines[lead..], base);
      BodyRunAt(lines, lead, base);
    }
    funcLines := [];
    var baseIndent: Option<nat> := None;
    var i := 0;
    while i < |lines|
      invariant 0 <= i <= |lines|
      invariant i <= lead ==> funcLines == [] && baseIndent == None
      invariant i > lead ==>
        && lead < |lines| && baseIndent == Some(base)
        && |funcLines| == i - lead <= n
        && forall j :: 0 <= j < i - lead ==> funcLines[j] == lines[lead + j]
    {
      var line := lines[i];
      if funcLines == [] && Blank(line) {
        i := i + 1;
        continue;
      }
      if !Blank(line) {
        var indent := Indent(line);
        if baseIndent.None? {
          baseIndent := Some(indent);
        }
        if indent < baseIndent.value && !Blank(line) {
          BodyFromRun(lines, funcLines);
          return;
        }
      }
      funcLines := funcLines + [line];
      i := i + 1;
    }
    if lead < |lines| {
      BodyFromRun(lines, funcLines);
    }
  }

  /** The run `BodyLength` measures from `lead`, stated on the lines themselves. */
  lemma BodyRunAt(lines: seq<string>, lead: nat, base: nat)
    requires lead < |lines| && InBody(lines[lead], base)
    ensures
      var n := BodyLength(lines[lead..], base);
      && 1 <= n && lead + n <= |lines|
      && (forall j :: lead <= j < lead + n ==> InBody(lines[j], base))
      && (lead + n < |lines| ==> !InBody(lines[lead + n], base))
  {
    var rest := lines[lead..];
    assert rest[0] == lines[lead];
    BodyLengthSpec(rest, base);
    RunShift(lines, lead, BodyLength(rest, base), base);
  }

  /** Facts about the lines from `lead` on, moved to the positions of the whole. */
  lemma RunShift(lines: seq<string>, lead: nat, n: nat, base: nat)
    requires lead + n <= |lines|
    requires forall j :: 0 <= j < n ==> InBody(lines[lead..][j], base)
    requires lead + n < |lines| ==> !InBody(lines[lead..][n], base)
    ensures forall j :: lead <= j < lead + n ==> InBody(lines[j], base)
    ensures lead + n < |lines| ==> !InBody(lines[lead + n], base)
  {
    forall j | lead <= j < lead + n
      ensures InBody(lines[j], base)
    {
      assert lines[j] == lines[lead..][j - lead];
    }
  }

  /** Lines that match the run of the body one for one are the body. */
  lemma BodyFromRun(lines: seq<string>, f: seq<string>)
    requires LeadingBlank(lines) < |lines|
    requires |f| == BodyLength(lines[LeadingBlank(lines)..], Indent(lines[LeadingBlank(lines)]))
    requires forall j :: 0 <= j < |f| ==> f[j] == lines[LeadingBlank(lines) + j]
    ensures f == BodyLines(lines)
  {
    BodyLinesRun(lines);
  }

  /** `extract_register_plugin_function` on the text the file holds. */
  method ExtractRegisterPluginFunction(content: string, path: string) returns (r: Result<string, BridgeError>)
    ensures r == RegisterPluginBody(content, path)
  {
    var start := Find(content, "def register_plugin(");
    if start.None? {
      return Err(RegisterPluginNotFound(path));
    }
    var colon := FindCharFrom(content, ':', start.value);
    if colon.None? {
      return Err(RegisterPluginNotFound(path));
    }
    var funcLines := CollectBody(Lines(content[colon.value + 1..]));
    RegisterPluginBodyFound(content, path, start.value, colon.value);
    return Ok(Join(funcLines, "\n"));
  }

  /** With the header and its `:` found, the body is the joined lines after the `:`. */
  lemma RegisterPluginBodyFound(content: string, path: string, start: nat, colon: nat)
    requires Find(content, "def register_plugin(") == Some(start)
    requires start <= |content| && FindCharFrom(content, ':', start) == Some(colon)
    ensures RegisterPluginBody(content, path) == Ok(BodyAfter(content, colon))
  {
  }

  // ---------------------------------------------------------------------------
  // The plugins=[...] list
  // ---------------------------------------------------------------------------

  /**
   * The text strictly inside the `[...]` that follows the first `plugins=`
   * and optional whitespace, or None when there is no such list.
   */
  function PluginsContent(funcContent: string): Option<string>
  {
    match Find(funcContent, "plugins=")
    case None => None
    case Some(p) =>
      var bracketStart := TrimStart(funcContent[p + 8..]);
      if StartsWith(bracketStart, "[") then
        match MatchingDelimiter(bracketStart, 0, '[', ']')
        case None => None
        case Some(e) => Some(bracketStart[1..e])
      else None
  }

  /** Where one round of the cursor loop leaves the cursor, and the call it found, if any. */
  datatype Step = Step(next: nat, found: Option<string>)

  /**
   * One round at an occurrence of the keyword at `pos`: when the next `(`
   * has a matching `)`, the text from the keyword through that `)` is found
   * and the search resumes one character later; when that `(` has no match
   * it just resumes one character later; when no `(` follows it resumes
   * after the keyword.
   */
  function Round(content: string, kw: string, pos: nat): (r: Step)
    requires kw != [] && pos + |kw| <= |content|
    ensures pos < r.next <= |content|
  {
    match FindCharFrom(content, '(', pos)
    case None => Step(pos + |kw|, None)
    case Some(open) =>
      match MatchingDelimiter(content, open, '(', ')')
      case None => Step(pos + 1, None)
      case Some(close) => Step(pos + 1, Some(content[pos..close + 1]))
  }

  /** The calls the cursor loop for one keyword finds from cursor `from` on, in text order. */
  function KeywordDefs(content: string, kw: string, from: nat): seq<string>
    requires kw != [] && from <= |content|
    decreases |content| - from
  {
    match FindFrom(content, kw, from)
    case None => []
    case Some(pos) =>
      match Round(content, kw, pos)
      case Step(next, None) => KeywordDefs(content, kw, next)
      case Step(next, Some(d)) => [d] + KeywordDefs(content, kw, next)
  }

  /** The constructor calls of the keywords from `PluginClasses[k]` on, keyword by keyword. */
  function ClassDefs(content: string, k: nat): seq<string>
    requires k <= |PluginClasses|
    decreases |PluginClasses| - k
  {
    if k == |PluginClasses| then []
    else
      var kw := PluginClasses[k];
      assert kw != [] by { assert k < 4; }
      KeywordDefs(content, kw, 0) + ClassDefs(content, k + 1)
  }

  /** `d` is one of `acc`, searched from the back. */
  predicate Listed(acc: seq<string>, d: string)
    decreases |acc|
  {
    acc != [] && (acc[|acc| - 1] == d || Listed(acc[..|acc| - 1], d))
  }

  lemma {:induction false} ListedIsIn(acc: seq<string>, d: string)
    ensures Listed(acc, d) <==> d in acc
    decreases |acc|
  {
    if acc != [] {
      var front := acc[..|acc| - 1];
      ListedIsIn(front, d);
      assert acc == front + [acc[|acc| - 1]];
    }
  }

  /** `def` is pushed unless it is empty or already listed. */
  function AddNew(acc: seq<string>, def: string): seq<string>
  {
    if def != [] && !Listed(acc, def) then acc + [def] else acc
  }

  /** `defs` pushed one by one onto `acc`. */
  function AddAll(acc: seq<string>, defs: seq<string>): seq<string>
    decreases |defs|
  {
    if defs == [] then acc else AddNew(AddAll(acc, defs[..|defs| - 1]), defs[|defs| - 1])
  }

  function NoDefinitions(): BridgeError
  {
    PluginNotFound("No plugin definitions found in plugins array")
  }

  /** `extract_plugins_list`: the distinct calls, grouped by keyword, or the no-definitions error. */
  function PluginsList(funcContent: string): Result<seq<string>, BridgeError>
  {
    var defs := match PluginsContent(funcContent)
      case None => []
      case Some(content) => AddAll([], ClassDefs(content, 0));
    if defs == [] then Err(NoDefinitions()) else Ok(defs)
  }

  lemma AddAllCons(acc: seq<string>, d: string, rest: seq<string>)
    ensures AddAll(acc, [d] + rest) == AddAll(AddNew(acc, d), rest)
  {
    AddAllAppend(acc, [d], rest);
    assert [d][..0] == [];
  }

  lemma AddAllSnoc(acc: seq<string>, defs: seq<string>, d: string)
    ensures AddAll(acc, defs + [d]) == AddNew(AddAll(acc, defs), d)
  {
    assert (defs + [d])[..|defs|] == defs;
  }

  lemma {:induction false} AddAllAppend(acc: seq<string>, a: seq<string>, b: seq<string>)
    ensures AddAll(acc, a + b) == AddAll(AddAll(acc, a), b)
    decreases |b|
  {
    if b == [] {
      assert a + b == a;
    } else {
      var b' := b[..|b| - 1];
      assert a + b == (a + b') + [b[|b| - 1]];
      AddAllSnoc(acc, a + b', b[|b| - 1]);
      AddAllAppend(acc, a, b');
    }
  }

  /**
   * The nested loops of `extract_plugins_list`: the keywords in
   * `PluginClasses` order, each with a cursor that only moves forward.
   */
  method ExtractPluginsList(funcContent: string) returns (r: Result<seq<string>, BridgeError>)
    ensures r == PluginsList(funcContent)
  {
    var plugins: seq<string> := [];
    var found := Find(funcContent, "plugins=");
    if found.Some? {
      var bracketStart := TrimStart(funcContent[found.value + 8..]);
      if StartsWith(bracketStart, "[") {
        var endPos := FindMatchingBracket(bracketStart, 0);
        if endPos.Some? {
          var content := bracketStart[1..endPos.value];
          assert PluginsContent(funcContent) == Some(content);
          plugins := SearchKeywords(content);
        }
      }
    }
    if plugins == [] {
      return Err(NoDefinitions());
    }
    return Ok(plugins);
  }

  /** The loop over the keywords, on the text inside the brackets. */
  method SearchKeywords(content: string) returns (plugins: seq<string>)
    ensures plugins == AddAll([], ClassDefs(content, 0))
  {
    plugins := [];
    ghost var seen: seq<string> := [];
    var k := 0;
    while k < |PluginClasses|
      invariant 0 <= k <= |PluginClasses|
      invariant seen + ClassDefs(content, k) == ClassDefs(content, 0)
      invariant plugins == AddAll([], seen)
    {
      var keyword := PluginClasses[k];
      PluginClassesPlain(k);
      SearchStep(content, k, seen);
      plugins := SearchKeyword(content, keyword, plugins);
      seen := seen + CallsOf(content, k);
      k := k + 1;
    }
    assert seen + [] == seen;
  }

  /** The calls of one more keyword move from the part still to search to the part searched. */
  lemma SearchStep(content: string, k: nat, seen: seq<string>)
    requires k < |PluginClasses| && seen + ClassDefs(content, k) == ClassDefs(content, 0)
    ensures PluginClasses[k] != [] && CallsOf(content, k) == KeywordDefs(content, PluginClasses[k], 0)
    ensures (seen + CallsOf(content, k)) + ClassDefs(content, k + 1) == ClassDefs(content, 0)
    ensures AddAll([], seen + CallsOf(content, k)) == AddAll(AddAll([], seen), KeywordDefs(content, PluginClasses[k], 0))
  {
    PluginClassesPlain(k);
    var found := CallsOf(content, k);
    assert ClassDefs(content, k) == found + ClassDefs(content, k + 1);
    AppendAssoc(seen, found, ClassDefs(content, k + 1));
    AddAllAppend([], seen, found);
  }

  /** Pushing one more call onto the list built so far. */
  lemma PushStep(plugins0: seq<string>, seen: seq<string>, plugins: seq<string>, d: string)
    requires plugins == AddAll(plugins0, seen)
    ensures AddAll(plugins0, seen + [d]) == if d != [] && d !in plugins then plugins + [d] else plugins
  {
    AddAllSnoc(plugins0, seen, d);
    ListedIsIn(plugins, d);
  }

  /** The cursor loop for one keyword, pushing each new call onto `plugins0`. */
  method SearchKeyword(content: string, keyword: string, plugins0: seq<string>) returns (plugins: seq<string>)
    requires keyword != []
    ensures plugins == AddAll(plugins0, KeywordDefs(content, keyword, 0))
  {
    plugins := plugins0;
    ghost var seen: seq<string> := [];
    var searchFrom: nat := 0;
    var pos := FindFrom(content, keyword, searchFrom);
    while pos.Some?
      invariant searchFrom <= |content|
      invariant pos == FindFrom(content, keyword, searchFrom)
      invariant seen + KeywordDefs(content, keyword, searchFrom) == KeywordDefs(content, keyword, 0)
      invariant plugins == AddAll(plugins0, seen)
      decreases |content| - searchFrom
    {
      var next, found := KeywordRound(content, keyword, pos.value);
      if found.Some? {
        var pluginDef := found.value;
        AppendAssoc(seen, [pluginDef], KeywordDefs(content, keyword, next));
        PushStep(plugins0, seen, plugins, pluginDef);
        if pluginDef != [] && pluginDef !in plugins {
          plugins := plugins + [pluginDef];
        }
        seen := seen + [pluginDef];
      }
      searchFrom := next;
      pos := FindFrom(content, keyword, searchFrom);
    }
    assert seen + [] == seen;
  }

  /** One round of the cursor loop at the occurrence at `pos`. */
  method KeywordRound(content: string, keyword: string, pos: nat) returns (next: nat, found: Option<string>)
    requires keyword != [] && pos + |keyword| <= |content|
    ensures Step(next, found) == Round(content, keyword, pos)
  {
    var parenPos := FindCharFrom(content, '(', pos);
    if parenPos.Some? {
      var parenEnd := FindMatchingParen(content, parenPos.value);
      if parenEnd.Some? {
        return pos + 1, Some(content[pos..parenEnd.value + 1]);
      }
      return pos + 1, None;
    }
    return pos + |keyword|, None;
  }

  /** The keyword occurs at `q` and the round there finds the call `d`. */
  predicate CallAt(content: string, kw: string, q: nat, d: string)
    requires kw != []
  {
    OccursAt(content, kw, q) && Round(content, kw, q).found == Some(d)
  }

  /** A call found by a round runs from the keyword through a `)`, when the keyword holds no `(`. */
  lemma CallShape(content: string, kw: string, q: nat, d: string)
    requires kw != [] && '(' !in kw && CallAt(content, kw, q, d)
    ensures |kw| < |d| && d[..|kw|] == kw && d[|d| - 1] == ')'
  {
    var open := FindCharFrom(content, '(', q).value;
    var close := MatchingDelimiter(content, open, '(', ')').value;
    assert d == content[q..close + 1];
    assert d[..|kw|] == content[q..q + |kw|];
  }

  /** Every call the loop for one keyword records is found by a round at an occurrence past the cursor. */
  lemma {:induction false} KeywordDefsSound(content: string, kw: string, from: nat, d: string)
    requires kw != [] && from <= |content| && d in KeywordDefs(content, kw, from)
    ensures exists q: nat :: from <= q && CallAt(content, kw, q, d)
    decreases |content| - from
  {
    var pos := FindFrom(content, kw, from).value;
    var step := Round(content, kw, pos);
    if step.found == Some(d) {
      assert CallAt(content, kw, pos, d);
    } else {
      assert d in KeywordDefs(content, kw, step.next);
      KeywordDefsSound(content, kw, step.next, d);
    }
  }

  /** Every call at an occurrence past the cursor is recorded by the loop for its keyword. */
  lemma {:induction false} KeywordDefsComplete(content: string, kw: string, from: nat, q: nat, d: string)
    requires kw != [] && from <= q && from <= |content| && CallAt(content, kw, q, d)
    ensures d in KeywordDefs(content, kw, from)
    decreases |content| - from
  {
    var pos := FindFrom(content, kw, from).value;
    var step := Round(content, kw, pos);
    if pos != q {
      assert pos < q;
      var open := FindCharFrom(content, '(', q).value;
      assert content[open] == '(';
      assert step.next == pos + 1;
      KeywordDefsComplete(content, kw, step.next, q, d);
    }
  }

  /** The calls recorded for one keyword are exactly the calls at its occurrences. */
  lemma KeywordDefsMembers(content: string, kw: string, d: string)
    requires kw != [] && '(' !in kw
    ensures d in KeywordDefs(content, kw, 0) <==> exists q: nat :: CallAt(content, kw, q, d)
    ensures d in KeywordDefs(content, kw, 0) ==> |kw| < |d| && d[..|kw|] == kw && d[|d| - 1] == ')'
  {
    if d in KeywordDefs(content, kw, 0) {
      KeywordDefsSound(content, kw, 0, d);
      var q: nat :| CallAt(content, kw, q, d);
      CallShape(content, kw, q, d);
    }
    if exists q: nat :: CallAt(content, kw, q, d) {
      var q: nat :| CallAt(content, kw, q, d);
      KeywordDefsComplete(content, kw, 0, q, d);
    }
  }

  /** No entry of `s` occurs twice. */
  predicate Distinct(s: seq<string>)
  {
    forall i, j :: 0 <= i < j < |s| ==> s[i] != s[j]
  }

  /**
   * Pushing `defs` keeps what `acc` held in front, adds exactly the
   * non-empty entries of `defs` it did not hold, and never lists one twice.
   */
  lemma {:induction false} AddAllSpec(acc: seq<string>, defs: seq<string>)
    ensures |acc| <= |AddAll(acc, defs)| && AddAll(acc, defs)[..|acc|] == acc
    ensures forall x :: x in AddAll(acc, defs) <==> x in acc || (x in defs && x != [])
    ensures Distinct(acc) ==> Distinct(AddAll(acc, defs))
    decreases |defs|
  {
    if defs != [] {
      var front := defs[..|defs| - 1];
      var d := defs[|defs| - 1];
      AddAllSpec(acc, front);
      var mid := AddAll(acc, front);
      ListedIsIn(mid, d);
      assert defs == front + [d];
      if d != [] && d !in mid {
        assert (mid + [d])[..|acc|] == mid[..|acc|];
      }
    }
  }

  /** Every keyword in `PluginClasses` is non-empty and holds no `(`. */
  lemma PluginClassesPlain(j: nat)
    requires j < |PluginClasses|
    ensures PluginClasses[j] != [] && '(' !in PluginClasses[j]
  {
  }

  /** `d` is a call found at an occurrence of one of the keywords from `PluginClasses[k]` on. */
  ghost predicate RecognisedFrom(content: string, k: nat, d: string)
  {
    exists j: nat, q: nat :: k <= j < |PluginClasses| && PluginClasses[j] != [] && CallAt(content, PluginClasses[j], q, d)
  }

  /** The calls of the keywords from `PluginClasses[k]` on are the calls at occurrences of any of them. */
  lemma {:induction false} ClassDefsMembers(content: string, k: nat, d: string)
    requires k <= |PluginClasses|
    ensures d in ClassDefs(content, k) <==> RecognisedFrom(content, k, d)
    ensures d in ClassDefs(content, k) ==> d != []
    decreases |PluginClasses| - k
  {
    if k < |PluginClasses| {
      var kw := PluginClasses[k];
      PluginClassesPlain(k);
      KeywordDefsMembers(content, kw, d);
      ClassDefsMembers(content, k + 1, d);
      assert ClassDefs(content, k) == KeywordDefs(content, kw, 0) + ClassDefs(content, k + 1);
      if RecognisedFrom(content, k, d) {
        var j: nat, q: nat :| k <= j < |PluginClasses| && PluginClasses[j] != [] && CallAt(content, PluginClasses[j], q, d);
        if j == k {
          assert CallAt(content, kw, q, d);
        } else {
          assert RecognisedFrom(content, k + 1, d);
        }
      }
      if RecognisedFrom(content, k + 1, d) {
        var j: nat, q: nat :| k + 1 <= j < |PluginClasses| && PluginClasses[j] != [] && CallAt(content, PluginClasses[j], q, d);
        assert RecognisedFrom(content, k, d);
      }
      if d in KeywordDefs(content, kw, 0) {
        var q: nat :| CallAt(content, kw, q, d);
        assert RecognisedFrom(content, k, d);
      }
    }
  }

  /**
   * `extract_plugins_list` fails exactly when the list holds no call; on
   * success it holds each call of a recognised constructor once, and nothing
   * else.
   */
  lemma PluginsListSpec(funcContent: string)
    ensures PluginsList(funcContent).Err? <==>
      PluginsContent(funcContent).None? || ClassDefs(PluginsContent(funcContent).value, 0) == []
    ensures PluginsList(funcContent).Err? ==> PluginsList(funcContent).error == NoDefinitions()
    ensures PluginsList(funcContent).Ok? ==>
      && Distinct(PluginsList(funcContent).value)
      && forall d :: d in PluginsList(funcContent).value <==> Recognised(PluginsContent(funcContent).value, d)
  {
    if PluginsContent(funcContent).Some? {
      PluginsOfContent(PluginsContent(funcContent).value);
    }
  }

  /** `d` is a call of a recognised constructor found somewhere in the list text. */
  ghost predicate Recognised(content: string, d: string)
  {
    RecognisedFrom(content, 0, d)
  }

  /** The pushed calls of one list text: each recognised call once, and empty only when no call was found. */
  lemma PluginsOfContent(content: string)
    ensures AddAll([], ClassDefs(content, 0)) == [] <==> ClassDefs(content, 0) == []
    ensures Distinct(AddAll([], ClassDefs(content, 0)))
    ensures forall d :: d in AddAll([], ClassDefs(content, 0)) <==> Recognised(content, d)
  {
    var defs := ClassDefs(content, 0);
    AddAllSpec([], defs);
    forall d
      ensures d in AddAll([], defs) <==> Recognised(content, d)
    {
      ClassDefsMembers(content, 0, d);
    }
    if defs != [] {
      ClassDefsMembers(content, 0, defs[0]);
      assert defs[0] in AddAll([], defs);
    }
  }

  // ---------------------------------------------------------------------------
  // Order of the list
  // ---------------------------------------------------------------------------

  /** The index of the first occurrence of `x` in `s`, or `|s|` when there is none. */
  function FirstIndex(s: seq<string>, x: string): (r: nat)
    ensures r <= |s| && (r < |s| <==> x in s)
    ensures r < |s| ==> s[r] == x
    ensures forall k :: 0 <= k < r ==> s[k] != x
  {
    if s == [] then 0
    else if s[0] == x then 0
    else
      var r := 1 + FirstIndex(s[1..], x);
      assert forall k :: 1 <= k < |s| ==> s[k] == s[1..][k - 1];
      r
  }

  /** The least index holding `x` is the first index. */
  lemma FirstIndexIs(s: seq<string>, x: string, r: nat)
    requires r < |s| && s[r] == x && forall k :: 0 <= k < r ==> s[k] != x
    ensures FirstIndex(s, x) == r
  {
  }

  /** A first occurrence in a concatenation lies in the left part when it can. */
  lemma FirstIndexAppend(a: seq<string>, b: seq<string>, x: string)
    requires x in a + b
    ensures x in a ==> FirstIndex(a + b, x) == FirstIndex(a, x)
    ensures x !in a ==> FirstIndex(a + b, x) == |a| + FirstIndex(b, x)
  {
    if x in a {
      FirstIndexIs(a + b, x, FirstIndex(a, x));
    } else {
      var k := FirstIndex(b, x);
      assert (a + b)[|a| + k] == b[k];
      forall j | 0 <= j < |a| + k
        ensures (a + b)[j] != x
      {
        if j >= |a| {
          assert (a + b)[j] == b[j - |a|];
        }
      }
      FirstIndexIs(a + b, x, |a| + k);
    }
  }

  /**
   * Pushing `defs` onto an empty list keeps their first occurrences in the
   * order of `defs`.
   */
  lemma {:induction false} AddAllOrder(defs: seq<string>)
    ensures forall x :: x in AddAll([], defs) ==> x in defs
    ensures forall i, j :: 0 <= i < j < |AddAll([], defs)| ==>
      FirstIndex(defs, AddAll([], defs)[i]) < FirstIndex(defs, AddAll([], defs)[j])
    decreases |defs|
  {
    AddAllSpec([], defs);
    if defs != [] {
      var front := defs[..|defs| - 1];
      var d := defs[|defs| - 1];
      assert defs == front + [d];
      AddAllOrder(front);
      AddAllSpec([], front);
      var mid := AddAll([], front);
      forall y | y in front
        ensures FirstIndex(defs, y) == FirstIndex(front, y)
      {
        FirstIndexAppend(front, [d], y);
      }
      ListedIsIn(mid, d);
      if d != [] && d !in mid {
        assert d !in front;
        FirstIndexAppend(front, [d], d);
        assert AddAll([], defs) == mid + [d];
      } else {
        assert AddAll([], defs) == mid;
      }
    }
  }

  /** The calls found for the keyword `PluginClasses[k]`, none past the list of keywords. */
  function CallsOf(content: string, k: nat): seq<string>
  {
    if k < |PluginClasses| then
      assert PluginClasses[k] != [] by { PluginClassesPlain(k); }
      KeywordDefs(content, PluginClasses[k], 0)
    else []
  }

  /** The calls of each keyword, in `PluginClasses` order. */
  function Groups(content: string): (gs: seq<seq<string>>)
    ensures |gs| == |PluginClasses| && forall k :: 0 <= k < |gs| ==> gs[k] == CallsOf(content, k)
  {
    seq(|PluginClasses|, k requires 0 <= k < |PluginClasses| => CallsOf(content, k))
  }

  /** The groups from `gs[k]` on, one after another. */
  function Flatten(gs: seq<seq<string>>, k: nat): seq<string>
    requires k <= |gs|
    decreases |gs| - k
  {
    if k == |gs| then [] else gs[k] + Flatten(gs, k + 1)
  }

  /** The first group, from `gs[k]` on, that holds `d`; `|gs|` when none does. */
  function GroupOf(gs: seq<seq<string>>, k: nat, d: string): (r: nat)
    requires k <= |gs|
    ensures k <= r <= |gs|
    ensures r < |gs| <==> d in Flatten(gs, k)
    ensures r < |gs| ==> d in gs[r]
    decreases |gs| - k
  {
    if k == |gs| then k
    else if d in gs[k] then k
    else GroupOf(gs, k + 1, d)
  }

  /**
   * Between two entries of the flattened groups, the earlier one's group
   * comes no later, and within one group it comes first there too.
   */
  lemma {:induction false} FlattenOrder(gs: seq<seq<string>>, k: nat, x: string, y: string)
    requires k <= |gs|
    requires x in Flatten(gs, k) && y in Flatten(gs, k)
    requires FirstIndex(Flatten(gs, k), x) < FirstIndex(Flatten(gs, k), y)
    ensures GroupOf(gs, k, x) <= GroupOf(gs, k, y)
    ensures GroupOf(gs, k, x) == GroupOf(gs, k, y) ==>
      FirstIndex(gs[GroupOf(gs, k, x)], x) < FirstIndex(gs[GroupOf(gs, k, y)], y)
    decreases |gs| - k
  {
    var a := gs[k];
    var b := Flatten(gs, k + 1);
    FirstIndexAppend(a, b, x);
    FirstIndexAppend(a, b, y);
    if x in a {
      assert GroupOf(gs, k, x) == k;
    } else {
      assert y !in a;
      FlattenOrder(gs, k + 1, x, y);
    }
  }

  /** The grouped list is the keywords' calls one after another. */
  lemma {:induction false} ClassDefsFlatten(content: string, k: nat)
    requires k <= |PluginClasses|
    ensures ClassDefs(content, k) == Flatten(Groups(content), k)
    decreases |PluginClasses| - k
  {
    if k < |PluginClasses| {
      ClassDefsFlatten(content, k + 1);
    }
  }

  /** The first keyword of `PluginClasses` whose loop finds the call `d`; `|PluginClasses|` when none does. */
  function KeywordOf(content: string, d: string): nat
  {
    GroupOf(Groups(content), 0, d)
  }

  /** The position of the keyword occurrence behind each call the loop for one keyword finds. */
  function CallPositions(content: string, kw: string, from: nat): seq<nat>
    requires kw != [] && from <= |content|
    decreases |content| - from
  {
    match FindFrom(content, kw, from)
    case None => []
    case Some(pos) =>
      match Round(content, kw, pos)
      case Step(next, None) => CallPositions(content, kw, next)
      case Step(next, Some(d)) => [pos] + CallPositions(content, kw, next)
  }

  /**
   * The calls for one keyword come in text order: each is found at an
   * occurrence of the keyword, and those occurrences strictly increase.
   */
  lemma {:induction false} CallPositionsSpec(content: string, kw: string, from: nat)
    requires kw != [] && from <= |content|
    ensures |CallPositions(content, kw, from)| == |KeywordDefs(content, kw, from)|
    ensures forall i :: 0 <= i < |CallPositions(content, kw, from)| ==>
      from <= CallPositions(content, kw, from)[i]
      && CallAt(content, kw, CallPositions(content, kw, from)[i], KeywordDefs(content, kw, from)[i])
    ensures forall i, j :: 0 <= i < j < |CallPositions(content, kw, from)| ==>
      CallPositions(content, kw, from)[i] < CallPositions(content, kw, from)[j]
    decreases |content| - from
  {
    match FindFrom(content, kw, from)
    case None =>
    case Some(pos) =>
      var step := Round(content, kw, pos);
      CallPositionsSpec(content, kw, step.next);
      var ps := CallPositions(content, kw, step.next);
      var ds := KeywordDefs(content, kw, step.next);
      if step.found.Some? {
        var d := step.found.value;
        assert CallPositions(content, kw, from) == [pos] + ps;
        assert KeywordDefs(content, kw, from) == [d] + ds;
        var ok := (q: nat, e: string) => kw != [] && CallAt(content, kw, q, e);
        assert ok(pos, d);
        PrependAt(pos, d, ps, ds, step.next, ok);
      }
  }

  /** An entry at `pos` put in front of entries at later positions keeps the positions increasing. */
  lemma PrependAt<T>(pos: nat, x: T, ps: seq<nat>, xs: seq<T>, lo: nat, ok: (nat, T) -> bool)
    requires ok(pos, x) && pos < lo && |ps| == |xs|
    requires forall i :: 0 <= i < |ps| ==> lo <= ps[i] && ok(ps[i], xs[i])
    requires forall i, j :: 0 <= i < j < |ps| ==> ps[i] < ps[j]
    ensures forall i :: 0 <= i < |ps| + 1 ==> pos <= ([pos] + ps)[i] && ok(([pos] + ps)[i], ([x] + xs)[i])
    ensures forall i, j :: 0 <= i < j < |ps| + 1 ==> ([pos] + ps)[i] < ([pos] + ps)[j]
  {
    forall i | 0 <= i < |ps| + 1
      ensures pos <= ([pos] + ps)[i] && ok(([pos] + ps)[i], ([x] + xs)[i])
    {
      if i > 0 {
        assert ([pos] + ps)[i] == ps[i - 1] && ([x] + xs)[i] == xs[i - 1];
      }
    }
  }

  /**
   * The list of `extract_plugins_list` is ordered by keyword: a call listed
   * before another was found by a keyword no later in `PluginClasses`, and
   * by the same keyword only if found first, which is text order.
   */
  lemma PluginsListOrder(funcContent: string)
    ensures PluginsList(funcContent).Ok? ==>
      var content := PluginsContent(funcContent).value;
      var r := PluginsList(funcContent).value;
      forall i, j :: 0 <= i < j < |r| ==>
        && KeywordOf(content, r[i]) <= KeywordOf(content, r[j])
        && (KeywordOf(content, r[i]) == KeywordOf(content, r[j]) ==>
              FirstIndex(CallsOf(content, KeywordOf(content, r[i])), r[i])
                < FirstIndex(CallsOf(content, KeywordOf(content, r[j])), r[j]))
  {
    if PluginsList(funcContent).Ok? {
      var content := PluginsContent(funcContent).value;
      assert PluginsList(funcContent).value == AddAll([], ClassDefs(content, 0));
      ContentOrder(content);
    }
  }

  /** The order of the calls found in one `plugins=[...]` text. */
  lemma ContentOrder(content: string)
    ensures var r := AddAll([], ClassDefs(content, 0));
      forall i, j :: 0 <= i < j < |r| ==>
        && KeywordOf(content, r[i]) <= KeywordOf(content, r[j])
        && (KeywordOf(content, r[i]) == KeywordOf(content, r[j]) ==>
              FirstIndex(CallsOf(content, KeywordOf(content, r[i])), r[i])
                < FirstIndex(CallsOf(content, KeywordOf(content, r[j])), r[j]))
  {
    var defs := ClassDefs(content, 0);
    var r := AddAll([], defs);
    AddAllOrder(defs);
    var gs := Groups(content);
    ClassDefsFlatten(content, 0);
    AddAllSpec([], defs);
    forall i, j | 0 <= i < j < |r|
      ensures KeywordOf(content, r[i]) <= KeywordOf(content, r[j])
      ensures KeywordOf(content, r[i]) == KeywordOf(content, r[j]) ==>
        FirstIndex(CallsOf(content, KeywordOf(content, r[i])), r[i])
          < FirstIndex(CallsOf(content, KeywordOf(content, r[j])), r[j])
    {
      assert r[i] in defs && r[j] in defs;
      FlattenOrder(gs, 0, r[i], r[j]);
    }
  }
}
