/**
 * Upgrade steps declared with `@C.register_step(...)` decorators: the
 * decorator scan over a file's text, the step record built from the
 * decorator's arguments, and the module's own parenthesis matcher.
 */
module DecoratorProcessor {
  import opened Wrappers
  import opened Strings
  import opened Errors
  import opened Json
  import opened PluginUtils
  import opened Assoc

  // ---------------------------------------------------------------------------
  // Parenthesis matching
  // ---------------------------------------------------------------------------

  /**
   * The module's own `find_matching_paren`: the count starts at 1 after the
   * `(` at `start`; it agrees with the shared delimiter matcher.
   */
  method FindMatchingParen(content: string, start: nat) returns (r: Option<nat>)
    ensures r == MatchingDelimiter(content, start, '(', ')')
  {
    if start >= |content| || content[start] != '(' {
      return None;
    }
    DepthStep(content, start, start, '(', ')');
    assert Depth(content[start..start], '(', ')') == 0;
    assert MatchingDelimiter(content, start, '(', ')') == ScanMatch(content, start, '(', ')', start, 0)
      == ScanMatch(content, start, '(', ')', start + 1, 1);
    var parenCount := 1;
    var i := start + 1;
    while i < |content|
      invariant start + 1 <= i <= |content|
      invariant parenCount == Depth(content[start..i], '(', ')')
      invariant forall j :: start <= j < i ==> DepthThrough(content, start, j, '(', ')') > 0
      invariant ScanMatch(content, start, '(', ')', i, parenCount) == MatchingDelimiter(content, start, '(', ')')
      decreases |content| - i
    {
      DepthStep(content, start, i, '(', ')');
      if content[i] == '(' {
        parenCount := parenCount + 1;
      } else if content[i] == ')' {
        parenCount := parenCount - 1;
        if parenCount == 0 {
          return Some(i);
        }
      }
      i := i + 1;
    }
    return None;
  }

  // ---------------------------------------------------------------------------
  // The step record
  // ---------------------------------------------------------------------------

  const StepsModule: string := "r2x_reeds.upgrader.upgrade_steps"

  /** The `func` object of a step: the decorated function, with no parameters. */
  function FuncRecord(funcName: string): Json
  {
    JObj(map["module" := JStr(StepsModule), "name" := JStr(funcName), "type" := JStr("function"),
             "return_annotation" := JNull, "parameters" := JObj(map[])])
  }

  /** The record before any argument is applied. */
  function DefaultStep(funcName: string): map<string, Json>
  {
    map["name" := JStr(funcName), "func" := FuncRecord(funcName), "target_version" := JStr("unknown"),
        "upgrade_type" := JStr("FILE"), "priority" := JNum(100)]
  }

  /** The keys an argument can set. */
  const ArgKeys: set<string> := {"target_version", "upgrade_type", "priority", "min_version", "max_version"}

  /**
   * One surrounding pair of double quotes removed. A lone `"` is kept as it
   * is; StripQuotesAsWritten is the slice the source takes.
   */
  function StripQuotes(v: string): (r: string)
    ensures |v| >= 2 && v[0] == '"' && v[|v| - 1] == '"' ==> r == v[1..|v| - 1]
    ensures !(|v| >= 2 && v[0] == '"' && v[|v| - 1] == '"') ==> r == v
  {
    if |v| >= 2 && v[0] == '"' && v[|v| - 1] == '"' then v[1..|v| - 1] else v
  }

  /**
   * The quote strip as written: a value that starts and ends with `"` is
   * sliced from 1 to its length minus 1, which panics (None) for the
   * one-character value `"`.
   */
  function StripQuotesAsWritten(v: string): Option<string>
  {
    if StartsWith(v, "\"") && |v| >= 1 && v[|v| - 1] == '"' then
      if 1 <= |v| - 1 then Some(v[1..|v| - 1]) else None
    else Some(v)
  }

  /** The slice as written fails on exactly the value `"`, and agrees with StripQuotes elsewhere. */
  lemma StripQuotesAsWrittenPanics(v: string)
    ensures StripQuotesAsWritten(v).None? <==> v == "\""
    ensures StripQuotesAsWritten(v).Some? ==> StripQuotesAsWritten(v).value == StripQuotes(v)
  {
    if v == "\"" {
      assert StartsWith(v, "\"");
    }
    if StartsWith(v, "\"") {
      assert v[0] == '"';
    }
  }

  /** A piece of the argument list with an `=`: the trimmed text before and after the first one. */
  function KeyValue(arg: string): Option<(string, string)>
  {
    var a := Trim(arg);
    match FindChar(a, '=')
    case None => None
    case Some(eq) => Some((Trim(a[..eq]), Trim(a[eq + 1..])))
  }

  /**
   * The one field a `key=value` piece sets, if any: the three version keys
   * take the value without its quotes, `upgrade_type` the upper-cased text
   * after the first `.`, `priority` the value when it parses as an i64.
   */
  function UpdateOf(key: string, value: string): Option<(string, Json)>
  {
    if key == "target_version" || key == "min_version" || key == "max_version" then
      Some((key, JStr(StripQuotes(value))))
    else if key == "upgrade_type" then
      match FindChar(value, '.')
      case None => None
      case Some(dot) => Some((key, JStr(ToUpper(value[dot + 1..]))))
    else if key == "priority" then
      match ParseI64(value)
      case None => None
      case Some(p) => Some((key, JNum(p)))
    else None
  }

  /** The one field a piece of the argument list sets, if any. */
  function Update(arg: string): Option<(string, Json)>
  {
    match KeyValue(arg)
    case None => None
    case Some(kv) => UpdateOf(kv.0, kv.1)
  }

  /** The record with one update applied. */
  function ApplyUpdate(step: map<string, Json>, u: Option<(string, Json)>): map<string, Json>
  {
    match u
    case None => step
    case Some(kv) => step[kv.0 := kv.1]
  }

  /** `f` applied to each element of `s`, in order. */
  function MapSeq<A, B>(f: A -> B, s: seq<A>): seq<B>
    decreases |s|
  {
    if s == [] then [] else MapSeq(f, s[..|s| - 1]) + [f(s[|s| - 1])]
  }

  lemma {:induction false} MapSeqAt<A, B>(f: A -> B, s: seq<A>)
    ensures |MapSeq(f, s)| == |s|
    ensures forall j :: 0 <= j < |s| ==> MapSeq(f, s)[j] == f(s[j])
    decreases |s|
  {
    if s != [] {
      MapSeqAt(f, s[..|s| - 1]);
    }
  }

  /** The updates of the pieces, in order. */
  function Updates(args: seq<string>): seq<Option<(string, Json)>>
  {
    MapSeq(Update, args)
  }

  /** The record after the updates `ups`, one after another. */
  function ApplyUpdates(step: map<string, Json>, ups: seq<Option<(string, Json)>>): map<string, Json>
    decreases |ups|
  {
    if ups == [] then step else ApplyUpdate(ApplyUpdates(step, ups[..|ups| - 1]), ups[|ups| - 1])
  }

  /** `build_upgrade_step_from_decorator`: the defaults, then every piece of the arguments split at `,`. */
  function UpgradeStep(funcName: string, decoratorArgs: string): Json
  {
    JObj(ApplyUpdates(DefaultStep(funcName), Updates(Split(decoratorArgs, ','))))
  }

  /** `build_upgrade_step_from_decorator`: the record is updated piece by piece; it never fails. */
  method BuildUpgradeStepFromDecorator(funcName: string, decoratorArgs: string) returns (r: Result<Json, BridgeError>)
    ensures r == Ok(UpgradeStep(funcName, decoratorArgs))
  {
    var step := DefaultStep(funcName);
    var pieces := Split(decoratorArgs, ',');
    var n := 0;
    while n < |pieces|
      invariant 0 <= n <= |pieces|
      invariant step == ApplyUpdates(DefaultStep(funcName), Updates(pieces[..n]))
    {
      UpdatesStep(DefaultStep(funcName), pieces, n);
      step := ApplyArgument(step, pieces[n]);
      n := n + 1;
    }
    UpdatesAll(DefaultStep(funcName), pieces);
    return Ok(JObj(step));
  }

  /** One more piece applies its update on top of the earlier ones. */
  lemma UpdatesStep(step: map<string, Json>, pieces: seq<string>, n: nat)
    requires n < |pieces|
    ensures ApplyUpdates(step, Updates(pieces[..n + 1])) == ApplyUpdate(ApplyUpdates(step, Updates(pieces[..n])), Update(pieces[n]))
  {
    assert pieces[..n + 1][..n] == pieces[..n];
    var ups := Updates(pieces[..n + 1]);
    assert ups[..|ups| - 1] == Updates(pieces[..n]);
  }

  lemma UpdatesAll(step: map<string, Json>, pieces: seq<string>)
    ensures ApplyUpdates(step, Updates(pieces[..|pieces|])) == ApplyUpdates(step, Updates(pieces))
  {
    assert pieces[..|pieces|] == pieces;
  }

  /** One round of the argument loop: the piece is trimmed and split at its first `=`. */
  method ApplyArgument(step: map<string, Json>, piece: string) returns (step': map<string, Json>)
    ensures step' == ApplyUpdate(step, Update(piece))
  {
    step' := step;
    var arg := Trim(piece);
    var eqPos := FindChar(arg, '=');
    ArgumentUpdate(piece);
    if eqPos.Some? {
      var key := Trim(arg[..eqPos.value]);
      var value := Trim(arg[eqPos.value + 1..]);
      step' := ApplyKeyValue(step, key, value);
    }
  }

  /** A piece's update is that of its trimmed text split at the first `=`, or none without one. */
  lemma ArgumentUpdate(piece: string)
    ensures FindChar(Trim(piece), '=').None? ==> Update(piece).None?
    ensures FindChar(Trim(piece), '=').Some? ==>
      var arg := Trim(piece);
      var eq := FindChar(arg, '=').value;
      Update(piece) == UpdateOf(Trim(arg[..eq]), Trim(arg[eq + 1..]))
  {
  }

  /** The `match` on the key of one piece. */
  method ApplyKeyValue(step: map<string, Json>, key: string, value: string) returns (step': map<string, Json>)
    ensures step' == ApplyUpdate(step, UpdateOf(key, value))
  {
    step' := step;
    if key == "target_version" {
      step' := step["target_version" := JStr(StripQuotes(value))];
    } else if key == "upgrade_type" {
      var dotPos := FindChar(value, '.');
      if dotPos.Some? {
        step' := step["upgrade_type" := JStr(ToUpper(value[dotPos.value + 1..]))];
      }
    } else if key == "priority" {
      var priority := ParseI64(value);
      if priority.Some? {
        step' := step["priority" := JNum(priority.value)];
      }
    } else if key == "min_version" {
      step' := step["min_version" := JStr(StripQuotes(value))];
    } else if key == "max_version" {
      step' := step["max_version" := JStr(StripQuotes(value))];
    }
  }

  /**
   * What a piece can set: only the five argument keys, and only under its
   * own key; another key sets nothing; `priority` is an i64 parsed from the
   * value and `upgrade_type` has no lower-case letter.
   */
  lemma UpdateOfSpec(key: string, value: string)
    ensures key !in ArgKeys ==> UpdateOf(key, value).None?
    ensures UpdateOf(key, value).Some? ==> UpdateOf(key, value).value.0 == key && key in ArgKeys
    ensures key in {"target_version", "min_version", "max_version"} ==>
      UpdateOf(key, value) == Some((key, JStr(StripQuotes(value))))
    ensures key == "priority" ==>
      (UpdateOf(key, value).Some? <==> ParseI64(value).Some?) &&
      (UpdateOf(key, value).Some? ==> UpdateOf(key, value).value.1 == JNum(ParseI64(value).value))
    ensures key == "upgrade_type" ==>
      (UpdateOf(key, value).Some? <==> '.' in value) &&
      (UpdateOf(key, value).Some? ==> (UpdateOf(key, value).value.1.JStr? &&
        forall i :: 0 <= i < |UpdateOf(key, value).value.1.s| ==> !('a' <= UpdateOf(key, value).value.1.s[i] <= 'z')))
  {
  }

  /** A piece sets only its own key, one of the five, and a piece without `=` sets nothing. */
  lemma UpdateSpec(arg: string)
    ensures KeyValue(arg).None? ==> Update(arg).None?
    ensures Update(arg).Some? ==> KeyValue(arg).Some? && Update(arg).value.0 == KeyValue(arg).value.0
    ensures Update(arg).Some? ==> Update(arg).value.0 in ArgKeys
  {
    if KeyValue(arg).Some? {
      UpdateOfSpec(KeyValue(arg).value.0, KeyValue(arg).value.1);
    }
  }

  /** The last update of a key decides its value. */
  lemma {:induction false} LastUpdateWins(step: map<string, Json>, ups: seq<Option<(string, Json)>>, i: nat)
    requires i < |ups| && ups[i].Some?
    requires forall j :: i < j < |ups| ==> ups[j].None? || ups[j].value.0 != ups[i].value.0
    ensures ups[i].value.0 in ApplyUpdates(step, ups)
    ensures ApplyUpdates(step, ups)[ups[i].value.0] == ups[i].value.1
    decreases |ups|
  {
    if i < |ups| - 1 {
      var front := ups[..|ups| - 1];
      assert front[i] == ups[i];
      assert forall j :: i < j < |front| ==> front[j] == ups[j];
      LastUpdateWins(step, front, i);
    }
  }

  /** A key no update sets keeps its entry, or its absence. */
  lemma {:induction false} UnsetKeyKept(step: map<string, Json>, ups: seq<Option<(string, Json)>>, k: string)
    requires forall j :: 0 <= j < |ups| ==> ups[j].None? || ups[j].value.0 != k
    ensures k in ApplyUpdates(step, ups) <==> k in step
    ensures k in step ==> ApplyUpdates(step, ups)[k] == step[k]
    decreases |ups|
  {
    if ups != [] {
      var front := ups[..|ups| - 1];
      assert forall j :: 0 <= j < |front| ==> front[j] == ups[j];
      UnsetKeyKept(step, front, k);
    }
  }

  /** Updates only ever add the keys they set. */
  lemma {:induction false} ApplyUpdatesKeys(step: map<string, Json>, ups: seq<Option<(string, Json)>>, keys: set<string>)
    requires forall j :: 0 <= j < |ups| ==> ups[j].None? || ups[j].value.0 in keys
    ensures step.Keys <= ApplyUpdates(step, ups).Keys <= step.Keys + keys
    decreases |ups|
  {
    if ups != [] {
      var front := ups[..|ups| - 1];
      assert forall j :: 0 <= j < |front| ==> front[j] == ups[j];
      ApplyUpdatesKeys(step, front, keys);
    }
  }

  /** Every update of a list of pieces sets one of the argument keys. */
  lemma UpdatesInArgKeys(pieces: seq<string>)
    ensures forall j :: 0 <= j < |Updates(pieces)| ==> Updates(pieces)[j].None? || Updates(pieces)[j].value.0 in ArgKeys
  {
    MapSeqAt(Update, pieces);
    forall j | 0 <= j < |pieces|
      ensures Update(pieces[j]).None? || Update(pieces[j]).value.0 in ArgKeys
    {
      UpdateSpec(pieces[j]);
    }
  }

  /**
   * A step names its function in `name` and `func`, has the five default
   * keys, and no key beyond the argument keys.
   */
  lemma UpgradeStepShape(funcName: string, decoratorArgs: string)
    ensures var m := UpgradeStep(funcName, decoratorArgs).fields;
      && {"name", "func", "target_version", "upgrade_type", "priority"} <= m.Keys
      && m.Keys <= {"name", "func"} + ArgKeys
      && m["name"] == JStr(funcName) && m["func"] == FuncRecord(funcName)
  {
    var d := DefaultStep(funcName);
    var ups := Updates(Split(decoratorArgs, ','));
    UpdatesInArgKeys(Split(decoratorArgs, ','));
    ApplyUpdatesKeys(d, ups, ArgKeys);
    UnsetKeyKept(d, ups, "name");
    UnsetKeyKept(d, ups, "func");
  }

  /** Arguments with no `=` anywhere leave the defaults exactly. */
  lemma NoAssignmentsGiveDefaults(funcName: string, decoratorArgs: string)
    requires '=' !in decoratorArgs
    ensures UpgradeStep(funcName, decoratorArgs) == JObj(DefaultStep(funcName))
  {
    var pieces := Split(decoratorArgs, ',');
    NoAssignmentPieces(decoratorArgs, pieces);
    MapSeqAt(Update, pieces);
    NoUpdatesKeep(DefaultStep(funcName), Updates(pieces));
  }

  /** Every piece of text without `=` sets nothing. */
  lemma NoAssignmentPieces(decoratorArgs: string, pieces: seq<string>)
    requires '=' !in decoratorArgs && pieces == Split(decoratorArgs, ',')
    ensures forall j :: 0 <= j < |pieces| ==> Update(pieces[j]).None?
  {
    forall j | 0 <= j < |pieces|
      ensures Update(pieces[j]).None?
    {
      PieceOfSplit(decoratorArgs, pieces, j);
      var a := Trim(pieces[j]);
      assert forall i :: 0 <= i < |a| ==> a[i] in pieces[j];
    }
  }

  /** Every character of a piece of `s` split at `c` is a character of `s`. */
  lemma {:induction false} PieceOfSplit(s: string, pieces: seq<string>, j: nat)
    requires pieces == Split(s, ',') && j < |pieces|
    ensures forall ch :: ch in pieces[j] ==> ch in s
    decreases |s|
  {
    match FindChar(s, ',')
    case None =>
    case Some(i) =>
      if j > 0 {
        PieceOfSplit(s[i + 1..], Split(s[i + 1..], ','), j - 1);
      }
  }

  /** Updates that set nothing leave the record as it is. */
  lemma {:induction false} NoUpdatesKeep(step: map<string, Json>, ups: seq<Option<(string, Json)>>)
    requires forall j :: 0 <= j < |ups| ==> ups[j].None?
    ensures ApplyUpdates(step, ups) == step
    decreases |ups|
  {
    if ups != [] {
      NoUpdatesKeep(step, ups[..|ups| - 1]);
    }
  }

  // ---------------------------------------------------------------------------
  // The decorator scan
  // ---------------------------------------------------------------------------

  /** The text that opens a step decorator of class `className`. */
  function DecoratorPattern(className: string): (p: string)
    ensures |p| >= 1 && p[|p| - 1] == '('
  {
    "@" + className + ".register_step("
  }

  /**
   * The step of the decorator at `pos`: its `(` must have a match; the
   * arguments are the text strictly inside; the function is named by the
   * trimmed text between the first `def ` from the `)` on and the next `(`.
   * None when the match, the `def ` or that `(` is missing.
   */
  function StepAt(content: string, pattern: string, pos: nat): Option<Json>
    requires |pattern| >= 1 && pattern[|pattern| - 1] == '('
    requires pos + |pattern| <= |content|
  {
    var parenStart := pos + |pattern| - 1;
    match MatchingDelimiter(content, parenStart, '(', ')')
    case None => None
    case Some(parenEnd) =>
      var args := content[pos + |pattern|..parenEnd];
      var rest := content[parenEnd..];
      match Find(rest, "def ")
      case None => None
      case Some(defPos) =>
        match FindCharFrom(rest, '(', defPos + 4)
        case None => None
        case Some(parenPos) => Some(UpgradeStep(Trim(rest[defPos + 4..parenPos]), args))
  }

  /** The steps the scan finds from cursor `from` on, in text order; the cursor resumes one past each occurrence. */
  function Steps(content: string, pattern: string, from: nat): seq<Json>
    requires |pattern| >= 1 && pattern[|pattern| - 1] == '('
    requires from <= |content|
    decreases |content| - from
  {
    match FindFrom(content, pattern, from)
    case None => []
    case Some(pos) =>
      match StepAt(content, pattern, pos)
      case None => Steps(content, pattern, pos + 1)
      case Some(step) => [step] + Steps(content, pattern, pos + 1)
  }

  /** `extract_steps_from_decorators`: never an error. */
  method ExtractStepsFromDecorators(content: string, className: string) returns (r: Result<seq<Json>, BridgeError>)
    ensures r == Ok(Steps(content, DecoratorPattern(className), 0))
  {
    var steps: seq<Json> := [];
    var pattern := DecoratorPattern(className);
    var searchFrom: nat := 0;
    var decoratorPos := FindFrom(content, pattern, searchFrom);
    while decoratorPos.Some?
      invariant searchFrom <= |content|
      invariant decoratorPos == FindFrom(content, pattern, searchFrom)
      invariant steps + Steps(content, pattern, searchFrom) == Steps(content, pattern, 0)
      decreases |content| - searchFrom
    {
      var actualPos := decoratorPos.value;
      var step := DecoratorRound(content, pattern, actualPos);
      if step.Some? {
        AppendAssoc(steps, [step.value], Steps(content, pattern, actualPos + 1));
        steps := steps + [step.value];
      }
      searchFrom := actualPos + 1;
      decoratorPos := FindFrom(content, pattern, searchFrom);
    }
    assert steps + [] == steps;
    return Ok(steps);
  }

  /** One round of the scan, at the occurrence at `pos`. */
  method DecoratorRound(content: string, pattern: string, pos: nat) returns (step: Option<Json>)
    requires |pattern| >= 1 && pattern[|pattern| - 1] == '('
    requires pos + |pattern| <= |content|
    ensures step == StepAt(content, pattern, pos)
  {
    var parenStart := pos + |pattern| - 1;
    var parenEnd := FindMatchingParen(content, parenStart);
    if parenEnd.None? {
      return None;
    }
    var decoratorArgs := content[pos + |pattern|..parenEnd.value];
    var restOfFile := content[parenEnd.value..];
    var defPos := Find(restOfFile, "def ");
    if defPos.None? {
      return None;
    }
    var defStart := defPos.value + 4;
    var parenPos := FindCharFrom(restOfFile, '(', defStart);
    if parenPos.None? {
      return None;
    }
    var funcName := Trim(restOfFile[defStart..parenPos.value]);
    var built := BuildUpgradeStepFromDecorator(funcName, decoratorArgs);
    return Some(built.value);
  }

  /** The pattern occurs at `q` and the decorator there gives `step`. */
  predicate StepOccurs(content: string, pattern: string, q: nat, step: Json)
    requires |pattern| >= 1 && pattern[|pattern| - 1] == '('
  {
    OccursAt(content, pattern, q) && StepAt(content, pattern, q) == Some(step)
  }

  /** Every step the scan returns comes from a decorator past the cursor. */
  lemma {:induction false} StepsSound(content: string, pattern: string, from: nat, step: Json)
    requires |pattern| >= 1 && pattern[|pattern| - 1] == '('
    requires from <= |content| && step in Steps(content, pattern, from)
    ensures exists q: nat :: from <= q && StepOccurs(content, pattern, q, step)
    decreases |content| - from
  {
    var pos := FindFrom(content, pattern, from).value;
    if StepAt(content, pattern, pos) == Some(step) {
      assert StepOccurs(content, pattern, pos, step);
    } else {
      StepsSound(content, pattern, pos + 1, step);
    }
  }

  /** Every decorator past the cursor that gives a step is found by the scan. */
  lemma {:induction false} StepsComplete(content: string, pattern: string, from: nat, q: nat, step: Json)
    requires |pattern| >= 1 && pattern[|pattern| - 1] == '('
    requires from <= q && from <= |content| && StepOccurs(content, pattern, q, step)
    ensures step in Steps(content, pattern, from)
    decreases |content| - from
  {
    var pos := FindFrom(content, pattern, from).value;
    if pos != q {
      StepsComplete(content, pattern, pos + 1, q, step);
    }
  }

  /** The steps of a file are exactly the steps of its decorators. */
  lemma StepsMembers(content: string, className: string, step: Json)
    ensures step in Steps(content, DecoratorPattern(className), 0) <==>
      exists q: nat :: StepOccurs(content, DecoratorPattern(className), q, step)
  {
    var pattern := DecoratorPattern(className);
    if step in Steps(content, pattern, 0) {
      StepsSound(content, pattern, 0, step);
    }
    if exists q: nat :: StepOccurs(content, pattern, q, step) {
      var q: nat :| StepOccurs(content, pattern, q, step);
      StepsComplete(content, pattern, 0, q, step);
    }
  }
}
