/**
 * The keyword-argument scanner and the value classifier of the discovery
 * pass: `XxxPlugin(name="a", obj=Parser, io_type=IOType.STDOUT)` becomes a
 * map from keyword to JSON value, and that map becomes the plugin record.
 */
module ConstructorParser {
  import opened Wrappers
  import opened Strings
  import opened Assoc
  import opened Errors
  import opened Json
  import opened PluginConfig
  import opened ImportResolver

  // ---------------------------------------------------------------------------
  // Values
  // ---------------------------------------------------------------------------

  /** `infer_callable_type_from_name`: `class` for a name whose first character is upper case. */
  function InferCallableKind(name: string): (r: string)
    ensures r == "class" <==> name != [] && IsUpper(name[0])
    ensures r == "class" || r == "function"
  {
    if name != [] && IsUpper(name[0]) then "class" else "function"
  }

  /** The object a symbol of the import map stands for. */
  function CallableRef(moduleText: string, name: string): Json
  {
    JObj(map[
      "module" := JStr(moduleText),
      "name" := JStr(name),
      "type" := JStr(InferCallableKind(name)),
      "return_annotation" := JNull,
      "parameters" := JObj(map[])])
  }

  /** A single double or single quote: the one text the quoted-string rule cannot slice. */
  predicate LoneQuote(t: string)
  {
    t == "\"" || t == "'"
  }

  /** A value whose trimmed text the classifier can take. */
  predicate Classifiable(value: string)
  {
    !LoneQuote(Trim(value))
  }

  /** Every value of `pairs` is one the classifier can take. */
  predicate AllClassifiable(pairs: seq<(string, string)>)
  {
    forall k :: 0 <= k < |pairs| ==> Classifiable(pairs[k].1)
  }

  predicate Quoted(t: string)
  {
    (StartsWith(t, "\"") && EndsWith(t, "\"")) || (StartsWith(t, "'") && EndsWith(t, "'"))
  }

  /**
   * The rules of `parse_kwarg_value` on the trimmed text, in order: nothing
   * or `None`, `True`, `False`, a quoted string, an `IOType` member, an
   * attribute access (an error), a list, an imported symbol, and otherwise
   * the text itself. The quoted-string rule slices off both ends, which the
   * code cannot do for a lone quote; the scanner never produces one (the
   * postcondition of Scan).
   */
  function Classify(t: string, imports: ImportMap): (r: Result<Json, BridgeError>)
    requires !LoneQuote(t)
    ensures t == "" || t == "None" ==> r == Ok(JNull)
    ensures t == "True" ==> r == Ok(JBool(true))
    ensures t == "False" ==> r == Ok(JBool(false))
    ensures Quoted(t) ==> r == Ok(JStr(t[1..|t| - 1]))
    ensures !Quoted(t) && ResolveEnumValue(t).Some? ==> r == Ok(JStr(ResolveEnumValue(t).value))
  {
    if t == "" || t == "None" then Ok(JNull)
    else if t == "True" then Ok(JBool(true))
    else if t == "False" then Ok(JBool(false))
    else if Quoted(t) then Ok(JStr(t[1..|t| - 1]))
    else if ResolveEnumValue(t).Some? then Ok(JStr(ResolveEnumValue(t).value))
    else if '.' in t && !StartsWith(t, "[") then
      if EndsWith(t, ".steps") then
        Err(DecoratorStepsUnsupported(t[..|t| - 6]))
      else
        Err(AttributeAccessUnsupported(t))
    else if StartsWith(t, "[") && EndsWith(t, "]") then Ok(JArr([]))
    else if t in imports.symbols then CallableRefOk(imports.symbols[t])
    else Ok(JStr(t))
  }

  /** One of the first five rules (nothing, `None`, `True`, `False`, a quoted string, an `IOType` member) takes `t`. */
  predicate EarlyRule(t: string)
  {
    t in {"", "None", "True", "False"} || Quoted(t) || ResolveEnumValue(t).Some?
  }

  /** An attribute access that no earlier rule takes: the values the classifier refuses. */
  predicate Refused(t: string)
  {
    !EarlyRule(t) && '.' in t && !StartsWith(t, "[")
  }

  /**
   * The classifier fails exactly on the refused values; a `<Class>.steps`
   * value names the class in its error and any other carries the whole text.
   */
  lemma ClassifyErrors(t: string, imports: ImportMap)
    requires !LoneQuote(t)
    ensures Classify(t, imports).Err? <==> Refused(t)
    ensures Refused(t) && EndsWith(t, ".steps") ==>
      |t| >= 6 && Classify(t, imports) == Err(DecoratorStepsUnsupported(t[..|t| - 6]))
    ensures Refused(t) && !EndsWith(t, ".steps") ==> Classify(t, imports) == Err(AttributeAccessUnsupported(t))
  {
  }

  /**
   * The last three rules, for text no earlier rule takes and that is not
   * refused: a bracketed list becomes an empty array, a symbol of the import
   * map the object it stands for (its `type` is `class` exactly when its
   * name starts upper case, by InferCallableKind), and anything else the
   * text itself.
   */
  lemma ClassifyRules(t: string, imports: ImportMap)
    requires !LoneQuote(t) && !EarlyRule(t) && !Refused(t)
    ensures StartsWith(t, "[") && EndsWith(t, "]") ==> Classify(t, imports) == Ok(JArr([]))
    ensures !(StartsWith(t, "[") && EndsWith(t, "]")) && t in imports.symbols ==>
      Classify(t, imports) == Ok(CallableRef(imports.symbols[t].0, imports.symbols[t].1))
    ensures !(StartsWith(t, "[") && EndsWith(t, "]")) && t !in imports.symbols ==> Classify(t, imports) == Ok(JStr(t))
  {
  }

  /** The error for a `<Class>.steps` value. */
  function DecoratorStepsUnsupported(className: string): BridgeError
  {
    PluginNotFound("Decorator-based extraction for '" + className + "' requires decorator_processor module")
  }

  /** The error for any other dotted value. */
  function AttributeAccessUnsupported(expr: string): BridgeError
  {
    PluginNotFound("Attribute access '" + expr + "' requires Python runtime - unsupported in AST mode")
  }

  /** `parse_kwarg_value`: the value is trimmed first. */
  function ParseKwargValue(value: string, imports: ImportMap): Result<Json, BridgeError>
    requires Classifiable(value)
  {
    Classify(Trim(value), imports)
  }

  function CallableRefOk(entry: (string, string)): Result<Json, BridgeError>
  {
    Ok(CallableRef(entry.0, entry.1))
  }

  // ---------------------------------------------------------------------------
  // The scanner
  // ---------------------------------------------------------------------------

  /** The loop variables of `extract_kwargs`. */
  datatype Scanner = Scanner(
    key: string,
    value: string,
    inKey: bool,
    paren: int,
    bracket: int,
    brace: int,
    inString: bool,
    quote: char)

  const Start: Scanner := Scanner("", "", true, 0, 0, 0, false, ' ')

  /** The four characters skipped before a key starts. */
  predicate KeySpace(c: char)
  {
    c == ' ' || c == '\t' || c == '\n' || c == '\r'
  }

  predicate IsQuote(c: char)
  {
    c == '"' || c == '\''
  }

  /** One character's effect: the next state and the pair it completes, or the end of the scan. */
  datatype StepResult =
    | Next(st: Scanner, emitted: Option<(string, string)>)
    | Halt(emitted: Option<(string, string)>)

  /** The pair pending in `st`, kept only when both its key and its value are non-empty. */
  function Pending(st: Scanner): Option<(string, string)>
  {
    if st.key != [] && st.value != [] then Some((st.key, Trim(st.value))) else None
  }

  /** One turn of the `extract_kwargs` loop, in the order of its tests. */
  function Step(st: Scanner, c: char): StepResult
  {
    if st.inKey && KeySpace(c) && st.key == [] then Next(st, None)
    else if st.inString then
      var v := st.value + [c];
      Next(st.(value := v, inString := !(c == st.quote && !EndsWith(v, "\\\""))), None)
    else if IsQuote(c) then Next(st.(inString := true, quote := c, value := st.value + [c]), None)
    else if c == '=' && st.inKey then Next(st.(inKey := false, key := Trim(st.key)), None)
    else if c == '(' then Next(st.(paren := st.paren + 1, value := st.value + [c]), None)
    else if c == ')' && st.paren > 0 then Next(st.(paren := st.paren - 1, value := st.value + [c]), None)
    else if c == ')' then Halt(Pending(st))
    else if c == '[' then Next(st.(bracket := st.bracket + 1, value := st.value + [c]), None)
    else if c == ']' then Next(st.(bracket := st.bracket - 1, value := st.value + [c]), None)
    else if c == '{' then Next(st.(brace := st.brace + 1, value := st.value + [c]), None)
    else if c == '}' then Next(st.(brace := st.brace - 1, value := st.value + [c]), None)
    else if c == ',' && st.paren == 0 && st.bracket == 0 && st.brace == 0 then
      if st.key != [] && st.value != [] then Next(st.(key := [], value := [], inKey := true), Pending(st))
      else Next(st, None)
    else if st.inKey then Next(st.(key := st.key + [c]), None)
    else Next(st.(value := st.value + [c]), None)
  }

  function OptionSeq<T>(o: Option<T>): seq<T>
  {
    if o.Some? then [o.value] else []
  }

  // The count of non-whitespace characters, and the invariant that keeps a
  // lone quote out of every completed value.

  function NonWs(s: string): nat
  {
    if s == [] then 0 else NonWs(s[..|s| - 1]) + (if IsWhitespace(s[|s| - 1]) then 0 else 1)
  }

  predicate HasQuote(s: string)
  {
    '"' in s || '\'' in s
  }

  /**
   * Inside a string the value holds its opening quote; outside, a value with
   * a quote in it has at least two non-whitespace characters.
   */
  predicate Inv(st: Scanner)
  {
    (st.inString ==> NonWs(st.value) >= 1 && IsQuote(st.quote))
    && (!st.inString ==> !HasQuote(st.value) || NonWs(st.value) >= 2)
  }

  lemma {:induction false} NonWsAppend(a: string, b: string)
    ensures NonWs(a + b) == NonWs(a) + NonWs(b)
    decreases |b|
  {
    if b != [] {
      assert (a + b)[..|a + b| - 1] == a + b[..|b| - 1];
      NonWsAppend(a, b[..|b| - 1]);
    } else {
      assert a + b == a;
    }
  }

  lemma {:induction false} NonWsOfWhitespace(s: string)
    requires forall i :: 0 <= i < |s| ==> IsWhitespace(s[i])
    ensures NonWs(s) == 0
  {
    if s != [] {
      NonWsOfWhitespace(s[..|s| - 1]);
    }
  }

  /** A value that trims to a lone quote holds one non-whitespace character, that quote. */
  lemma LoneQuoteValue(v: string)
    requires LoneQuote(Trim(v))
    ensures HasQuote(v) && NonWs(v) == 1
  {
    var a := |v| - |TrimStart(v)|;
    var t := Trim(v);
    LoneQuoteFacts(t);
    NonWsAround(v, a, t);
    assert v[a] == t[0];
  }

  lemma LoneQuoteFacts(t: string)
    requires LoneQuote(t)
    ensures |t| == 1 && IsQuote(t[0]) && NonWs(t) == 1
  {
    assert t[..0] == [];
  }

  /** Whitespace around a slice does not count. */
  lemma NonWsAround(v: string, a: nat, t: string)
    requires a + |t| <= |v| && t == v[a..a + |t|]
    requires forall i :: 0 <= i < a ==> IsWhitespace(v[i])
    requires forall i :: a + |t| <= i < |v| ==> IsWhitespace(v[i])
    ensures NonWs(v) == NonWs(t)
  {
    var b := a + |t|;
    assert v == v[..a] + t + v[b..];
    NonWsOfWhitespace(v[..a]);
    NonWsOfWhitespace(v[b..]);
    NonWsAppend(v[..a], t);
    NonWsAppend(v[..a] + t, v[b..]);
  }

  /** Appending one character to a value. */
  lemma AppendChar(v: string, c: char)
    ensures NonWs(v + [c]) == NonWs(v) + (if IsWhitespace(c) then 0 else 1)
    ensures HasQuote(v + [c]) <==> HasQuote(v) || IsQuote(c)
  {
    assert (v + [c])[..|v|] == v;
  }

  /** Outside a string, appending a character that is not a quote keeps the invariant's value part. */
  lemma AppendPlain(v: string, c: char)
    requires !HasQuote(v) || NonWs(v) >= 2
    requires !IsQuote(c)
    ensures !HasQuote(v + [c]) || NonWs(v + [c]) >= 2
  {
    AppendChar(v, c);
  }

  /** Inside a string the value only grows, and a closing quote makes it two non-whitespace characters long. */
  lemma AppendInString(v: string, c: char)
    requires NonWs(v) >= 1
    ensures NonWs(v + [c]) >= 1
    ensures IsQuote(c) ==> NonWs(v + [c]) >= 2
  {
    AppendChar(v, c);
  }

  /** The invariant holds after every step that goes on. */
  lemma StepKeepsInv(st: Scanner, c: char)
    requires Inv(st)
    ensures Step(st, c).Next? ==> Inv(Step(st, c).st)
  {
    if st.inString {
      StepInString(st, c);
    } else if IsQuote(c) {
      StepOpensString(st, c);
    } else {
      StepOutsideString(st, c);
    }
  }

  lemma StepInString(st: Scanner, c: char)
    requires Inv(st) && st.inString
    ensures Step(st, c).Next? ==> Inv(Step(st, c).st)
  {
    AppendInString(st.value, c);
  }

  lemma StepOpensString(st: Scanner, c: char)
    requires Inv(st) && !st.inString && IsQuote(c)
    ensures Step(st, c).Next? ==> Inv(Step(st, c).st)
  {
    AppendChar(st.value, c);
  }

  lemma StepOutsideString(st: Scanner, c: char)
    requires Inv(st) && !st.inString && !IsQuote(c)
    ensures Step(st, c).Next? ==> Inv(Step(st, c).st)
  {
    StepOutsideValue(st, c);
    AppendPlain(st.value, c);
    assert !HasQuote([]);
  }

  /** Outside a string, a character that is no quote keeps the value, appends itself, or clears the value. */
  lemma StepOutsideValue(st: Scanner, c: char)
    requires !st.inString && !IsQuote(c)
    ensures Step(st, c).Next? ==> !Step(st, c).st.inString
    ensures Step(st, c).Next? ==> Step(st, c).st.value in {st.value, st.value + [c], []}
  {
  }

  /** Outside a string, the pending pair's value is not a lone quote. */
  lemma PendingClassifiable(st: Scanner)
    requires Inv(st) && !st.inString
    ensures Pending(st).Some? ==> Classifiable(Pending(st).value.1)
  {
    TrimIdempotent(st.value);
    if LoneQuote(Trim(st.value)) {
      LoneQuoteValue(st.value);
    }
  }

  /** A step completes a pair only outside a string, and that pair is the pending one. */
  lemma StepEmitsPending(st: Scanner, c: char)
    ensures Step(st, c).emitted.Some? ==> !st.inString && Step(st, c).emitted == Pending(st)
  {
    if st.inKey && KeySpace(c) && st.key == [] {
    } else if st.inString {
    } else if IsQuote(c) || (c == '=' && st.inKey) || c == '(' || (c == ')' && st.paren > 0) {
    } else if c == ')' {
    } else if c == '[' || c == ']' || c == '{' || c == '}' {
    } else if c == ',' && st.paren == 0 && st.bracket == 0 && st.brace == 0 {
    }
  }

  /** Every pair a step completes has a value that is not a lone quote. */
  lemma StepEmitsClassifiable(st: Scanner, c: char)
    requires Inv(st)
    ensures Step(st, c).emitted.Some? ==> Classifiable(Step(st, c).emitted.value.1)
  {
    StepEmitsPending(st, c);
    if !st.inString {
      PendingClassifiable(st);
    }
  }

  /**
   * The pairs the scanner completes on `s` from state `st`: up to the end of
   * the text, or up to and including the pending pair at the closing `)`.
   */
  function Scan(st: Scanner, s: string): seq<(string, string)>
    requires Inv(st)
    decreases |s|
  {
    if s == [] then []
    else
      match Step(st, s[0])
      case Halt(e) => OptionSeq(e)
      case Next(st', e) =>
        StepKeepsInv(st, s[0]);
        OptionSeq(e) + Scan(st', s[1..])
  }

  /** No pair the scanner completes has a lone quote for its value. */
  lemma {:induction false} ScanClassifiable(st: Scanner, s: string)
    requires Inv(st)
    ensures AllClassifiable(Scan(st, s))
    decreases |s|
  {
    if s != [] {
      StepEmitsClassifiable(st, s[0]);
      StepKeepsInv(st, s[0]);
      match Step(st, s[0])
      case Halt(e) =>
      case Next(st', e) =>
        ScanClassifiable(st', s[1..]);
        AllClassifiableAppend(OptionSeq(e), Scan(st', s[1..]));
    }
  }

  /** Classifies the pairs in order; the first value that fails aborts the whole call. */
  function ParsePairs(pairs: seq<(string, string)>, imports: ImportMap): (r: Result<seq<(string, Json)>, BridgeError>)
    requires AllClassifiable(pairs)
  {
    if pairs == [] then Ok([])
    else
      var p := pairs[|pairs| - 1];
      match ParsePairs(pairs[..|pairs| - 1], imports)
      case Err(e) => Err(e)
      case Ok(front) =>
        match ParseKwargValue(p.1, imports)
        case Err(e) => Err(e)
        case Ok(v) => Ok(front + [(p.0, v)])
  }

  /** One character of the scan, unfolded. */
  lemma ScanCons(st: Scanner, s: string)
    requires Inv(st) && s != []
    ensures Step(st, s[0]).Halt? ==> Scan(st, s) == OptionSeq(Step(st, s[0]).emitted)
    ensures Step(st, s[0]).Next? ==>
      Inv(Step(st, s[0]).st) && Scan(st, s) == OptionSeq(Step(st, s[0]).emitted) + Scan(Step(st, s[0]).st, s[1..])
  {
    StepKeepsInv(st, s[0]);
  }

  lemma AllClassifiableAppend(a: seq<(string, string)>, b: seq<(string, string)>)
    ensures AllClassifiable(a + b) <==> AllClassifiable(a) && AllClassifiable(b)
  {
    if AllClassifiable(a) && AllClassifiable(b) {
      forall k | 0 <= k < |a + b|
        ensures Classifiable((a + b)[k].1)
      {
        if k >= |a| {
          assert (a + b)[k] == b[k - |a|];
        }
      }
    }
    if AllClassifiable(a + b) {
      forall k | 0 <= k < |a|
        ensures Classifiable(a[k].1)
      {
        assert (a + b)[k] == a[k];
      }
      forall k | 0 <= k < |b|
        ensures Classifiable(b[k].1)
      {
        assert (a + b)[|a| + k] == b[k];
      }
    }
  }

  /** One character of the scan, as the loop of `extract_kwargs` takes it: returns what the rest of the text completes. */
  lemma ScanAdvance(st: Scanner, content: string, i: nat, res: StepResult) returns (tail: seq<(string, string)>)
    requires Inv(st) && i < |content| && res == Step(st, content[i])
    ensures res.Next? ==> Inv(res.st) && tail == Scan(res.st, content[i + 1..])
    ensures res.Halt? ==> tail == []
    ensures res.emitted.Some? ==> Classifiable(res.emitted.value.1)
    ensures Scan(st, content[i..]) == OptionSeq(res.emitted) + tail
  {
    assert content[i..][0] == content[i] && content[i..][1..] == content[i + 1..];
    ScanCons(st, content[i..]);
    StepEmitsClassifiable(st, content[i]);
    tail := if res.Next? then Scan(res.st, content[i + 1..]) else [];
  }

  /** Classifying one more pair. */
  lemma ParsePairsSnoc(pairs: seq<(string, string)>, p: (string, string), imports: ImportMap)
    requires AllClassifiable(pairs) && Classifiable(p.1)
    ensures AllClassifiable(pairs + [p])
    ensures ParsePairs(pairs, imports).Ok? && ParseKwargValue(p.1, imports).Ok? ==>
      ParsePairs(pairs + [p], imports) == Ok(ParsePairs(pairs, imports).value + [(p.0, ParseKwargValue(p.1, imports).value)])
    ensures ParsePairs(pairs, imports).Ok? && ParseKwargValue(p.1, imports).Err? ==>
      ParsePairs(pairs + [p], imports) == Err(ParseKwargValue(p.1, imports).error)
  {
    AllClassifiableAppend(pairs, [p]);
    assert (pairs + [p])[..|pairs|] == pairs;
  }

  /** Once a pair fails, the pairs after it change nothing. */
  lemma {:induction false} ParsePairsErrPrefix(a: seq<(string, string)>, b: seq<(string, string)>, imports: ImportMap)
    requires AllClassifiable(a + b)
    requires AllClassifiable(a) && ParsePairs(a, imports).Err?
    ensures ParsePairs(a + b, imports) == ParsePairs(a, imports)
    decreases |b|
  {
    if b == [] {
      assert a + b == a;
    } else {
      var b' := b[..|b| - 1];
      assert (a + b)[..|a + b| - 1] == a + b';
      AllClassifiableAppend(a, b);
      AllClassifiableAppend(b', [b[|b| - 1]]);
      assert b' + [b[|b| - 1]] == b;
      AllClassifiableAppend(a, b');
      ParsePairsErrPrefix(a, b', imports);
    }
  }

  /**
   * The keywords as the scan inserts them, before their keys are cleaned:
   * the text after the first `(` is scanned, and a later pair with the same
   * key replaces the earlier one.
   */
  function RawKwargs(pluginDef: string, imports: ImportMap): Result<map<string, Json>, BridgeError>
  {
    match FindChar(pluginDef, '(')
    case None => Err(PluginNotFound("No opening parenthesis in plugin constructor"))
    case Some(i) => ScanKwargs(pluginDef[i + 1..], imports)
  }

  /** A key with a `:` is replaced by the trimmed text after its last `:`. */
  function CleanKey(key: string): (r: string)
    ensures ':' !in key ==> r == key
  {
    match RFindChar(key, ':')
    case Some(i) => Trim(key[i + 1..])
    case None => key
  }

  /**
   * `cleaned` is what the re-keying of `raw` can give: its keys are the
   * cleaned keys of `raw`, and each holds the value of one raw key that
   * cleans to it. Which one, when several do, is up to the hash map's
   * iteration order.
   */
  ghost predicate CleanedFrom(raw: map<string, Json>, cleaned: map<string, Json>)
  {
    (forall k :: k in raw ==> CleanKey(k) in cleaned)
    && (forall k' :: k' in cleaned ==> exists k :: k in raw && CleanKey(k) == k' && cleaned[k'] == raw[k])
  }

  /** When no two raw keys clean to the same key, the cleaned map is determined. */
  lemma CleanedFromUnique(raw: map<string, Json>, cleaned: map<string, Json>, k: string)
    requires CleanedFrom(raw, cleaned)
    requires forall k1, k2 :: k1 in raw && k2 in raw && CleanKey(k1) == CleanKey(k2) ==> k1 == k2
    requires k in raw
    ensures CleanKey(k) in cleaned && cleaned[CleanKey(k)] == raw[k]
  {
  }

  /**
   * The re-keying of `extract_kwargs`: each raw key is cleaned, in an
   * order the model leaves open, and a later cleaned key replaces an
   * earlier equal one.
   */
  method CleanKeys(raw: map<string, Json>) returns (cleaned: map<string, Json>)
    ensures CleanedFrom(raw, cleaned)
  {
    cleaned := map[];
    var rest := raw.Keys;
    while rest != {}
      invariant rest <= raw.Keys
      invariant forall k :: k in raw && k !in rest ==> CleanKey(k) in cleaned
      invariant forall k' :: k' in cleaned ==>
        exists k :: k in raw && k !in rest && CleanKey(k) == k' && cleaned[k'] == raw[k]
      decreases |rest|
    {
      var key :| key in rest;
      var cleanedKey := CleanKey(key);
      cleaned := cleaned[cleanedKey := raw[key]];
      rest := rest - {key};
    }
  }

  /** The body of the `extract_kwargs` loop for one character, on the scanner's variables. */
  method ScanChar(st: Scanner, c: char) returns (res: StepResult)
    ensures res == Step(st, c)
  {
    var key, value, inKey := st.key, st.value, st.inKey;
    var parenDepth, bracketDepth, braceDepth := st.paren, st.bracket, st.brace;
    var inString, stringChar := st.inString, st.quote;
    var emitted: Option<(string, string)> := None;
    if inKey && (c == ' ' || c == '\t' || c == '\n' || c == '\r') && key == [] {
      return Next(st, None);
    }
    if inString {
      value := value + [c];
      if c == stringChar && !EndsWith(value, "\\\"") {
        inString := false;
      }
      return Next(st.(value := value, inString := inString), None);
    }
    if c == '"' || c == '\'' {
      inString := true;
      stringChar := c;
      value := value + [c];
    } else if c == '=' && inKey {
      inKey := false;
      key := Trim(key);
    } else if c == '(' {
      parenDepth := parenDepth + 1;
      value := value + [c];
    } else if c == ')' && parenDepth > 0 {
      parenDepth := parenDepth - 1;
      value := value + [c];
    } else if c == ')' {
      if key != [] && value != [] {
        emitted := Some((key, Trim(value)));
      }
      return Halt(emitted);
    } else if c == '[' {
      bracketDepth := bracketDepth + 1;
      value := value + [c];
    } else if c == ']' {
      bracketDepth := bracketDepth - 1;
      value := value + [c];
    } else if c == '{' {
      braceDepth := braceDepth + 1;
      value := value + [c];
    } else if c == '}' {
      braceDepth := braceDepth - 1;
      value := value + [c];
    } else if c == ',' && parenDepth == 0 && bracketDepth == 0 && braceDepth == 0 {
      if key != [] && value != [] {
        emitted := Some((key, Trim(value)));
        key, value, inKey := [], [], true;
      }
    } else if inKey {
      key := key + [c];
    } else {
      value := value + [c];
    }
    res := Next(Scanner(key, value, inKey, parenDepth, bracketDepth, braceDepth, inString, stringChar), emitted);
  }

  /** The pairs of `content` classified and inserted, or the first classification error. */
  function ScanKwargs(content: string, imports: ImportMap): Result<map<string, Json>, BridgeError>
  {
    ScanClassifiable(Start, content);
    match ParsePairs(Scan(Start, content), imports)
    case Err(e) => Err(e)
    case Ok(pairs) => Ok(ToMap(pairs))
  }

  /** The map after a turn: the completed pair, if any, classified and inserted. */
  function InsertEmitted(kwargs: map<string, Json>, emitted: Option<(string, string)>, imports: ImportMap)
    : Result<map<string, Json>, BridgeError>
    requires emitted.Some? ==> Classifiable(emitted.value.1)
  {
    match emitted
    case None => Ok(kwargs)
    case Some(pair) =>
      match ParseKwargValue(pair.1, imports)
      case Err(e) => Err(e)
      case Ok(v) => Ok(kwargs[pair.0 := v])
  }

  /**
   * One turn of the `extract_kwargs` loop, on the ghost state of its proof:
   * the completed pairs `done` grow by what the character completes, and
   * a pair that fails to classify is the error of the whole scan.
   */
  lemma ScanTurn(all: seq<(string, string)>, done: seq<(string, string)>, parsed: seq<(string, Json)>,
                 st: Scanner, content: string, i: nat, res: StepResult, imports: ImportMap)
    returns (done': seq<(string, string)>, parsed': seq<(string, Json)>, tail: seq<(string, string)>)
    requires Inv(st) && AllClassifiable(done) && i < |content|
    requires all == done + Scan(st, content[i..]) && AllClassifiable(all)
    requires ParsePairs(done, imports) == Ok(parsed)
    requires res == Step(st, content[i])
    ensures res.emitted.Some? ==> Classifiable(res.emitted.value.1)
    ensures done' == done + OptionSeq(res.emitted) && all == done' + tail && AllClassifiable(done')
    ensures res.Next? ==> Inv(res.st) && tail == Scan(res.st, content[i + 1..])
    ensures res.Halt? ==> tail == []
    ensures InsertEmitted(ToMap(parsed), res.emitted, imports).Err? ==>
      ParsePairs(all, imports) == Err(InsertEmitted(ToMap(parsed), res.emitted, imports).error)
    ensures InsertEmitted(ToMap(parsed), res.emitted, imports).Ok? ==>
      ParsePairs(done', imports) == Ok(parsed') && InsertEmitted(ToMap(parsed), res.emitted, imports).value == ToMap(parsed')
  {
    tail := ScanAdvance(st, content, i, res);
    AppendAssoc(done, OptionSeq(res.emitted), tail);
    done' := done + OptionSeq(res.emitted);
    AllClassifiableAppend(done', tail);
    parsed' := ParseEmitted(done, parsed, res.emitted, tail, imports);
  }

  /** Classifying the pair a turn completes, if any, after the pairs before it. */
  lemma ParseEmitted(done: seq<(string, string)>, parsed: seq<(string, Json)>, emitted: Option<(string, string)>,
                     tail: seq<(string, string)>, imports: ImportMap)
    returns (parsed': seq<(string, Json)>)
    requires AllClassifiable(done) && ParsePairs(done, imports) == Ok(parsed)
    requires emitted.Some? ==> Classifiable(emitted.value.1)
    requires AllClassifiable(done + OptionSeq(emitted)) && AllClassifiable(done + OptionSeq(emitted) + tail)
    ensures InsertEmitted(ToMap(parsed), emitted, imports).Err? ==>
      ParsePairs(done + OptionSeq(emitted) + tail, imports) == Err(InsertEmitted(ToMap(parsed), emitted, imports).error)
    ensures InsertEmitted(ToMap(parsed), emitted, imports).Ok? ==>
      ParsePairs(done + OptionSeq(emitted), imports) == Ok(parsed')
      && InsertEmitted(ToMap(parsed), emitted, imports).value == ToMap(parsed')
  {
    parsed' := parsed;
    if emitted.Some? {
      var pair := emitted.value;
      assert done + OptionSeq(emitted) == done + [pair];
      ParsePairsSnoc(done, pair, imports);
      match ParseKwargValue(pair.1, imports)
      case Err(e) =>
        ParsePairsErrPrefix(done + [pair], tail, imports);
      case Ok(v) =>
        parsed' := parsed + [(pair.0, v)];
        ToMapSnoc(parsed, (pair.0, v));
    } else {
      assert done + OptionSeq(emitted) == done;
    }
  }

  /**
   * What the `)` and `,` arms of the loop do with a completed pair: classify
   * its value, returning the error at once (`?`), and insert it.
   */
  method InsertPair(kwargs: map<string, Json>, emitted: Option<(string, string)>, imports: ImportMap)
    returns (next: Result<map<string, Json>, BridgeError>)
    requires emitted.Some? ==> Classifiable(emitted.value.1)
    ensures next == InsertEmitted(kwargs, emitted, imports)
  {
    if emitted.None? {
      return Ok(kwargs);
    }
    var pair := emitted.value;
    var value := ParseKwargValue(pair.1, imports);
    if value.Err? {
      return Err(value.error);
    }
    return Ok(kwargs[pair.0 := value.value]);
  }

  /**
   * The loop of `extract_kwargs`: classifies each completed pair as it is
   * found and inserts it, and stops at the closing `)`. The first value
   * that fails to classify is the error of the whole call.
   */
  method InsertKwargs(content: string, imports: ImportMap) returns (r: Result<map<string, Json>, BridgeError>)
    ensures r == ScanKwargs(content, imports)
  {
    var kwargs: map<string, Json> := map[];
    var st := Start;
    ghost var all := Scan(Start, content);
    ScanClassifiable(Start, content);
    ghost var done: seq<(string, string)> := [];
    ghost var parsed: seq<(string, Json)> := [];
    var i := 0;
    assert all == done + Scan(st, content[i..]);
    while i < |content|
      invariant 0 <= i <= |content|
      invariant Inv(st) && AllClassifiable(done) && AllClassifiable(all)
      invariant all == done + Scan(st, content[i..])
      invariant ParsePairs(done, imports) == Ok(parsed)
      invariant kwargs == ToMap(parsed)
    {
      var res := ScanChar(st, content[i]);
      ghost var done', parsed', tail := ScanTurn(all, done, parsed, st, content, i, res, imports);
      var next := InsertPair(kwargs, res.emitted, imports);
      if next.Err? {
        return Err(next.error);
      }
      kwargs := next.value;
      done, parsed := done', parsed';
      if res.Halt? {
        assert all == done;
        return Ok(kwargs);
      }
      st := res.st;
      i := i + 1;
    }
    assert all == done;
    return Ok(kwargs);
  }

  /**
   * `extract_kwargs`: scans the text after the first `(` and then cleans
   * the keys.
   */
  method ExtractKwargs(pluginDef: string, imports: ImportMap) returns (r: Result<map<string, Json>, BridgeError>)
    ensures RawKwargs(pluginDef, imports).Err? ==> r == RawKwargs(pluginDef, imports)
    ensures RawKwargs(pluginDef, imports).Ok? ==> r.Ok? && CleanedFrom(RawKwargs(pluginDef, imports).value, r.value)
  {
    var parenStart := FindChar(pluginDef, '(');
    if parenStart.None? {
      return Err(PluginNotFound("No opening parenthesis in plugin constructor"));
    }
    var content := pluginDef[parenStart.value + 1..];
    var kwargs := InsertKwargs(content, imports);
    if kwargs.Err? {
      return Err(kwargs.error);
    }
    var cleaned := CleanKeys(kwargs.value);
    r := Ok(cleaned);
  }

  // ---------------------------------------------------------------------------
  // The plugin record
  // ---------------------------------------------------------------------------

  /** The keywords copied into the record whenever they are given. */
  const CopiedKeys: set<string> :=
    {"call_method", "config", "requires_store", "version_strategy", "version_reader", "upgrade_steps"}

  predicate HasName(kwargs: map<string, Json>)
  {
    "name" in kwargs && kwargs["name"].JStr?
  }

  /** The keys the record ends up with. */
  function RecordKeys(kwargs: map<string, Json>): set<string>
  {
    {"name", "plugin_type", "obj"} + (kwargs.Keys * CopiedKeys)
    + (if "io_type" in kwargs && kwargs["io_type"].JStr? then {"io_type"} else {})
  }

  /**
   * The fields of the record: `name`, the plugin type and `obj`; `io_type`
   * only when that keyword is a string; and each of the six copied
   * keywords exactly when it is given, with the keyword's value.
   */
  function RecordFields(constructorType: string, kwargs: map<string, Json>, inferPluginType: string -> string): (f: map<string, Json>)
    requires HasName(kwargs) && "obj" in kwargs
    ensures "name" in f && "plugin_type" in f && "obj" in f
    ensures f["name"] == kwargs["name"] && f["obj"] == kwargs["obj"]
    ensures f["plugin_type"] == JStr(inferPluginType(constructorType))
    ensures forall k :: k in CopiedKeys ==> (k in f <==> k in kwargs)
    ensures forall k :: k in CopiedKeys && k in kwargs ==> f[k] == kwargs[k]
    ensures "io_type" in f <==> "io_type" in kwargs && kwargs["io_type"].JStr?
    ensures "io_type" in f ==> f["io_type"] == kwargs["io_type"]
    ensures forall k :: k in f ==> k in {"name", "plugin_type", "obj", "io_type"} || k in CopiedKeys
  {
    var keys := RecordKeys(kwargs);
    var f := map k | k in keys :: if k == "plugin_type" then JStr(inferPluginType(constructorType)) else kwargs[k];
    assert f.Keys == keys;
    assert "io_type" !in CopiedKeys;
    f
  }

  /**
   * The record `parse_plugin_constructor` builds from the cleaned keywords:
   * a string `name` and an `obj` are required.
   */
  function PluginRecord(constructorType: string, kwargs: map<string, Json>, inferPluginType: string -> string): (r: Result<Json, BridgeError>)
    ensures !HasName(kwargs) ==> r == Err(PluginNotFound("Plugin missing 'name' field"))
    ensures HasName(kwargs) && "obj" !in kwargs ==>
      r == Err(PluginNotFound("Plugin '" + kwargs["name"].s + "' missing 'obj' field"))
    ensures r.Ok? <==> HasName(kwargs) && "obj" in kwargs
    ensures r.Ok? ==> r.value.JObj?
  {
    if !HasName(kwargs) then Err(PluginNotFound("Plugin missing 'name' field"))
    else if "obj" !in kwargs then Err(PluginNotFound("Plugin '" + kwargs["name"].s + "' missing 'obj' field"))
    else Ok(JObj(RecordFields(constructorType, kwargs, inferPluginType)))
  }

  /**
   * `parse_plugin_constructor`: the class name before the first `(` gives
   * the plugin type, and the keywords give the record. The cleaned keywords
   * are any re-keying of the raw ones the hash map's order allows.
   */
  method ParsePluginConstructor(pluginDef: string, imports: ImportMap, inferPluginType: string -> string)
    returns (r: Result<Json, BridgeError>)
    ensures FindChar(pluginDef, '(').None? ==> r == Err(PluginNotFound("Invalid plugin constructor format"))
    ensures FindChar(pluginDef, '(').Some? && RawKwargs(pluginDef, imports).Err? ==> r == Err(RawKwargs(pluginDef, imports).error)
    ensures FindChar(pluginDef, '(').Some? && RawKwargs(pluginDef, imports).Ok? ==>
      exists kwargs :: CleanedFrom(RawKwargs(pluginDef, imports).value, kwargs)
        && r == PluginRecord(Trim(pluginDef[..FindChar(pluginDef, '(').value]), kwargs, inferPluginType)
  {
    var typeEnd := FindChar(pluginDef, '(');
    if typeEnd.None? {
      return Err(PluginNotFound("Invalid plugin constructor format"));
    }
    var constructorType := Trim(pluginDef[..typeEnd.value]);
    var kwargs := ExtractKwargs(pluginDef, imports);
    if kwargs.Err? {
      return Err(kwargs.error);
    }
    r := PluginRecord(constructorType, kwargs.value, inferPluginType);
  }
}
