/**
 * What the keyword scanner and the classifier promise together: keyword
 * lists written in the ordinary way come back pair for pair, a quoted
 * value keeps its commas, the first `)` at depth zero ends the scan, a
 * repeated keyword keeps its last value, and the first value that cannot
 * be classified is the error of the whole call.
 */
module ConstructorParserFacts {
  import opened Wrappers
  import opened Strings
  import opened Assoc
  import opened Errors
  import opened Json
  import opened ImportResolver
  import opened ConstructorParser

  /** A character with no meaning to the scanner. */
  predicate Plain(c: char)
  {
    !IsWhitespace(c) && !IsQuote(c)
    && c != '=' && c != ',' && c != '(' && c != ')' && c != '[' && c != ']' && c != '{' && c != '}'
  }

  predicate PlainWord(w: string)
  {
    w != [] && forall i :: 0 <= i < |w| ==> Plain(w[i])
  }

  predicate PlainPairs(pairs: seq<(string, string)>)
  {
    forall k :: 0 <= k < |pairs| ==> PlainWord(pairs[k].0) && PlainWord(pairs[k].1)
  }

  /** `k1=v1, k2=v2, …)`: the keyword list as it is usually written, closed by `)`. */
  function KwargsText(pairs: seq<(string, string)>): string
  {
    if pairs == [] then ")"
    else
      pairs[0].0 + "=" + pairs[0].1 + (if |pairs| == 1 then ")" else ", " + KwargsText(pairs[1..]))
  }

  // ---------------------------------------------------------------------------
  // Single steps
  // ---------------------------------------------------------------------------

  lemma KeyCharStep(st: Scanner, c: char)
    requires st.inKey && !st.inString && Plain(c)
    ensures Step(st, c) == Next(st.(key := st.key + [c]), None)
  {
  }

  lemma ValueCharStep(st: Scanner, c: char)
    requires !st.inKey && !st.inString && Plain(c)
    ensures Step(st, c) == Next(st.(value := st.value + [c]), None)
  {
  }

  lemma InStringCharStep(st: Scanner, c: char)
    requires !st.inKey && st.inString && c != st.quote
    ensures Step(st, c) == Next(st.(value := st.value + [c]), None)
  {
  }

  /** A step that goes on without completing a pair leaves the rest of the scan to the next state. */
  lemma ScanQuietStep(st: Scanner, st': Scanner, s: string)
    requires Inv(st) && s != [] && Step(st, s[0]) == Next(st', None)
    ensures Inv(st') && Scan(st, s) == Scan(st', s[1..])
  {
    ScanCons(st, s);
  }

  // ---------------------------------------------------------------------------
  // Runs of characters
  // ---------------------------------------------------------------------------

  /** Plain characters while reading a key are appended to it. */
  lemma {:induction false} ScanKeyWord(st: Scanner, w: string, s: string)
    requires Inv(st) && st.inKey && !st.inString
    requires forall i :: 0 <= i < |w| ==> Plain(w[i])
    ensures Inv(st.(key := st.key + w))
    ensures Scan(st, w + s) == Scan(st.(key := st.key + w), s)
    decreases |w|
  {
    if w == [] {
      assert w + s == s;
      assert st.(key := st.key + w) == st;
    } else {
      var st' := st.(key := st.key + [w[0]]);
      KeyCharStep(st, w[0]);
      assert (w + s)[0] == w[0] && (w + s)[1..] == w[1..] + s;
      ScanQuietStep(st, st', w + s);
      ScanKeyWord(st', w[1..], s);
      AppendAssoc(st.key, [w[0]], w[1..]);
      assert [w[0]] + w[1..] == w;
    }
  }

  /** Plain characters while reading a value are appended to it. */
  lemma {:induction false} ScanValueWord(st: Scanner, w: string, s: string)
    requires Inv(st) && !st.inKey && !st.inString
    requires forall i :: 0 <= i < |w| ==> Plain(w[i])
    ensures Inv(st.(value := st.value + w))
    ensures Scan(st, w + s) == Scan(st.(value := st.value + w), s)
    decreases |w|
  {
    if w == [] {
      assert w + s == s;
      assert st.(value := st.value + w) == st;
    } else {
      var st' := st.(value := st.value + [w[0]]);
      ValueCharStep(st, w[0]);
      assert (w + s)[0] == w[0] && (w + s)[1..] == w[1..] + s;
      ScanQuietStep(st, st', w + s);
      ScanValueWord(st', w[1..], s);
      AppendAssoc(st.value, [w[0]], w[1..]);
      assert [w[0]] + w[1..] == w;
    }
  }

  /** Inside a double-quoted string, characters other than `"` are appended and the string stays open. */
  lemma {:induction false} ScanInString(st: Scanner, q: string, s: string)
    requires Inv(st) && !st.inKey && st.inString && st.quote == '"'
    requires '"' !in q
    ensures Inv(st.(value := st.value + q))
    ensures Scan(st, q + s) == Scan(st.(value := st.value + q), s)
    decreases |q|
  {
    if q == [] {
      assert q + s == s;
      assert st.(value := st.value + q) == st;
    } else {
      var st' := st.(value := st.value + [q[0]]);
      assert q[0] != '"';
      InStringCharStep(st, q[0]);
      assert (q + s)[0] == q[0] && (q + s)[1..] == q[1..] + s;
      ScanQuietStep(st, st', q + s);
      assert '"' !in q[1..];
      ScanInString(st', q[1..], s);
      AppendAssoc(st.value, [q[0]], q[1..]);
      assert [q[0]] + q[1..] == q;
    }
  }

  /** The opening `"` of a value starts a string. */
  lemma OpenQuote(st: Scanner, s: string)
    requires Inv(st) && !st.inKey && !st.inString
    ensures var st' := st.(inString := true, quote := '"', value := st.value + "\"");
      Inv(st') && Scan(st, "\"" + s) == Scan(st', s)
  {
    var st' := st.(inString := true, quote := '"', value := st.value + "\"");
    AppendChar(st.value, '"');
    assert Step(st, '"') == Next(st', None);
    assert ("\"" + s)[0] == '"' && ("\"" + s)[1..] == s;
    ScanQuietStep(st, st', "\"" + s);
  }

  /** A closing `"` not preceded by a backslash ends the string. */
  lemma CloseQuote(st: Scanner, s: string)
    requires Inv(st) && !st.inKey && st.inString && st.quote == '"'
    requires st.value != [] && st.value[|st.value| - 1] != '\\'
    ensures var st' := st.(inString := false, value := st.value + "\"");
      Inv(st') && Scan(st, "\"" + s) == Scan(st', s)
  {
    var v := st.value + "\"";
    var st' := st.(inString := false, value := v);
    assert !EndsWith(v, "\\\"") by {
      assert v[|v| - 2] == st.value[|st.value| - 1];
    }
    assert Step(st, '"') == Next(st', None);
    AppendChar(st.value, '"');
    assert ("\"" + s)[0] == '"' && ("\"" + s)[1..] == s;
    ScanQuietStep(st, st', "\"" + s);
  }

  /**
   * A double-quoted run in a value is copied whole, commas, brackets and
   * parentheses included, as long as it holds no `"` and does not end in a
   * backslash.
   */
  lemma QuotedRun(st: Scanner, q: string, s: string)
    requires Inv(st) && !st.inKey && !st.inString
    requires '"' !in q && (q == [] || q[|q| - 1] != '\\')
    ensures Inv(st.(value := st.value + ("\"" + q + "\""), quote := '"'))
    ensures Scan(st, "\"" + q + "\"" + s) == Scan(st.(value := st.value + ("\"" + q + "\""), quote := '"'), s)
  {
    var inside := st.(inString := true, quote := '"', value := st.value + "\"" + q);
    OpenString(st, q, s);
    assert inside.value[|inside.value| - 1] != '\\' by {
      assert inside.value[|inside.value| - 1] == if q == [] then '"' else q[|q| - 1];
    }
    CloseQuote(inside, s);
    var a, o := st.value, "\"";
    AppendAssoc(a + o, q, o);
    AppendAssoc(a, o, q + o);
    AppendAssoc(o, q, o);
  }

  /**
   * A `,` inside an open `(`, `[` or `{` (outside a string) does not end the
   * pair: it goes into the key or the value being read, and the scan goes on
   * from there with nothing emitted.
   */
  lemma NestedCommaKept(st: Scanner, s: string)
    requires Inv(st) && !st.inString && !(st.paren == 0 && st.bracket == 0 && st.brace == 0)
    ensures var kept := if st.inKey then st.(key := st.key + [',']) else st.(value := st.value + [',']);
      && Step(st, ',') == Next(kept, None)
      && Inv(kept)
      && Scan(st, [','] + s) == Scan(kept, s)
  {
    var kept := if st.inKey then st.(key := st.key + [',']) else st.(value := st.value + [',']);
    assert !KeySpace(',') && !IsQuote(',');
    assert Step(st, ',') == Next(kept, None);
    StepKeepsInv(st, ',');
    var t := [','] + s;
    assert t[0] == ',' && t[1..] == s;
  }

  /** The opening quote and the text inside the string. */
  lemma OpenString(st: Scanner, q: string, s: string)
    requires Inv(st) && !st.inKey && !st.inString && '"' !in q
    ensures var inside := st.(inString := true, quote := '"', value := st.value + "\"" + q);
      Inv(inside) && Scan(st, "\"" + q + "\"" + s) == Scan(inside, "\"" + s)
  {
    var open := st.(inString := true, quote := '"', value := st.value + "\"");
    assert "\"" + q + "\"" + s == "\"" + (q + ("\"" + s));
    OpenQuote(st, q + ("\"" + s));
    ScanInString(open, q, "\"" + s);
    assert open.value + q == st.value + "\"" + q;
  }

  // ---------------------------------------------------------------------------
  // Whole keyword lists
  // ---------------------------------------------------------------------------

  /** The first `)` outside every bracket ends the scan; what follows it is never read. */
  lemma CloseEndsScan(st: Scanner, s: string)
    requires Inv(st) && !st.inString && st.paren == 0
    ensures Scan(st, ")" + s) == OptionSeq(Pending(st))
  {
    assert (")" + s)[0] == ')';
    ScanCons(st, ")" + s);
  }

  /** `key=` from the start state leaves the scanner reading the value of `key`. */
  lemma ScanKeyEquals(k: string, s: string)
    requires PlainWord(k)
    ensures var st := Start.(key := k, inKey := false);
      Inv(st) && Scan(Start, k + "=" + s) == Scan(st, s)
  {
    assert k + "=" + s == k + ("=" + s);
    ScanKeyWord(Start, k, "=" + s);
    var st1 := Start.(key := k);
    TrimNoop(k);
    var st2 := Start.(key := k, inKey := false);
    assert Step(st1, '=') == Next(st2, None);
    assert ("=" + s)[0] == '=' && ("=" + s)[1..] == s;
    ScanQuietStep(st1, st2, "=" + s);
  }

  /** One `key=value` from the start state, up to the separator. */
  lemma ScanOnePair(k: string, v: string, s: string)
    requires PlainWord(k) && PlainWord(v)
    ensures var st := Start.(key := k, inKey := false, value := v);
      Inv(st) && Scan(Start, k + "=" + v + s) == Scan(st, s)
  {
    assert k + "=" + v + s == k + "=" + (v + s);
    ScanKeyEquals(k, v + s);
    var st2 := Start.(key := k, inKey := false);
    ScanValueWord(st2, v, s);
    assert st2.(value := st2.value + v) == Start.(key := k, inKey := false, value := v);
  }

  /** After a pair, `, ` hands it over and returns the scanner to its start state. */
  lemma ScanSeparator(k: string, v: string, s: string)
    requires PlainWord(k) && PlainWord(v)
    ensures var st := Start.(key := k, inKey := false, value := v);
      Inv(st) && Scan(st, ", " + s) == [(k, v)] + Scan(Start, s)
  {
    var st := Start.(key := k, inKey := false, value := v);
    assert !HasQuote(v);
    TrimNoop(v);
    assert Pending(st) == Some((k, v));
    assert Step(st, ',') == Next(Start, Some((k, v)));
    assert (", " + s)[0] == ',' && (", " + s)[1..] == " " + s;
    ScanCons(st, ", " + s);
    assert Step(Start, ' ') == Next(Start, None);
    assert (" " + s)[0] == ' ' && (" " + s)[1..] == s;
    ScanQuietStep(Start, Start, " " + s);
  }

  /** After the last pair, `)` hands it over and ends the scan. */
  lemma ScanLastPair(k: string, v: string, s: string)
    requires PlainWord(k) && PlainWord(v)
    ensures var st := Start.(key := k, inKey := false, value := v);
      Inv(st) && Scan(st, ")" + s) == [(k, v)]
  {
    var st := Start.(key := k, inKey := false, value := v);
    assert !HasQuote(v);
    TrimNoop(v);
    assert Pending(st) == Some((k, v));
    CloseEndsScan(st, s);
  }

  /** The pairs after the first are plain too. */
  lemma PlainPairsTail(pairs: seq<(string, string)>)
    requires PlainPairs(pairs) && pairs != []
    ensures PlainPairs(pairs[1..])
  {
    forall j | 0 <= j < |pairs[1..]|
      ensures PlainWord(pairs[1..][j].0) && PlainWord(pairs[1..][j].1)
    {
      assert pairs[1..][j] == pairs[j + 1];
    }
  }

  /** The text of a single pair: `k=v)`. */
  lemma ScanSingleText(k: string, v: string, tail: string)
    requires PlainWord(k) && PlainWord(v)
    ensures Scan(Start, KwargsText([(k, v)]) + tail) == [(k, v)]
  {
    assert KwargsText([(k, v)]) + tail == k + "=" + v + (")" + tail);
    ScanOnePair(k, v, ")" + tail);
    ScanLastPair(k, v, tail);
  }

  /** The text of a longer list: `k=v, ` and then the text of the rest. */
  lemma ScanConsText(pairs: seq<(string, string)>, tail: string)
    requires PlainPairs(pairs) && |pairs| >= 2
    ensures Scan(Start, KwargsText(pairs) + tail) == [pairs[0]] + Scan(Start, KwargsText(pairs[1..]) + tail)
  {
    var k, v := pairs[0].0, pairs[0].1;
    var rest := KwargsText(pairs[1..]) + tail;
    assert KwargsText(pairs) + tail == k + "=" + v + (", " + rest);
    ScanOnePair(k, v, ", " + rest);
    ScanSeparator(k, v, rest);
  }

  /**
   * A keyword list written `k1=v1, k2=v2, …)` scans back to its pairs, in
   * order, whatever text follows the closing `)`.
   */
  lemma {:induction false} ScanKwargsText(pairs: seq<(string, string)>, tail: string)
    requires PlainPairs(pairs)
    ensures Scan(Start, KwargsText(pairs) + tail) == pairs
    decreases |pairs|
  {
    if pairs == [] {
      CloseEndsScan(Start, tail);
    } else if |pairs| == 1 {
      ScanSingleText(pairs[0].0, pairs[0].1, tail);
      assert [(pairs[0].0, pairs[0].1)] == pairs;
    } else {
      ScanConsText(pairs, tail);
      PlainPairsTail(pairs);
      ScanKwargsText(pairs[1..], tail);
      assert [pairs[0]] + pairs[1..] == pairs;
    }
  }

  /** A value of plain characters is one the classifier can take. */
  lemma PlainClassifiable(pairs: seq<(string, string)>)
    requires PlainPairs(pairs)
    ensures AllClassifiable(pairs)
  {
    forall k | 0 <= k < |pairs|
      ensures Classifiable(pairs[k].1)
    {
      var v := pairs[k].1;
      TrimNoop(v);
      assert v[0] != '"' && v[0] != '\'';
    }
  }

  // ---------------------------------------------------------------------------
  // Classification of the pairs
  // ---------------------------------------------------------------------------

  /** When every value classifies, the pairs classify one for one, in order. */
  lemma {:induction false} ParsePairsOk(pairs: seq<(string, string)>, imports: ImportMap)
    requires AllClassifiable(pairs)
    requires forall k :: 0 <= k < |pairs| ==> ParseKwargValue(pairs[k].1, imports).Ok?
    ensures ParsePairs(pairs, imports).Ok?
    ensures |ParsePairs(pairs, imports).value| == |pairs|
    ensures forall k :: 0 <= k < |pairs| ==>
      ParsePairs(pairs, imports).value[k] == (pairs[k].0, ParseKwargValue(pairs[k].1, imports).value)
    decreases |pairs|
  {
    if pairs != [] {
      var n := |pairs| - 1;
      var front, p := pairs[..n], pairs[n];
      TakeSnoc(pairs, n);
      assert pairs[..n + 1] == pairs;
      AllClassifiableAppend(front, [p]);
      assert forall k :: 0 <= k < n ==> front[k] == pairs[k];
      ParsePairsOk(front, imports);
      ParsePairsSnoc(front, p, imports);
      var parsed := ParsePairs(front, imports).value + [(p.0, ParseKwargValue(p.1, imports).value)];
      assert ParsePairs(pairs, imports) == Ok(parsed);
    }
  }

  /** The pairs before the first failing one classify. */
  lemma PrefixOk(pairs: seq<(string, string)>, i: nat, imports: ImportMap)
    requires AllClassifiable(pairs) && i <= |pairs|
    requires forall j :: 0 <= j < i ==> ParseKwargValue(pairs[j].1, imports).Ok?
    ensures AllClassifiable(pairs[..i])
    ensures ParsePairs(pairs[..i], imports).Ok?
  {
    SplitAt(pairs, i);
    AllClassifiableAppend(pairs[..i], pairs[i..]);
    ParsePairsOk(pairs[..i], imports);
  }

  /** The pairs up to and including the first that fails give that failure. */
  lemma FailingPrefix(pairs: seq<(string, string)>, i: nat, imports: ImportMap)
    requires AllClassifiable(pairs) && i < |pairs|
    requires forall j :: 0 <= j < i ==> ParseKwargValue(pairs[j].1, imports).Ok?
    requires ParseKwargValue(pairs[i].1, imports).Err?
    ensures AllClassifiable(pairs[..i + 1])
    ensures ParsePairs(pairs[..i + 1], imports) == Err(ParseKwargValue(pairs[i].1, imports).error)
  {
    PrefixOk(pairs, i, imports);
    TakeSnoc(pairs, i);
    ParsePairsSnoc(pairs[..i], pairs[i], imports);
  }

  /** The first value that fails to classify is the error of the whole list. */
  lemma FirstErrorWins(pairs: seq<(string, string)>, i: nat, imports: ImportMap)
    requires AllClassifiable(pairs) && i < |pairs|
    requires forall j :: 0 <= j < i ==> ParseKwargValue(pairs[j].1, imports).Ok?
    requires ParseKwargValue(pairs[i].1, imports).Err?
    ensures ParsePairs(pairs, imports) == Err(ParseKwargValue(pairs[i].1, imports).error)
  {
    FailingPrefix(pairs, i, imports);
    SplitAt(pairs, i + 1);
    ParsePairsErrPrefix(pairs[..i + 1], pairs[i + 1..], imports);
  }

  /** `Cls(` followed by `text`: the scan starts right after the `(`. */
  lemma OpenParen(cls: string, text: string)
    requires '(' !in cls
    ensures FindChar(cls + "(" + text, '(') == Some(|cls|)
    ensures (cls + "(" + text)[|cls| + 1..] == text
  {
    var def := cls + "(" + text;
    assert def[|cls|] == '(';
    assert forall j :: 0 <= j < |cls| ==> def[j] == cls[j];
  }

  /**
   * End to end: the keywords of `Cls(k1=v1, k2=v2, …)` followed by any
   * text are the pairs classified and inserted in order, or the first
   * classification error.
   */
  lemma RawKwargsOfText(cls: string, pairs: seq<(string, string)>, tail: string, imports: ImportMap)
    requires '(' !in cls && PlainPairs(pairs)
    ensures AllClassifiable(pairs)
    ensures RawKwargs(cls + "(" + KwargsText(pairs) + tail, imports)
      == match ParsePairs(pairs, imports)
         case Err(e) => Err(e)
         case Ok(parsed) => Ok(ToMap(parsed))
  {
    PlainClassifiable(pairs);
    assert cls + "(" + KwargsText(pairs) + tail == cls + "(" + (KwargsText(pairs) + tail);
    OpenParen(cls, KwargsText(pairs) + tail);
    ScanKwargsText(pairs, tail);
  }

  /** The last pair with a key decides that key's entry in the map of the parsed pairs. */
  lemma ParsedLastWins(pairs: seq<(string, string)>, i: nat, imports: ImportMap)
    requires i < |pairs|
    requires forall j :: i < j < |pairs| ==> pairs[j].0 != pairs[i].0
    requires AllClassifiable(pairs)
    requires forall k :: 0 <= k < |pairs| ==> ParseKwargValue(pairs[k].1, imports).Ok?
    ensures ParsePairs(pairs, imports).Ok?
    ensures pairs[i].0 in ToMap(ParsePairs(pairs, imports).value)
    ensures ToMap(ParsePairs(pairs, imports).value)[pairs[i].0] == ParseKwargValue(pairs[i].1, imports).value
  {
    ParsePairsOk(pairs, imports);
    var parsed := ParsePairs(pairs, imports).value;
    assert parsed[i] == (pairs[i].0, ParseKwargValue(pairs[i].1, imports).value);
    assert forall j :: i < j < |parsed| ==> parsed[j].0 == pairs[j].0;
    LastInsertWins(parsed, i);
  }

  /**
   * A keyword given more than once keeps its last value: when every value
   * classifies, the value of the last pair with a key is the one the map
   * holds for that key.
   */
  lemma LaterKeyWins(cls: string, pairs: seq<(string, string)>, i: nat, imports: ImportMap)
    requires '(' !in cls && PlainPairs(pairs) && i < |pairs|
    requires forall j :: i < j < |pairs| ==> pairs[j].0 != pairs[i].0
    requires AllClassifiable(pairs)
    requires forall k :: 0 <= k < |pairs| ==> ParseKwargValue(pairs[k].1, imports).Ok?
    ensures RawKwargs(cls + "(" + KwargsText(pairs), imports).Ok?
    ensures pairs[i].0 in RawKwargs(cls + "(" + KwargsText(pairs), imports).value
    ensures RawKwargs(cls + "(" + KwargsText(pairs), imports).value[pairs[i].0]
      == ParseKwargValue(pairs[i].1, imports).value
  {
    var text := cls + "(" + KwargsText(pairs);
    RawKwargsOfText(cls, pairs, [], imports);
    assert text + [] == text;
    ParsedLastWins(pairs, i, imports);
  }

  /** `key="…"` followed by `)`: the quoted run, commas and all, is the value. */
  lemma ScanQuotedPair(k: string, q: string)
    requires PlainWord(k) && '"' !in q && (q == [] || q[|q| - 1] != '\\')
    ensures Scan(Start, k + "=" + ("\"" + q + "\"") + ")") == [(k, "\"" + q + "\"")]
  {
    var quoted := "\"" + q + "\"";
    var st3 := Start.(key := k, inKey := false, value := quoted, quote := '"');
    ScanKeyQuoted(k, q);
    PendingQuoted(k, q);
    assert ")" + [] == ")";
    CloseEndsScan(st3, []);
  }

  /** `key="…"` leaves the scanner holding the quoted value, outside the string. */
  lemma ScanKeyQuoted(k: string, q: string)
    requires PlainWord(k) && '"' !in q && (q == [] || q[|q| - 1] != '\\')
    ensures var st3 := Start.(key := k, inKey := false, value := "\"" + q + "\"", quote := '"');
      Inv(st3) && Scan(Start, k + "=" + ("\"" + q + "\"") + ")") == Scan(st3, ")")
  {
    var quoted := "\"" + q + "\"";
    AppendAssoc(k + "=", quoted, ")");
    ScanKeyEquals(k, quoted + ")");
    var st2 := Start.(key := k, inKey := false);
    QuotedRun(st2, q, ")");
    assert st2.value + quoted == quoted;
  }

  /** The quoted value is the pending value as it stands. */
  lemma PendingQuoted(k: string, q: string)
    requires PlainWord(k)
    ensures var quoted := "\"" + q + "\"";
      Pending(Start.(key := k, inKey := false, value := quoted, quote := '"')) == Some((k, quoted))
  {
    var quoted := "\"" + q + "\"";
    assert quoted[0] == '"' && quoted[|quoted| - 1] == '"';
    TrimNoop(quoted);
  }

  /** A double-quoted value is classified as the text between its quotes. */
  lemma QuotedValueIsString(q: string, imports: ImportMap)
    ensures Classifiable("\"" + q + "\"")
    ensures ParseKwargValue("\"" + q + "\"", imports) == Ok(JStr(q))
  {
    var quoted := "\"" + q + "\"";
    assert |quoted| == |q| + 2 && quoted[0] == '"' && quoted[|quoted| - 1] == '"';
    assert quoted[1..|quoted| - 1] == q;
    QuotedText(quoted, imports);
  }

  /** Text that starts and ends with `"` classifies as what lies between. */
  lemma QuotedText(t: string, imports: ImportMap)
    requires |t| >= 2 && t[0] == '"' && t[|t| - 1] == '"'
    ensures Classifiable(t)
    ensures ParseKwargValue(t, imports) == Ok(JStr(t[1..|t| - 1]))
  {
    TrimNoop(t);
    assert Quoted(t) by {
      assert t[..1] == "\"" && t[|t| - 1..] == "\"";
    }
    ClassifyQuoted(t, imports);
  }

  lemma ClassifyQuoted(t: string, imports: ImportMap)
    requires |t| >= 2 && Quoted(t)
    ensures !LoneQuote(t) && Classify(t, imports) == Ok(JStr(t[1..|t| - 1]))
  {
  }
}
