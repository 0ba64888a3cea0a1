/**
 * The slice of Rust's `str` API the extractor is written in: `find`, `rfind`,
 * `starts_with`, `ends_with`, `contains`, `trim`, `split`, `lines`, `replace`,
 * `to_uppercase` and `parse::<i64>`. Text is a sequence of characters; the
 * model treats every character as one byte (ASCII), which is where the Rust
 * code's byte offsets and character indices agree.
 */
module Strings {
  import opened Wrappers

  /** Rust's `char::is_whitespace`, restricted to ASCII. */
  predicate IsWhitespace(c: char)
  {
    c == ' ' || '\t' <= c <= '\r'
  }

  predicate StartsWith(s: string, p: string)
  {
    |p| <= |s| && s[..|p|] == p
  }

  predicate EndsWith(s: string, p: string)
  {
    |p| <= |s| && s[|s| - |p|..] == p
  }

  /** Text starts with its left part. */
  lemma StartsWithConcat(a: string, b: string)
    ensures StartsWith(a + b, a)
  {
    assert (a + b)[..|a|] == a;
  }

  /** A suffix of the right part is a suffix of the whole. */
  lemma EndsWithConcat(a: string, b: string, c: string)
    requires EndsWith(b, c)
    ensures EndsWith(a + b, c)
  {
    assert (a + b)[|a + b| - |c|..] == b[|b| - |c|..];
  }

  /** A suffix of a suffix is a suffix. */
  lemma EndsWithTransitive(a: string, b: string, c: string)
    requires EndsWith(a, b) && EndsWith(b, c)
    ensures EndsWith(a, c)
  {
    assert a[|a| - |c|..] == b[|b| - |c|..];
  }

  /** `p` occurs in `s` at index `i`. */
  predicate OccursAt(s: string, p: string, i: int)
  {
    0 <= i && i + |p| <= |s| && s[i..i + |p|] == p
  }

  /** `s[i..].find(p)`, as an index into `s`. */
  function FindFrom(s: string, p: string, i: nat): (r: Option<nat>)
    requires i <= |s|
    ensures r.Some? ==> i <= r.value && OccursAt(s, p, r.value)
    ensures r.Some? ==> forall j :: i <= j < r.value ==> !OccursAt(s, p, j)
    ensures r.None? ==> forall j :: i <= j ==> !OccursAt(s, p, j)
    decreases |s| - i
  {
    if i + |p| > |s| then None
    else if s[i..i + |p|] == p then Some(i)
    else FindFrom(s, p, i + 1)
  }

  /** `s.find(p)`: the first index at which `p` occurs. */
  function Find(s: string, p: string): (r: Option<nat>)
    ensures r.Some? ==> OccursAt(s, p, r.value) && forall j :: 0 <= j < r.value ==> !OccursAt(s, p, j)
    ensures r.None? ==> forall j :: !OccursAt(s, p, j)
  {
    FindFrom(s, p, 0)
  }

  /** `s.contains(p)` */
  predicate Contains(s: string, p: string)
  {
    Find(s, p).Some?
  }

  lemma ContainsAt(s: string, p: string, i: int)
    requires OccursAt(s, p, i)
    ensures Contains(s, p)
  {
  }

  /** The first occurrence is the one Find returns. */
  lemma FindIs(s: string, p: string, k: nat)
    requires OccursAt(s, p, k) && forall j :: 0 <= j < k ==> !OccursAt(s, p, j)
    ensures Find(s, p) == Some(k)
  {
  }

  /** `s[i..].find(c)` for a single character, as an index into `s`. */
  function FindCharFrom(s: string, c: char, i: nat): (r: Option<nat>)
    requires i <= |s|
    ensures r.Some? ==> i <= r.value < |s| && s[r.value] == c
    ensures r.Some? ==> forall j :: i <= j < r.value ==> s[j] != c
    ensures r.None? ==> forall j :: i <= j < |s| ==> s[j] != c
    decreases |s| - i
  {
    if i == |s| then None
    else if s[i] == c then Some(i)
    else FindCharFrom(s, c, i + 1)
  }

  /** `s.find(c)` */
  function FindChar(s: string, c: char): (r: Option<nat>)
    ensures r.Some? ==> r.value < |s| && s[r.value] == c && forall j :: 0 <= j < r.value ==> s[j] != c
    ensures r.None? ==> forall j :: 0 <= j < |s| ==> s[j] != c
  {
    FindCharFrom(s, c, 0)
  }

  /** `s.rfind(c)`: the last index holding `c`. */
  function RFindChar(s: string, c: char): (r: Option<nat>)
    ensures r.Some? ==> r.value < |s| && s[r.value] == c && forall j :: r.value < j < |s| ==> s[j] != c
    ensures r.None? ==> forall j :: 0 <= j < |s| ==> s[j] != c
  {
    if s == [] then None
    else if s[|s| - 1] == c then Some(|s| - 1)
    else RFindChar(s[..|s| - 1], c)
  }

  /** The last index holding `c` is the one RFindChar returns. */
  lemma {:induction false} RFindCharIs(s: string, c: char, k: nat)
    requires k < |s| && s[k] == c && forall j :: k < j < |s| ==> s[j] != c
    ensures RFindChar(s, c) == Some(k)
    decreases |s|
  {
    if k < |s| - 1 {
      RFindCharIs(s[..|s| - 1], c, k);
    }
  }

  /** The last `c` of a suffix starting at `d`, shifted by `d`, is the last `c` of the text. */
  lemma RFindCharSuffix(s: string, d: nat, c: char)
    requires d <= |s| && RFindChar(s[d..], c).Some?
    ensures RFindChar(s, c) == Some(d + RFindChar(s[d..], c).value)
  {
    var j := RFindChar(s[d..], c).value;
    forall m | d + j < m < |s|
      ensures s[m] != c
    {
      assert s[m] == s[d..][m - d];
    }
    RFindCharIs(s, c, d + j);
  }

  /** `s.trim_start()` */
  function TrimStart(s: string): (r: string)
    ensures |r| <= |s| && r == s[|s| - |r|..]
    ensures forall i :: 0 <= i < |s| - |r| ==> IsWhitespace(s[i])
    ensures r != [] ==> !IsWhitespace(r[0])
  {
    if s != [] && IsWhitespace(s[0]) then
      var r := TrimStart(s[1..]);
      assert forall i :: 1 <= i < |s| ==> s[i] == s[1..][i - 1];
      assert r == s[|s| - |r|..];
      r
    else s
  }

  /** `s.trim_end()` */
  function TrimEnd(s: string): (r: string)
    ensures |r| <= |s| && r == s[..|r|]
    ensures forall i :: |r| <= i < |s| ==> IsWhitespace(s[i])
    ensures r != [] ==> !IsWhitespace(r[|r| - 1])
  {
    if s != [] && IsWhitespace(s[|s| - 1]) then TrimEnd(s[..|s| - 1]) else s
  }

  /** `s.trim()`: `s` is whitespace, then the result, then whitespace. */
  function Trim(s: string): (r: string)
    ensures r != [] ==> !IsWhitespace(r[0]) && !IsWhitespace(r[|r| - 1])
    ensures var a := |s| - |TrimStart(s)|;
              a + |r| <= |s| && r == s[a..a + |r|]
              && (forall i :: 0 <= i < a ==> IsWhitespace(s[i]))
              && (forall i :: a + |r| <= i < |s| ==> IsWhitespace(s[i]))
  {
    var t := TrimStart(s);
    var r := TrimEnd(t);
    PrefixOfSuffix(s, |s| - |t|, t, r);
    r
  }

  /**
   * `s` is whitespace up to `a`, the suffix `t` from there, and `r` the
   * prefix of `t` before its trailing whitespace: `r` sits between
   * whitespace in `s`.
   */
  lemma PrefixOfSuffix(s: string, a: nat, t: string, r: string)
    requires a <= |s| && t == s[a..] && (forall i :: 0 <= i < a ==> IsWhitespace(s[i]))
    requires t != [] ==> !IsWhitespace(t[0])
    requires |r| <= |t| && r == t[..|r|] && (forall i :: |r| <= i < |t| ==> IsWhitespace(t[i]))
    requires r != [] ==> !IsWhitespace(r[|r| - 1])
    ensures r != [] ==> !IsWhitespace(r[0]) && !IsWhitespace(r[|r| - 1])
    ensures a + |r| <= |s| && r == s[a..a + |r|]
      && (forall i :: 0 <= i < a ==> IsWhitespace(s[i]))
      && (forall i :: a + |r| <= i < |s| ==> IsWhitespace(s[i]))
  {
    assert forall i :: a + |r| <= i < |s| ==> s[i] == t[i - a];
  }

  /** Text with no whitespace at either end is its own trim. */
  lemma TrimNoop(s: string)
    requires s == [] || (!IsWhitespace(s[0]) && !IsWhitespace(s[|s| - 1]))
    ensures Trim(s) == s
  {
  }

  /** Trimming never changes text that is already trimmed. */
  lemma TrimIdempotent(s: string)
    ensures Trim(Trim(s)) == Trim(s)
  {
    TrimNoop(Trim(s));
  }

  /** Text made of whitespace only trims to nothing. */
  lemma TrimAllWhitespace(s: string)
    requires forall i :: 0 <= i < |s| ==> IsWhitespace(s[i])
    ensures Trim(s) == []
  {
  }

  /** Trimming keeps every character that is not whitespace. */
  lemma TrimKeeps(s: string, c: char)
    requires !IsWhitespace(c)
    ensures c in Trim(s) <==> c in s
  {
    var r := Trim(s);
    var a := |s| - |TrimStart(s)|;
    assert a + |r| <= |s| && forall j :: 0 <= j < |r| ==> r[j] == s[a + j];
    if c in s {
      var i :| 0 <= i < |s| && s[i] == c;
      assert a <= i < a + |r|;
      assert r[i - a] == c;
    }
    if c in r {
      var i :| 0 <= i < |r| && r[i] == c;
      assert s[a + i] == c;
    }
  }

  /** Parts joined with `sep` between them. */
  function Join(parts: seq<string>, sep: string): string
  {
    if |parts| == 0 then []
    else if |parts| == 1 then parts[0]
    else parts[0] + sep + Join(parts[1..], sep)
  }

  /** `s.split(c)`: never empty, and no part holds `c`. */
  function Split(s: string, c: char): (r: seq<string>)
    ensures |r| >= 1
    ensures forall k :: 0 <= k < |r| ==> c !in r[k]
    decreases |s|
  {
    match FindChar(s, c)
    case None => [s]
    case Some(i) => [s[..i]] + Split(s[i + 1..], c)
  }

  /** Joining the parts of a split with the separator gives the text back. */
  lemma {:induction false} JoinSplit(s: string, c: char)
    ensures Join(Split(s, c), [c]) == s
    decreases |s|
  {
    match FindChar(s, c)
    case None =>
    case Some(i) =>
      var rest := s[i + 1..];
      SplitAtFirst(s, c, i);
      JoinSplit(rest, c);
      assert s == s[..i] + [c] + rest;
  }

  /** Text with the separator splits at its first occurrence. */
  lemma SplitAtFirst(s: string, c: char, i: nat)
    requires FindChar(s, c) == Some(i)
    ensures Split(s, c) == [s[..i]] + Split(s[i + 1..], c)
  {
  }

  /** Text without the separator splits into itself alone. */
  lemma SplitWithoutSeparator(s: string, c: char)
    requires c !in s
    ensures Split(s, c) == [s]
  {
  }

  /** Splitting undoes joining when no part holds the separator. */
  lemma {:induction false} SplitJoin(parts: seq<string>, c: char)
    requires |parts| >= 1
    requires forall k :: 0 <= k < |parts| ==> c !in parts[k]
    ensures Split(Join(parts, [c]), c) == parts
    decreases |parts|
  {
    if |parts| == 1 {
      SplitWithoutSeparator(parts[0], c);
    } else {
      var s := Join(parts, [c]);
      var rest := Join(parts[1..], [c]);
      assert s == parts[0] + [c] + rest;
      assert s[|parts[0]|] == c;
      assert forall j :: 0 <= j < |parts[0]| ==> s[j] == parts[0][j] && s[j] != c;
      assert FindChar(s, c) == Some(|parts[0]|);
      assert s[|parts[0]| + 1..] == rest;
      assert s[..|parts[0]|] == parts[0];
      SplitJoin(parts[1..], c);
    }
  }

  /** Drops one carriage return that ended a line. */
  function StripCr(line: string): string
  {
    if line != [] && line[|line| - 1] == '\r' then line[..|line| - 1] else line
  }

  /**
   * `s.lines()`: split at `\n`, a `\r` before the `\n` dropped, and no empty
   * last line when `s` ends with a line break.
   */
  function Lines(s: string): (r: seq<string>)
    ensures s == [] <==> r == []
    decreases |s|
  {
    if s == [] then []
    else
      match FindChar(s, '\n')
      case None => [s]
      case Some(i) => [StripCr(s[..i])] + Lines(s[i + 1..])
  }

  /** No line holds a line break. */
  lemma {:induction false} LinesHaveNoBreak(s: string)
    ensures forall k :: 0 <= k < |Lines(s)| ==> '\n' !in Lines(s)[k]
    decreases |s|
  {
    if s != [] {
      match FindChar(s, '\n')
      case None =>
      case Some(i) =>
        LinesHaveNoBreak(s[i + 1..]);
        FirstLineNoBreak(s, i);
        ConsNoBreak(StripCr(s[..i]), Lines(s[i + 1..]));
    }
  }

  /** The text before the first `\n`, with a `\r` stripped, holds no `\n`. */
  lemma FirstLineNoBreak(s: string, i: nat)
    requires i < |s| && forall j :: 0 <= j < i ==> s[j] != '\n'
    ensures '\n' !in StripCr(s[..i])
  {
    var line := s[..i];
    assert forall j :: 0 <= j < |line| ==> line[j] == s[j];
  }

  /** Putting a break-free line in front of break-free lines keeps them break-free. */
  lemma ConsNoBreak(line: string, rest: seq<string>)
    requires '\n' !in line && forall k :: 0 <= k < |rest| ==> '\n' !in rest[k]
    ensures forall k :: 0 <= k < |[line] + rest| ==> '\n' !in ([line] + rest)[k]
  {
    forall k | 0 <= k < |[line] + rest|
      ensures '\n' !in ([line] + rest)[k]
    {
      if k > 0 {
        assert ([line] + rest)[k] == rest[k - 1];
      }
    }
  }

  /** `s.replace(a, b)` for single characters. */
  function ReplaceChar(s: string, a: char, b: char): (r: string)
    ensures |r| == |s|
    ensures forall i :: 0 <= i < |s| ==> r[i] == if s[i] == a then b else s[i]
  {
    seq(|s|, i requires 0 <= i < |s| => if s[i] == a then b else s[i])
  }

  /** Rust's `char::is_uppercase`, restricted to ASCII. */
  predicate IsUpper(c: char)
  {
    'A' <= c <= 'Z'
  }

  function UpperChar(c: char): char
  {
    if 'a' <= c <= 'z' then (c as int - 'a' as int + 'A' as int) as char else c
  }

  /** `s.to_uppercase()`, restricted to ASCII. */
  function ToUpper(s: string): (r: string)
    ensures |r| == |s|
    ensures forall i :: 0 <= i < |s| ==> r[i] == UpperChar(s[i])
    ensures forall i :: 0 <= i < |s| ==> !('a' <= r[i] <= 'z')
  {
    seq(|s|, i requires 0 <= i < |s| => UpperChar(s[i]))
  }

  // ---------------------------------------------------------------------------
  // `str::parse::<i64>`
  // ---------------------------------------------------------------------------

  const I64Min: int := -0x8000_0000_0000_0000
  const I64Max: int := 0x7FFF_FFFF_FFFF_FFFF

  predicate IsDigit(c: char)
  {
    '0' <= c <= '9'
  }

  predicate AllDigits(s: string)
  {
    forall i :: 0 <= i < |s| ==> IsDigit(s[i])
  }

  /** The value of a string of decimal digits. */
  function DigitsValue(s: string): nat
    requires AllDigits(s)
  {
    if s == [] then 0 else 10 * DigitsValue(s[..|s| - 1]) + (s[|s| - 1] as int - '0' as int)
  }

  /** Accepts an optional `+` or `-` and at least one digit, and fails outside the i64 range. */
  function ParseI64(s: string): (r: Option<int>)
    ensures r.Some? ==> I64Min <= r.value <= I64Max
  {
    var negative := s != [] && s[0] == '-';
    var digits := if s != [] && (s[0] == '+' || s[0] == '-') then s[1..] else s;
    if digits == [] || !AllDigits(digits) then None
    else
      var v: int := if negative then 0 - DigitsValue(digits) else DigitsValue(digits);
      if I64Min <= v <= I64Max then Some(v) else None
  }

  /** The decimal digits of a natural number, without leading zeros. */
  function Digits(n: nat): (r: string)
    ensures r != [] && AllDigits(r)
  {
    if n < 10 then [('0' as int + n) as char]
    else Digits(n / 10) + [('0' as int + n % 10) as char]
  }

  /** How an integer prints in decimal. */
  function DecimalString(n: int): string
  {
    if n < 0 then "-" + Digits(-n) else Digits(n)
  }

  lemma {:induction false} DigitsValueOfDigits(n: nat)
    ensures DigitsValue(Digits(n)) == n
  {
    if n >= 10 {
      DigitsValueOfDigits(n / 10);
      var d := Digits(n / 10) + [('0' as int + n % 10) as char];
      assert d[..|d| - 1] == Digits(n / 10);
    }
  }

  /** Every i64 survives printing and parsing back. */
  lemma ParseI64RoundTrip(n: int)
    requires I64Min <= n <= I64Max
    ensures ParseI64(DecimalString(n)) == Some(n)
  {
    if n < 0 {
      DigitsValueOfDigits(-n);
      ParseNegative(Digits(-n), n);
    } else {
      DigitsValueOfDigits(n);
      ParseUnsigned(Digits(n), n);
    }
  }

  /** Digits without a sign parse to their value when it is an i64. */
  lemma ParseUnsigned(d: string, n: int)
    requires d != [] && AllDigits(d) && DigitsValue(d) == n <= I64Max
    ensures ParseI64(d) == Some(n)
  {
    assert IsDigit(d[0]);
  }

  /** A `-` before digits parses to the negated value when it is an i64. */
  lemma ParseNegative(d: string, n: int)
    requires d != [] && AllDigits(d) && DigitsValue(d) == -n && I64Min <= n
    ensures ParseI64("-" + d) == Some(n)
  {
    assert ("-" + d)[1..] == d;
  }
}
