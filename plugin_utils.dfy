/** Shared helpers of plugin discovery: the plugin-name filter and delimiter matching. */
module PluginUtils {
  import opened Wrappers
  import opened Strings

  /** A dependency is taken for an r2x plugin when it starts with `r2x-`, is `r2x`, or mentions `plugin`. */
  function LooksLikeR2xPlugin(dep: string): (r: bool)
    ensures r <==> StartsWith(dep, "r2x-") || dep == "r2x" || exists i :: OccursAt(dep, "plugin", i)
  {
    if StartsWith(dep, "r2x-") || dep == "r2x" then true
    else
      var found := Contains(dep, "plugin");
      assert found ==> OccursAt(dep, "plugin", Find(dep, "plugin").value);
      found
  }

  /** The change a character makes to the nesting count; an opener wins when `open == close`. */
  function Delta(c: char, open: char, close: char): int
  {
    if c == open then 1 else if c == close then -1 else 0
  }

  /** Openers minus closers in `s`. */
  function Depth(s: string, open: char, close: char): int
  {
    if s == [] then 0 else Depth(s[..|s| - 1], open, close) + Delta(s[|s| - 1], open, close)
  }

  /** The nesting count over `content[start..j]`, both ends included. */
  function DepthThrough(content: string, start: nat, j: nat, open: char, close: char): int
    requires start <= j < |content|
  {
    Depth(content[start..j + 1], open, close)
  }

  /** The nesting count after `content[start..j]`, extended by one character. */
  lemma DepthStep(content: string, start: nat, j: nat, open: char, close: char)
    requires start <= j < |content|
    ensures DepthThrough(content, start, j, open, close) == Depth(content[start..j], open, close) + Delta(content[j], open, close)
  {
    assert content[start..j + 1][..j - start] == content[start..j];
  }

  /**
   * The loop of `find_matching_delimiter` from index `i` with running count
   * `count`: the first index whose character closes the nesting opened at
   * `start`, or None when the count never returns to 0.
   */
  function ScanMatch(content: string, start: nat, open: char, close: char, i: nat, count: int): (r: Option<nat>)
    requires start < |content| && content[start] == open
    requires start <= i <= |content|
    requires count == Depth(content[start..i], open, close)
    requires forall j :: start <= j < i ==> DepthThrough(content, start, j, open, close) > 0
    ensures r.Some? ==> i <= r.value < |content| && content[r.value] == close
    ensures r.Some? ==> DepthThrough(content, start, r.value, open, close) == 0
    ensures r.Some? ==> forall j :: start <= j < r.value ==> DepthThrough(content, start, j, open, close) > 0
    ensures r.None? ==> forall j :: start <= j < |content| ==> DepthThrough(content, start, j, open, close) > 0
    decreases |content| - i
  {
    if i == |content| then None
    else
      DepthStep(content, start, i, open, close);
      assert i > start ==> DepthThrough(content, start, i - 1, open, close) == count;
      var next := count + Delta(content[i], open, close);
      if content[i] != open && content[i] == close && next == 0 then Some(i)
      else ScanMatch(content, start, open, close, i + 1, next)
  }

  /**
   * The index of the delimiter that closes the one at `start`: None when
   * `start` is out of range or does not hold `open`; otherwise the loop's
   * answer from `start` with a zero count (MatchingDelimiterIsFirstBalance
   * says what that answer is).
   */
  function MatchingDelimiter(content: string, start: nat, open: char, close: char): (r: Option<nat>)
    ensures (start >= |content| || content[start] != open) ==> r.None?
    ensures r.Some? ==> start < r.value < |content| && content[r.value] == close
  {
    if start >= |content| || content[start] != open then None
    else
      var r := ScanMatch(content, start, open, close, start, 0);
      assert r.Some? ==> r.value != start by {
        if r.Some? && r.value == start {
          DepthStep(content, start, start, open, close);
        }
      }
      r
  }

  /**
   * A match is the first index after `start` at which openers minus closers
   * since `start` drops to 0; there is none exactly when the count stays
   * positive to the end.
   */
  lemma MatchingDelimiterIsFirstBalance(content: string, start: nat, open: char, close: char)
    requires start < |content| && content[start] == open
    ensures var r := MatchingDelimiter(content, start, open, close);
      && (r.Some? ==> DepthThrough(content, start, r.value, open, close) == 0)
      && (r.Some? ==> forall j :: start <= j < r.value ==> DepthThrough(content, start, j, open, close) > 0)
      && (r.None? ==> forall j :: start <= j < |content| ==> DepthThrough(content, start, j, open, close) > 0)
  {
  }

  /** `find_matching_delimiter`: a loop over the characters with a running count. */
  method FindMatchingDelimiter(content: string, start: nat, open: char, close: char) returns (r: Option<nat>)
    ensures r == MatchingDelimiter(content, start, open, close)
  {
    if start >= |content| {
      return None;
    }
    if content[start] != open {
      return None;
    }
    var count := 0;
    var i := start;
    while i < |content|
      invariant start <= i <= |content|
      invariant count == Depth(content[start..i], open, close)
      invariant forall j :: start <= j < i ==> DepthThrough(content, start, j, open, close) > 0
      invariant ScanMatch(content, start, open, close, i, count) == MatchingDelimiter(content, start, open, close)
      decreases |content| - i
    {
      DepthStep(content, start, i, open, close);
      var ch := content[i];
      if ch == open {
        count := count + 1;
      } else if ch == close {
        count := count - 1;
        if count == 0 {
          return Some(i);
        }
      }
      i := i + 1;
    }
    return None;
  }

  /** `find_matching_paren`: the `(`/`)` instance. */
  method FindMatchingParen(content: string, start: nat) returns (r: Option<nat>)
    ensures r == MatchingDelimiter(content, start, '(', ')')
  {
    r := FindMatchingDelimiter(content, start, '(', ')');
  }

  /** `find_matching_bracket`: the `[`/`]` instance. */
  method FindMatchingBracket(content: string, start: nat) returns (r: Option<nat>)
    ensures r == MatchingDelimiter(content, start, '[', ']')
  {
    r := FindMatchingDelimiter(content, start, '[', ']');
  }
}
