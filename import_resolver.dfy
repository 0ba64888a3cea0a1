/**
 * The import resolver of the discovery pass: `from M import A, B as C` lines
 * of a Python function body become a symbol table from the bound name to the
 * pair (module, bound name).
 */
module ImportResolver {
  import opened Wrappers
  import opened Strings
  import opened Assoc
  import opened Errors

  /** Bound name ↦ (module text, bound name). */
  datatype ImportMap = ImportMap(symbols: map<string, (string, string)>)

  type Entry = (string, (string, string))

  /**
   * The module text and the import list of a trimmed `from M import …` line,
   * or None when the line is not one. The module is everything between
   * `from ` and the first ` import `, untrimmed. A first ` import ` that
   * overlaps `from ` (the line `from import x`) makes no statement; see
   * FromImportSliceOutOfRange for what the code does there.
   */
  function ImportStatement(line: string): (r: Option<(string, string)>)
    ensures r.None? <==> !StartsWith(line, "from ") || Find(line, " import ").None? || Find(line, " import ").value < 5
    ensures r.Some? ==> line == "from " + r.value.0 + " import " + r.value.1
    ensures r.Some? ==> forall j :: 0 <= j < 5 + |r.value.0| ==> !OccursAt(line, " import ", j)
  {
    if !StartsWith(line, "from ") then None
    else
      match Find(line, " import ")
      case None => None
      case Some(idx) =>
        if idx < 5 then None
        else
          assert line == line[..5] + line[5..idx] + line[idx..idx + 8] + line[idx + 8..];
          Some((line[5..idx], line[idx + 8..]))
  }

  /** The name a comma-separated piece binds: the trimmed piece, or what follows its first ` as `. */
  function BoundName(piece: string): string
  {
    var name := Trim(piece);
    match Find(name, " as ")
    case Some(i) => name[i + 4..]
    case None => name
  }

  /** The insert one piece makes: its bound name, to the module and that same name. */
  function Binding(moduleText: string, piece: string): Entry
  {
    var name := BoundName(piece);
    (name, (moduleText, name))
  }

  /** The inserts one piece list makes, in order. */
  function PieceEntries(moduleText: string, pieces: seq<string>): (r: seq<Entry>)
    ensures |r| == |pieces|
  {
    if pieces == [] then []
    else PieceEntries(moduleText, pieces[..|pieces| - 1]) + [Binding(moduleText, pieces[|pieces| - 1])]
  }

  /** The inserts one line makes: every piece of the import list, unfiltered. */
  function LineEntries(line: string): seq<Entry>
  {
    match ImportStatement(Trim(line))
    case None => []
    case Some((moduleText, imports)) => PieceEntries(moduleText, Split(imports, ','))
  }

  /** The inserts of a sequence of lines, in order. */
  function EntriesOf(lines: seq<string>): seq<Entry>
  {
    if lines == [] then [] else EntriesOf(lines[..|lines| - 1]) + LineEntries(lines[|lines| - 1])
  }

  /** The symbol table of a function body. */
  function ImportSymbols(content: string): map<string, (string, string)>
  {
    ToMap(EntriesOf(Lines(content)))
  }

  lemma PieceEntriesPrefix(moduleText: string, pieces: seq<string>, k: nat)
    requires k < |pieces|
    ensures PieceEntries(moduleText, pieces[..k + 1]) == PieceEntries(moduleText, pieces[..k]) + [Binding(moduleText, pieces[k])]
  {
    assert pieces[..k + 1][..k] == pieces[..k];
  }

  lemma EntriesOfPrefix(lines: seq<string>, n: nat)
    requires n < |lines|
    ensures EntriesOf(lines[..n + 1]) == EntriesOf(lines[..n]) + LineEntries(lines[n])
  {
    assert lines[..n + 1][..n] == lines[..n];
  }

  /**
   * The inner loop of `build_import_map`: inserts the binding of every piece
   * into `symbols0`, in order.
   */
  method InsertBindings(ghost done: seq<Entry>, moduleText: string, pieces: seq<string>, symbols0: map<string, (string, string)>)
    returns (symbols: map<string, (string, string)>)
    requires symbols0 == ToMap(done)
    ensures symbols == ToMap(done + PieceEntries(moduleText, pieces))
  {
    symbols := symbols0;
    var k := 0;
    assert pieces[..0] == [];
    assert done + [] == done;
    while k < |pieces|
      invariant 0 <= k <= |pieces|
      invariant symbols == ToMap(done + PieceEntries(moduleText, pieces[..k]))
    {
      var name := BoundName(pieces[k]);
      ghost var front := PieceEntries(moduleText, pieces[..k]);
      PieceEntriesPrefix(moduleText, pieces, k);
      AppendAssoc(done, front, [(name, (moduleText, name))]);
      ToMapSnoc(done + front, (name, (moduleText, name)));
      symbols := symbols[name := (moduleText, name)];
      k := k + 1;
    }
    assert pieces[..k] == pieces;
  }

  /** A line that is no import statement inserts nothing. */
  lemma BlankLine(lines: seq<string>, n: nat)
    requires n < |lines| && ImportStatement(Trim(lines[n])).None?
    ensures EntriesOf(lines[..n + 1]) == EntriesOf(lines[..n])
  {
    EntriesOfPrefix(lines, n);
    assert LineEntries(lines[n]) == [];
    assert EntriesOf(lines[..n]) + [] == EntriesOf(lines[..n]);
  }

  /** A line that is an import statement inserts its pieces' bindings. */
  lemma StatementLine(lines: seq<string>, n: nat, moduleText: string, imports: string)
    requires n < |lines| && ImportStatement(Trim(lines[n])) == Some((moduleText, imports))
    ensures EntriesOf(lines[..n + 1]) == EntriesOf(lines[..n]) + PieceEntries(moduleText, Split(imports, ','))
  {
    EntriesOfPrefix(lines, n);
  }

  /** `build_import_map`: a loop over the lines of the body. It never fails. */
  method BuildImportMap(content: string) returns (r: Result<ImportMap, BridgeError>)
    ensures r == Ok(ImportMap(ImportSymbols(content)))
  {
    var symbols: map<string, (string, string)> := map[];
    var lines := Lines(content);
    ghost var done: seq<Entry> := [];
    var n := 0;
    while n < |lines|
      invariant 0 <= n <= |lines|
      invariant done == EntriesOf(lines[..n]) && symbols == ToMap(done)
      decreases |lines| - n
    {
      var statement := ImportStatement(Trim(lines[n]));
      if statement.Some? {
        var moduleText, imports := statement.value.0, statement.value.1;
        StatementLine(lines, n, moduleText, imports);
        symbols := InsertBindings(done, moduleText, Split(imports, ','), symbols);
        done := done + PieceEntries(moduleText, Split(imports, ','));
      } else {
        BlankLine(lines, n);
      }
      n := n + 1;
    }
    assert lines[..n] == lines;
    return Ok(ImportMap(symbols));
  }

  // ---------------------------------------------------------------------------
  // Properties
  // ---------------------------------------------------------------------------

  /** Every insert of a piece list stores the name it binds. */
  lemma {:induction false} PieceEntriesStoreTheirKey(moduleText: string, pieces: seq<string>)
    ensures forall i :: 0 <= i < |pieces| ==> PieceEntries(moduleText, pieces)[i].1.1 == PieceEntries(moduleText, pieces)[i].0
  {
    if pieces != [] {
      PieceEntriesStoreTheirKey(moduleText, pieces[..|pieces| - 1]);
    }
  }

  /** Every insert binds a name to a pair whose stored name is that same name. */
  lemma {:induction false} EntriesStoreTheirKey(lines: seq<string>)
    ensures forall i :: 0 <= i < |EntriesOf(lines)| ==> EntriesOf(lines)[i].1.1 == EntriesOf(lines)[i].0
  {
    if lines != [] {
      EntriesStoreTheirKey(lines[..|lines| - 1]);
      var line := lines[|lines| - 1];
      match ImportStatement(Trim(line)) {
        case None =>
        case Some((moduleText, imports)) =>
          PieceEntriesStoreTheirKey(moduleText, Split(imports, ','));
      }
    }
  }

  /**
   * The stored name always equals the key: with an alias `B as C` the entry is
   * C ↦ (M, C), never (M, B).
   */
  lemma StoredNameIsKey(content: string, k: string)
    requires k in ImportSymbols(content)
    ensures ImportSymbols(content)[k].1 == k
  {
    var es := EntriesOf(Lines(content));
    ToMapEntryInserted(es, k);
    EntriesStoreTheirKey(Lines(content));
  }

  /** A line that is not an import statement once trimmed adds nothing. */
  lemma NonImportLineAddsNothing(line: string)
    requires !StartsWith(Trim(line), "from ") || !Contains(Trim(line), " import ")
    ensures LineEntries(line) == []
  {
  }

  /**
   * Lines act in order: the table of `lines + [line]` is that of `lines`
   * overridden by the inserts of `line`, so a later import of a name wins.
   */
  lemma AppendLine(lines: seq<string>, line: string)
    ensures ToMap(EntriesOf(lines + [line])) == ToMap(EntriesOf(lines)) + ToMap(LineEntries(line))
  {
    EntriesOfLast(lines, line);
    ToMapConcat(EntriesOf(lines), LineEntries(line));
  }

  /**
   * For a module text without spaces (other than the word `import` itself),
   * the line `from M import rest` splits at the ` import ` after M.
   */
  lemma ImportStatementOf(m: string, rest: string)
    requires m != [] && m != "import"
    requires forall k :: 0 <= k < |m| ==> m[k] != ' '
    ensures ImportStatement("from " + m + " import " + rest) == Some((m, rest))
  {
    var line := "from " + m + " import " + rest;
    var at := 5 + |m|;
    ImportAfterModule(m, rest);
    NoImportBeforeModule(m, rest);
    FindIs(line, " import ", at);
    assert line[..5] == "from ";
    assert line[5..at] == m;
    assert line[at + 8..] == rest;
  }

  /** In `from M import rest`, ` import ` occurs right after M. */
  lemma ImportAfterModule(m: string, rest: string)
    ensures OccursAt("from " + m + " import " + rest, " import ", 5 + |m|)
  {
    var line := "from " + m + " import " + rest;
    assert line[5 + |m|..13 + |m|] == " import ";
  }

  /** A module text without spaces (and not `import`) hides no earlier ` import `. */
  lemma NoImportBeforeModule(m: string, rest: string)
    requires m != [] && m != "import"
    requires forall k :: 0 <= k < |m| ==> m[k] != ' '
    ensures forall j :: 0 <= j < 5 + |m| ==> !OccursAt("from " + m + " import " + rest, " import ", j)
  {
    var line := "from " + m + " import " + rest;
    var at := 5 + |m|;
    assert forall k :: 0 <= k < |m| ==> line[5 + k] == m[k];
    assert line[0] == 'f' && line[1] == 'r' && line[2] == 'o' && line[3] == 'm';
    assert line[at] == ' ';
    forall j | 0 <= j < at
      ensures !OccursAt(line, " import ", j)
    {
      if j < 4 || j >= 5 {
        Mismatch(line, " import ", j, 0);
      } else if |m| >= 7 {
        Mismatch(line, " import ", j, 7);
      } else if |m| == 6 {
        var d :| 0 <= d < 6 && m[d] != "import"[d];
        Mismatch(line, " import ", j, d + 1);
      } else {
        Mismatch(line, " import ", j, |m| + 1);
      }
    }
  }

  /** One differing character rules out an occurrence. */
  lemma Mismatch(s: string, p: string, j: nat, d: nat)
    requires d < |p|
    requires j + |p| <= |s| ==> s[j + d] != p[d]
    ensures !OccursAt(s, p, j)
  {
  }

  /** A line `from M import rest` that is its own trim binds every comma-separated piece of `rest`. */
  lemma ImportLineEntries(m: string, rest: string)
    requires m != [] && m != "import"
    requires forall k :: 0 <= k < |m| ==> m[k] != ' '
    requires rest != [] && !IsWhitespace(rest[|rest| - 1])
    ensures LineEntries("from " + m + " import " + rest) == PieceEntries(m, Split(rest, ','))
  {
    var line := "from " + m + " import " + rest;
    assert line[|line| - 1] == rest[|rest| - 1];
    TrimNoop(line);
    ImportStatementOf(m, rest);
  }

  /** A piece `B as C` binds C when B is a single word. */
  lemma BoundNameOfAlias(b: string, c: string)
    requires b != [] && forall k :: 0 <= k < |b| ==> !IsWhitespace(b[k])
    requires c != [] && !IsWhitespace(c[|c| - 1])
    ensures BoundName(b + " as " + c) == c
  {
    var piece := b + " as " + c;
    assert piece[|piece| - 1] == c[|c| - 1];
    assert piece[0] == b[0];
    TrimNoop(piece);
    assert OccursAt(piece, " as ", |b|);
    forall j | 0 <= j < |b|
      ensures !OccursAt(piece, " as ", j)
    {
      Mismatch(piece, " as ", j, 0);
    }
    assert piece[|b| + 4..] == c;
  }

  lemma AliasPieceHasNoComma(b: string, c: string)
    requires ',' !in b && ',' !in c
    ensures ',' !in b + " as " + c
  {
    var piece := b + " as " + c;
    forall k | 0 <= k < |piece|
      ensures piece[k] != ','
    {
      if k < |b| {
        assert piece[k] == b[k];
      } else if k < |b| + 4 {
        assert piece[k] == " as "[k - |b|];
      } else {
        assert piece[k] == c[k - |b| - 4];
      }
    }
  }

  /**
   * `from M import B as C` binds C to (M, C): the alias is both the key and
   * the stored name, and B is not kept.
   */
  lemma AliasImport(m: string, b: string, c: string)
    requires m != [] && m != "import"
    requires forall k :: 0 <= k < |m| ==> m[k] != ' '
    requires b != [] && ',' !in b && forall k :: 0 <= k < |b| ==> !IsWhitespace(b[k])
    requires c != [] && !IsWhitespace(c[|c| - 1]) && ',' !in c
    ensures LineEntries("from " + m + " import " + b + " as " + c) == [(c, (m, c))]
  {
    var piece := b + " as " + c;
    var pre := "from " + m + " import ";
    AppendAssoc(pre, b + " as ", c);
    AppendAssoc(pre, b, " as ");
    assert piece[|piece| - 1] == c[|c| - 1];
    AliasPieceHasNoComma(b, c);
    ImportLineEntries(m, piece);
    SplitWithoutSeparator(piece, ',');
    BoundNameOfAlias(b, c);
  }

  /** A trailing separator leaves an empty last piece. */
  lemma {:induction false} SplitTrailingSeparator(s: string, c: char)
    ensures var pieces := Split(s + [c], c); pieces[|pieces| - 1] == []
    decreases |s|
  {
    var t := s + [c];
    assert t[|s|] == c;
    var i := FindChar(t, c).value;
    SplitAtFirst(t, c, i);
    if i < |s| {
      assert t[i + 1..] == s[i + 1..] + [c];
      SplitTrailingSeparator(s[i + 1..], c);
    } else {
      assert t[i + 1..] == [];
    }
  }

  /** An empty last piece binds the empty name last. */
  lemma EmptyLastPiece(m: string, pieces: seq<string>)
    requires pieces != [] && pieces[|pieces| - 1] == []
    ensures var es := PieceEntries(m, pieces); es != [] && es[|es| - 1] == ("", (m, ""))
  {
    assert BoundName([]) == [];
  }

  /** The last insert of an import line with a trailing comma binds the empty name. */
  lemma TrailingCommaLastEntry(m: string, rest: string)
    requires m != [] && m != "import"
    requires forall k :: 0 <= k < |m| ==> m[k] != ' '
    ensures var es := LineEntries("from " + m + " import " + (rest + ",")); es != [] && es[|es| - 1] == ("", (m, ""))
  {
    var tail := rest + ",";
    assert tail == rest + [','] && tail[|tail| - 1] == ',';
    ImportLineEntries(m, tail);
    SplitTrailingSeparator(rest, ',');
    EmptyLastPiece(m, Split(tail, ','));
  }

  /** A trailing comma leaves an empty last piece, and the empty name is bound to the module. */
  lemma TrailingCommaBindsEmptyName(m: string, rest: string)
    requires m != [] && m != "import"
    requires forall k :: 0 <= k < |m| ==> m[k] != ' '
    ensures "" in ToMap(LineEntries("from " + m + " import " + (rest + ",")))
    ensures ToMap(LineEntries("from " + m + " import " + (rest + ",")))[""] == (m, "")
  {
    TrailingCommaLastEntry(m, rest);
    var es := LineEntries("from " + m + " import " + (rest + ","));
    LastInsertWins(es, |es| - 1);
  }

  /** The last part of a join is a suffix of the joined text. */
  lemma {:induction false} LastPieceIsSuffix(parts: seq<string>, c: char)
    requires |parts| >= 1
    ensures EndsWith(Join(parts, [c]), parts[|parts| - 1])
    decreases |parts|
  {
    if |parts| > 1 {
      LastPieceIsSuffix(parts[1..], c);
      assert parts[1..][|parts[1..]| - 1] == parts[|parts| - 1];
    }
  }

  /** A leading line break contributes one empty line. */
  lemma LinesAfterBreak(s: string)
    ensures Lines("\n" + s) == [""] + Lines(s)
  {
    var t := "\n" + s;
    assert FindChar(t, '\n') == Some(0);
    assert t[1..] == s;
  }

  /** A single line, with or without its line break. */
  lemma LinesOfOneLine(line: string)
    requires '\n' !in line && line != []
    ensures Lines(line) == [line]
    ensures Lines(line + "\n") == [StripCr(line)]
  {
    var t := line + "\n";
    assert forall j :: 0 <= j < |line| ==> t[j] == line[j] && line[j] != '\n';
    assert t[|line|] == '\n';
    assert FindChar(t, '\n') == Some(|line|);
    assert t[..|line|] == line && t[|line| + 1..] == [];
  }

  /** The lines of a single line with two blank lines before it and a line break after it. */
  lemma LinesWithBlankPrefix(line: string)
    requires '\n' !in line && line != [] && line[|line| - 1] != '\r'
    ensures Lines("\n" + ("\n" + (line + "\n"))) == ["", "", line]
  {
    var one := line + "\n";
    var two := "\n" + one;
    LinesAfterBreak(two);
    LinesAfterBreak(one);
    LinesOfOneLine(line);
    assert StripCr(line) == line;
    assert Lines(two) == [""] + [line];
  }

  lemma BlankPrefixText(line: string)
    ensures "\n\n" + line + "\n" == "\n" + ("\n" + (line + "\n"))
  {
  }

  /** Blank lines around a single line (one not ending in a carriage return) change nothing. */
  lemma BlankLinesIgnored(line: string)
    requires '\n' !in line && line != [] && line[|line| - 1] != '\r'
    ensures ImportSymbols("\n\n" + line + "\n") == ImportSymbols(line)
  {
    BlankPrefixText(line);
    LinesWithBlankPrefix(line);
    LinesOfOneLine(line);
    EmptyLineNoEntries();
    BlankLinesAddNothing("", line);
    EntriesOfOne(line);
  }

  lemma EntriesOfOne(line: string)
    ensures EntriesOf([line]) == LineEntries(line)
  {
    assert [line][..0] == [];
  }

  /** Two lines that insert nothing, before a line, leave that line's inserts. */
  lemma BlankLinesAddNothing(blank: string, line: string)
    requires LineEntries(blank) == []
    ensures EntriesOf([blank, blank, line]) == LineEntries(line)
  {
    EntriesOfOne(blank);
    EntriesOfLast([blank], blank);
    assert EntriesOf([blank] + [blank]) == [];
    EntriesOfLast([blank, blank], line);
    assert [blank] + [blank] == [blank, blank] && [blank, blank] + [line] == [blank, blank, line];
    assert [] + LineEntries(line) == LineEntries(line);
  }

  /** One more line adds its inserts at the end. */
  lemma EntriesOfLast(lines: seq<string>, line: string)
    ensures EntriesOf(lines + [line]) == EntriesOf(lines) + LineEntries(line)
  {
    assert (lines + [line])[..|lines|] == lines;
  }

  lemma EmptyLineNoEntries()
    ensures LineEntries("") == []
  {
    assert Trim("") == "";
    assert !StartsWith("", "from ");
  }

  /** The table of a body that is one line is the map of that line's inserts. */
  lemma OneLineSymbols(line: string)
    requires '\n' !in line && line != []
    ensures ImportSymbols(line) == ToMap(LineEntries(line))
  {
    LinesOfOneLine(line);
    EntriesOfOne(line);
  }

  /** A word binds itself, with or without a space before it (as after `, `). */
  lemma BoundNameOfWord(w: string)
    requires w != [] && forall k :: 0 <= k < |w| ==> !IsWhitespace(w[k])
    ensures BoundName(w) == w
    ensures BoundName(" " + w) == w
  {
    TrimNoop(w);
    forall j | 0 <= j < |w|
      ensures !OccursAt(w, " as ", j)
    {
      Mismatch(w, " as ", j, 0);
    }
    assert Find(w, " as ").None?;
    var t := " " + w;
    assert t[1..] == w;
    assert TrimStart(t) == TrimStart(w);
  }

  /** No whitespace and no comma. */
  predicate Word(w: string)
  {
    w != [] && forall k :: 0 <= k < |w| ==> !IsWhitespace(w[k]) && w[k] != ','
  }

  lemma SingleNameEntries(m: string, a: string)
    requires Word(m) && m != "import"
    requires Word(a)
    ensures LineEntries("from " + m + " import " + a) == [(a, (m, a))]
  {
    ImportLineEntries(m, a);
    SplitWithoutSeparator(a, ',');
    BoundNameOfWord(a);
    assert [a][..0] == [];
  }

  /** `from M import A` gives exactly the entry A ↦ (M, A). */
  lemma SingleNameImport(m: string, a: string)
    requires Word(m) && m != "import"
    requires Word(a)
    ensures ImportSymbols("from " + m + " import " + a) == map[a := (m, a)]
  {
    NoBreakInImportLine(m, a);
    OneLineSymbols("from " + m + " import " + a);
    SingleNameEntries(m, a);
    ToMapOne((a, (m, a)));
  }

  lemma TwoNameEntries(m: string, a: string, b: string)
    requires Word(m) && m != "import"
    requires Word(a) && Word(b)
    ensures LineEntries("from " + m + " import " + (a + ", " + b)) == [(a, (m, a)), (b, (m, b))]
  {
    var rest := a + ", " + b;
    assert rest[|rest| - 1] == b[|b| - 1];
    ImportLineEntries(m, rest);
    TwoPieces(a, b);
    PieceEntriesTwo(m, a, " " + b);
    BoundNameOfWord(a);
    BoundNameOfWord(b);
  }

  lemma PieceEntriesTwo(m: string, p: string, q: string)
    ensures PieceEntries(m, [p, q]) == [Binding(m, p), Binding(m, q)]
  {
    assert [p, q][..1] == [p];
    assert [p][..0] == [];
  }

  lemma TwoPieces(a: string, b: string)
    requires Word(a) && Word(b)
    ensures Split(a + ", " + b, ',') == [a, " " + b]
  {
    assert a + ", " + b == a + "," + (" " + b);
    assert ',' !in " " + b by {
      assert forall k :: 1 <= k < |" " + b| ==> (" " + b)[k] == b[k - 1];
    }
    assert Join([a, " " + b], [',']) == a + ", " + b;
    SplitJoin([a, " " + b], ',');
  }

  /** `from M import A, B` gives the entries A ↦ (M, A) and B ↦ (M, B), so two entries when A and B differ. */
  lemma TwoNameImport(m: string, a: string, b: string)
    requires Word(m) && m != "import"
    requires Word(a) && Word(b)
    ensures ImportSymbols("from " + m + " import " + (a + ", " + b)) == map[a := (m, a), b := (m, b)]
  {
    var rest := a + ", " + b;
    assert forall k :: 0 <= k < |rest| ==> rest[k] != '\n';
    NoBreakInImportLine(m, rest);
    OneLineSymbols("from " + m + " import " + rest);
    TwoNameEntries(m, a, b);
    ToMapTwo((a, (m, a)), (b, (m, b)));
  }

  /** An import line built from words has no line break. */
  lemma NoBreakInImportLine(m: string, rest: string)
    requires Word(m)
    requires forall k :: 0 <= k < |rest| ==> rest[k] != '\n'
    ensures '\n' !in "from " + m + " import " + rest
  {
    var line := "from " + m + " import " + rest;
    forall k | 0 <= k < |line|
      ensures line[k] != '\n'
    {
      if k < 5 {
        assert line[k] == "from "[k];
      } else if k < 5 + |m| {
        assert line[k] == m[k - 5];
      } else if k < 13 + |m| {
        assert line[k] == " import "[k - 5 - |m|];
      } else {
        assert line[k] == rest[k - 13 - |m|];
      }
    }
  }

  // ---------------------------------------------------------------------------
  // The line `from import x`
  // ---------------------------------------------------------------------------

  /**
   * What `build_import_map` takes for the module text once the guard has
   * passed: the slice from index 5 to the first ` import `, which exists
   * only when that index is at least 5.
   */
  function ModulePartAsWritten(line: string, importIdx: nat): (r: string)
    requires 5 <= importIdx <= |line|
    ensures |r| == importIdx - 5
  {
    line[5..importIdx]
  }

  /**
   * The line `from import x` passes both guards of the code, yet its first
   * ` import ` starts at index 4, so the slice `line[5..4]` is out of range
   * (ModulePartAsWritten's precondition fails); ImportStatement skips it.
   */
  lemma FromImportSliceOutOfRange()
    ensures StartsWith("from import x", "from ")
    ensures Find("from import x", " import ") == Some(4)
    ensures ImportStatement("from import x").None?
  {
    var line := "from import x";
    assert line[..5] == "from ";
    assert OccursAt(line, " import ", 4);
    assert !OccursAt(line, " import ", 0) && !OccursAt(line, " import ", 1);
    assert !OccursAt(line, " import ", 2) && !OccursAt(line, " import ", 3);
  }
}
