/** The SQL and table printers and the readers that undo them:
    crates/ownpg-core/src/render.rs and the cell printer of crates/ownpg-core/src/shape.rs. */
module Printers {

  import opened Basics

  /** Every c becomes two of them. */
  function Doubled(s: string, c: char): string {
    if s == [] then [] else (if s[0] == c then [c, c] else [s[0]]) + Doubled(s[1..], c)
  }

  /** Every pair of c, taken from the left without overlaps, becomes one. */
  function Halved(s: string, c: char): string {
    if |s| >= 2 && s[0] == c && s[1] == c then [c] + Halved(s[2..], c)
    else if s == [] then []
    else [s[0]] + Halved(s[1..], c)
  }

  lemma {:induction false} HalvedUndoesDoubled(s: string, c: char)
    ensures Halved(Doubled(s, c), c) == s
  {
    if s != [] {
      HalvedUndoesDoubled(s[1..], c);
      var rest := Doubled(s[1..], c);
      if s[0] == c {
        assert ([c, c] + rest)[2..] == rest;
      } else {
        assert ([s[0]] + rest)[1..] == rest;
      }
    }
  }

  // Identifiers.

  const QUOTE := '"'

  function QuoteIdent(name: string): string {
    [QUOTE] + Doubled(name, QUOTE) + [QUOTE]
  }

  datatype QualifiedName = QualifiedName(schema: string, name: string) {
    function Sql(): string {
      QuoteIdent(schema) + "." + QuoteIdent(name)
    }
  }

  /** The first dot outside double quotes, scanning from index with the given quote state. */
  function UnquotedDot(s: string, index: nat, inQuotes: bool): (dot: Option<nat>)
    requires index <= |s|
    ensures dot.Some? ==> index <= dot.value < |s| && s[dot.value] == '.'
    decreases |s| - index
  {
    if index == |s| then None
    else if s[index] == QUOTE then UnquotedDot(s, index + 1, !inQuotes)
    else if s[index] == '.' && !inQuotes then Some(index)
    else UnquotedDot(s, index + 1, inQuotes)
  }

  /** The scan over the name; the parts before and after the first unquoted dot. */
  method SplitQualified(name: string) returns (parts: Option<(string, string)>)
    ensures var dot := UnquotedDot(name, 0, false);
            parts == if dot.None? then None else Some((name[..dot.value], name[dot.value + 1..]))
  {
    var inQuotes := false;
    var index := 0;
    while index < |name|
      invariant 0 <= index <= |name|
      invariant UnquotedDot(name, 0, false) == UnquotedDot(name, index, inQuotes)
    {
      var c := name[index];
      if c == QUOTE {
        inQuotes := !inQuotes;
      } else if c == '.' && !inQuotes {
        return Some((name[..index], name[index + 1..]));
      }
      index := index + 1;
    }
    return None;
  }

  function Unquote(part: string): string {
    var trimmed := Trim(part);
    if |trimmed| >= 2 && trimmed[0] == QUOTE && trimmed[|trimmed| - 1] == QUOTE
    then Halved(trimmed[1..|trimmed| - 1], QUOTE)
    else Lower(trimmed)
  }

  /** What split_name returns. */
  function NameParts(name: string, scoped: string): QualifiedName {
    var trimmed := Trim(name);
    var dot := UnquotedDot(trimmed, 0, false);
    if dot.Some? then QualifiedName(Unquote(trimmed[..dot.value]), Unquote(trimmed[dot.value + 1..]))
    else QualifiedName(scoped, Unquote(trimmed))
  }

  method SplitName(name: string, scoped: string) returns (parts: QualifiedName)
    ensures parts == NameParts(name, scoped)
  {
    var trimmed := Trim(name);
    var split := SplitQualified(trimmed);
    match split
    case Some((schema, bare)) => parts := QualifiedName(Unquote(schema), Unquote(bare));
    case None => parts := QualifiedName(scoped, Unquote(trimmed));
  }

  /** Scanning over doubled quotes inside a quoted identifier stays inside it. */
  lemma {:induction false} ScanDoubled(before: string, s: string, after: string)
    ensures UnquotedDot(before + Doubled(s, QUOTE) + after, |before|, true)
            == UnquotedDot(before + Doubled(s, QUOTE) + after, |before| + |Doubled(s, QUOTE)|, true)
    decreases |s|
  {
    var text := before + Doubled(s, QUOTE) + after;
    if s != [] {
      var head := if s[0] == QUOTE then [QUOTE, QUOTE] else [s[0]];
      assert text == (before + head) + Doubled(s[1..], QUOTE) + after;
      ScanDoubled(before + head, s[1..], after);
      assert text[|before|] == s[0];
      if s[0] == QUOTE {
        assert text[|before| + 1] == QUOTE;
      }
    }
  }

  lemma ScanQuoted(before: string, s: string, after: string)
    ensures UnquotedDot(before + QuoteIdent(s) + after, |before|, false)
            == UnquotedDot(before + QuoteIdent(s) + after, |before| + |QuoteIdent(s)|, false)
  {
    var text := before + QuoteIdent(s) + after;
    assert text == (before + [QUOTE]) + Doubled(s, QUOTE) + ([QUOTE] + after);
    ScanDoubled(before + [QUOTE], s, [QUOTE] + after);
    assert text[|before|] == QUOTE;
    assert text[|before| + 1 + |Doubled(s, QUOTE)|] == QUOTE;
  }

  lemma UnquoteUndoesQuoteIdent(s: string)
    ensures Trim(QuoteIdent(s)) == QuoteIdent(s)
    ensures Unquote(QuoteIdent(s)) == s
  {
    var quoted := QuoteIdent(s);
    assert quoted[0] == QUOTE && quoted[|quoted| - 1] == QUOTE;
    assert quoted[1..|quoted| - 1] == Doubled(s, QUOTE);
    HalvedUndoesDoubled(s, QUOTE);
  }

  lemma TrimKeepsQuoted(s: string)
    requires s != [] && s[0] == QUOTE && s[|s| - 1] == QUOTE
    ensures Trim(s) == s
  {
  }

  /** A printed qualified name splits back into its own schema and name, whatever characters they hold and
      whatever schema the server is scoped to. */
  lemma SplitNameUndoesSql(q: QualifiedName, scoped: string)
    ensures NameParts(q.Sql(), scoped) == q
  {
    var schema, bare := QuoteIdent(q.schema), QuoteIdent(q.name);
    var text := q.Sql();
    TrimKeepsQuoted(text);
    assert UnquotedDot(text, 0, false) == Some(|schema|) by {
      assert text == "" + schema + ("." + bare);
      ScanQuoted("", q.schema, "." + bare);
      assert text[|schema|] == '.';
    }
    assert text[..|schema|] == schema && text[|schema| + 1..] == bare;
    UnquoteUndoesQuoteIdent(q.schema);
    UnquoteUndoesQuoteIdent(q.name);
  }

  /** A single quoted identifier is read as a bare name of the scoped schema. */
  lemma SplitNameUndoesQuoteIdent(name: string, scoped: string)
    ensures NameParts(QuoteIdent(name), scoped) == QualifiedName(scoped, name)
  {
    UnquoteUndoesQuoteIdent(name);
    assert "" + QuoteIdent(name) + "" == QuoteIdent(name);
    ScanQuoted("", name, "");
  }

  // Literals.

  function QuoteLiteral(text: string): string {
    if '\\' in text then "E'" + Doubled(Doubled(text, '\\'), '\'') + "'"
    else "'" + Doubled(text, '\'') + "'"
  }

  /** The escapes of an E'' string: sections 4.1.2.1 and 4.1.2.2 of the PostgreSQL documentation. A letter that
      names a control character stands for it; the digit and hex forms are not needed by any printer here and
      are not read; any other character stands for itself. */
  function Escape(c: char): Option<char> {
    if c == 'b' then Some(8 as char)
    else if c == 'f' then Some(12 as char)
    else if c == 'n' then Some('\n')
    else if c == 'r' then Some('\r')
    else if c == 't' then Some('\t')
    else if c == 'x' || c == 'u' || c == 'U' || '0' <= c <= '7' then None
    else Some(c)
  }

  /** Reads the inside of a string constant up to the quote that closes it: the text, and what is left. */
  function LexBody(s: string, escapes: bool): Option<(string, string)>
    decreases |s|
  {
    if s == [] then None
    else if s[0] == '\'' then
      (if |s| >= 2 && s[1] == '\'' then Prefixed('\'', LexBody(s[2..], escapes))
       else if Continuation(s[1..], false).Some?
       then LexBody(Continuation(s[1..], false).value, escapes)
       else Some(([], s[1..])))
    else if s[0] == '\\' && escapes then
      (if |s| >= 2 && Escape(s[1]).Some? then Prefixed(Escape(s[1]).value, LexBody(s[2..], escapes)) else None)
    else Prefixed(s[0], LexBody(s[1..], escapes))
  }

  function Prefixed(c: char, read: Option<(string, string)>): Option<(string, string)> {
    match read
    case None => None
    case Some((text, rest)) => Some(([c] + text, rest))
  }

  /** What is left from the end of the line on. */
  function LineEnd(s: string): (rest: string)
    ensures |rest| <= |s|
  {
    if s == [] || s[0] == '\n' || s[0] == '\r' then s else LineEnd(s[1..])
  }

  /** Two constants separated by white space with at least one line break read as one: what follows the quote that reopens
      the constant. A comment from two dashes to the end of its line counts as white space. */
  function Continuation(s: string, newline: bool): (rest: Option<string>)
    ensures rest.Some? ==> |rest.value| < |s|
    decreases |s|
  {
    if s == [] then None
    else if s[0] == '\n' || s[0] == '\r' then Continuation(s[1..], true)
    else if s[0] == ' ' || s[0] == '\t' || s[0] == 11 as char || s[0] == 12 as char then Continuation(s[1..], newline)
    else if |s| >= 2 && s[0] == '-' && s[1] == '-' then Continuation(LineEnd(s[2..]), newline)
    else if s[0] == '\'' && newline then Some(s[1..])
    else None
  }

  /** A comment, a line break and a quote reopen a constant; without the line break they do not. */
  lemma CommentContinues(comment: string, after: string)
    requires '\n' !in comment && '\r' !in comment
    ensures Continuation("--" + comment + "\n'" + after, false) == Some(after)
    ensures Continuation("--" + comment, false) == None
  {
    var reopened := "\n'" + after;
    CommentEnds(comment, reopened);
    CommentEnds(comment, "");
    assert "--" + comment + reopened == "--" + comment + "\n'" + after;
    assert ("--" + comment + reopened)[2..] == comment + reopened;
    assert reopened[1..] == "'" + after && ("'" + after)[1..] == after;
    assert Continuation(reopened, false) == Some(after);
    assert ("--" + comment)[2..] == comment + "";
  }

  lemma {:induction false} CommentEnds(comment: string, rest: string)
    requires '\n' !in comment && '\r' !in comment && (rest == [] || rest[0] == '\n' || rest[0] == '\r')
    ensures LineEnd(comment + rest) == rest
  {
    if comment == [] {
      assert comment + rest == rest;
    } else {
      CommentEnds(comment[1..], rest);
      assert (comment + rest)[1..] == comment[1..] + rest;
    }
  }

  function LexLiteral(s: string): Option<(string, string)> {
    if |s| >= 2 && (s[0] == 'E' || s[0] == 'e') && s[1] == '\'' then LexBody(s[2..], true)
    else if |s| >= 1 && s[0] == '\'' then LexBody(s[1..], false)
    else None
  }

  /** The text after a constant does not belong to it. */
  predicate EndsHere(after: string) {
    && !(after != [] && after[0] == '\'')
    && Continuation(after, false).None?
  }

  /** What is printed between the quotes. */
  function Inside(text: string, escapes: bool): string {
    if escapes then Doubled(Doubled(text, '\\'), '\'') else Doubled(text, '\'')
  }

  function InsideChar(c: char, escapes: bool): string {
    if c == '\'' then ['\'', '\''] else if escapes && c == '\\' then ['\\', '\\'] else [c]
  }

  lemma InsideHead(text: string, escapes: bool)
    requires text != []
    ensures Inside(text, escapes) == InsideChar(text[0], escapes) + Inside(text[1..], escapes)
  {
    if escapes {
      var inner := Doubled(text[1..], '\\');
      if text[0] == '\\' {
        assert Doubled(text, '\\') == ['\\'] + (['\\'] + inner);
        assert (['\\'] + (['\\'] + inner))[1..] == ['\\'] + inner && (['\\'] + inner)[1..] == inner;
        assert Doubled(['\\'] + inner, '\'') == ['\\'] + Doubled(inner, '\'');
      } else {
        assert Doubled(text, '\\') == [text[0]] + inner;
        assert ([text[0]] + inner)[1..] == inner;
      }
    }
  }

  lemma LexChar(c: char, rest: string, escapes: bool)
    ensures LexBody(InsideChar(c, escapes) + rest, escapes) == Prefixed(c, LexBody(rest, escapes))
  {
    var head := InsideChar(c, escapes);
    assert (head + rest)[|head|..] == rest;
    assert (head + rest)[0] == c;
    if |head| == 2 {
      assert (head + rest)[1] == c;
    }
  }

  /** A text read before what is read next. */
  function ReadBefore(text: string, read: Option<(string, string)>): Option<(string, string)> {
    match read
    case None => None
    case Some((more, rest)) => Some((text + more, rest))
  }

  lemma PrefixedBefore(text: string, read: Option<(string, string)>)
    requires text != []
    ensures Prefixed(text[0], ReadBefore(text[1..], read)) == ReadBefore(text, read)
  {
    if read.Some? {
      assert [text[0]] + (text[1..] + read.value.0) == text + read.value.0;
    }
  }

  lemma NothingBefore(read: Option<(string, string)>)
    ensures ReadBefore([], read) == read
  {
    if read.Some? { assert [] + read.value.0 == read.value.0; }
  }

  lemma LexHead(text: string, after: string, escapes: bool)
    requires text != []
    ensures LexBody(Inside(text, escapes) + "'" + after, escapes)
         == Prefixed(text[0], LexBody(Inside(text[1..], escapes) + "'" + after, escapes))
  {
    var head, rest := InsideChar(text[0], escapes), Inside(text[1..], escapes) + "'" + after;
    InsideHead(text, escapes);
    assert Inside(text, escapes) + "'" + after == head + rest;
    LexChar(text[0], rest, escapes);
  }

  /** The printed text is read first, and what follows its closing quote is read as if the constant began there. */
  lemma {:induction false} LexInside(text: string, after: string, escapes: bool)
    ensures LexBody(Inside(text, escapes) + "'" + after, escapes) == ReadBefore(text, LexBody("'" + after, escapes))
  {
    var read := LexBody("'" + after, escapes);
    if text == [] {
      assert Inside(text, escapes) + "'" + after == "'" + after;
      NothingBefore(read);
    } else {
      LexInside(text[1..], after, escapes);
      LexHead(text, after, escapes);
      PrefixedBefore(text, read);
    }
  }

  /** Reading never lengthens what is left. */
  lemma {:induction false} LexedLength(s: string, escapes: bool)
    ensures LexBody(s, escapes).Some? ==> |LexBody(s, escapes).value.1| < |s|
    decreases |s|
  {
    if s == [] {
    } else if s[0] == '\'' {
      if |s| >= 2 && s[1] == '\'' {
        LexedLength(s[2..], escapes);
      } else if Continuation(s[1..], false).Some? {
        LexedLength(Continuation(s[1..], false).value, escapes);
      }
    } else if s[0] == '\\' && escapes {
      if |s| >= 2 { LexedLength(s[2..], escapes); }
    } else {
      LexedLength(s[1..], escapes);
    }
  }

  lemma LexClosingQuote(after: string, escapes: bool)
    ensures EndsHere(after) ==> LexBody("'" + after, escapes) == Some(([], after))
    ensures !EndsHere(after) ==> LexBody("'" + after, escapes).None? || |LexBody("'" + after, escapes).value.1| < |after|
  {
    var s := "'" + after;
    assert s[1..] == after;
    if after != [] && after[0] == '\'' {
      assert s[2..] == after[1..];
      LexedLength(s[2..], escapes);
    } else if Continuation(after, false).Some? {
      LexedLength(Continuation(after, false).value, escapes);
    }
  }

  lemma LexPlain(body: string)
    ensures LexLiteral("'" + body) == LexBody(body, false)
  {
    assert ("'" + body)[1..] == body;
  }

  lemma LexEscaped(body: string)
    ensures LexLiteral("E'" + body) == LexBody(body, true)
  {
    assert ("E'" + body)[2..] == body;
  }

  lemma LexPrinted(text: string, after: string)
    ensures var escapes := '\\' in text;
            LexLiteral(QuoteLiteral(text) + after) == LexBody(Inside(text, escapes) + "'" + after, escapes)
  {
    var escapes := '\\' in text;
    var body := Inside(text, escapes) + "'" + after;
    if escapes {
      assert QuoteLiteral(text) + after == "E'" + body;
      LexEscaped(body);
    } else {
      assert QuoteLiteral(text) + after == "'" + body;
      LexPlain(body);
    }
  }

  /** A printed literal is read back as exactly its text, and reading stops at its closing quote, exactly when the
      statement does not go on with a quote that reopens the constant. */
  lemma LexUndoesQuoteLiteral(text: string, after: string)
    ensures LexLiteral(QuoteLiteral(text) + after) == Some((text, after)) <==> EndsHere(after)
  {
    LexPrinted(text, after);
    LexInside(text, after, '\\' in text);
    LexClosingQuote(after, '\\' in text);
    assert text + [] == text;
  }

  // Table cells.

  function EscapedChar(c: char): string {
    if c == '\\' then "\\\\" else if c == '\t' then "\\t" else if c == '\n' then "\\n" else if c == '\r' then "\\r" else [c]
  }

  function Escaped(text: string): string {
    if text == [] then [] else EscapedChar(text[0]) + Escaped(text[1..])
  }

  lemma {:induction false} EscapedAppend(text: string, c: char)
    ensures Escaped(text + [c]) == Escaped(text) + EscapedChar(c)
  {
    if text == [] {
      assert text + [c] == [c];
      assert EscapedChar(c) + [] == EscapedChar(c);
    } else {
      assert (text + [c])[1..] == text[1..] + [c];
      EscapedAppend(text[1..], c);
    }
  }

  method EscapeCell(text: string) returns (out: string)
    ensures out == Escaped(text)
  {
    out := "";
    for i := 0 to |text|
      invariant out == Escaped(text[..i])
    {
      assert text[..i + 1] == text[..i] + [text[i]];
      EscapedAppend(text[..i], text[i]);
      var c := text[i];
      match c
      case '\\' => out := out + "\\\\";
      case '\t' => out := out + "\\t";
      case '\n' => out := out + "\\n";
      case '\r' => out := out + "\\r";
      case other => out := out + [other];
    }
    assert text[..|text|] == text;
  }

  type Row = seq<Option<string>>

  const NULL_TEXT := "\\N"

  function CellText(cell: Option<string>): string {
    match cell
    case None => NULL_TEXT
    case Some(text) => Escaped(text)
  }

  function CellTexts(row: Row): (texts: seq<string>)
    ensures |texts| == |row|
  {
    if row == [] then [] else [CellText(row[0])] + CellTexts(row[1..])
  }

  function RowLine(row: Row): string {
    Joined(CellTexts(row), '\t')
  }

  /** The row lines of the rendered table: each row on a line of its own. */
  function RowLines(rows: seq<Row>): string {
    if rows == [] then [] else RowLine(rows[0]) + "\n" + RowLines(rows[1..])
  }

  lemma {:induction false} RowLinesAppend(rows: seq<Row>, row: Row)
    ensures RowLines(rows + [row]) == RowLines(rows) + RowLine(row) + "\n"
  {
    if rows == [] {
      assert rows + [row] == [row];
    } else {
      assert (rows + [row])[1..] == rows[1..] + [row];
      RowLinesAppend(rows[1..], row);
    }
  }

  /** The loop of render_text over the rows. */
  method RenderRows(rows: seq<Row>) returns (out: string)
    ensures out == RowLines(rows)
  {
    out := "";
    for r := 0 to |rows|
      invariant out == RowLines(rows[..r])
    {
      var cells: seq<string> := [];
      for i := 0 to |rows[r]|
        invariant cells == CellTexts(rows[r])[..i]
      {
        CellTextAt(rows[r], i);
        match rows[r][i] {
          case None => cells := cells + [NULL_TEXT];
          case Some(text) => {
            var escaped := EscapeCell(text);
            cells := cells + [escaped];
          }
        }
      }
      assert CellTexts(rows[r])[..|rows[r]|] == CellTexts(rows[r]);
      assert rows[..r + 1] == rows[..r] + [rows[r]];
      RowLinesAppend(rows[..r], rows[r]);
      out := out + Joined(cells, '\t') + "\n";
    }
    assert rows[..|rows|] == rows;
  }

  lemma {:induction false} CellTextAt(row: Row, i: nat)
    requires i < |row|
    ensures CellTexts(row)[i] == CellText(row[i])
  {
    if i > 0 { CellTextAt(row[1..], i - 1); }
  }

  // The reader a client would write from the header line of the table.

  function Unescaped(s: string): string {
    if |s| >= 2 && s[0] == '\\' then
      [if s[1] == 't' then '\t' else if s[1] == 'n' then '\n' else if s[1] == 'r' then '\r' else s[1]] + Unescaped(s[2..])
    else if s == [] then []
    else [s[0]] + Unescaped(s[1..])
  }

  function ReadCell(text: string): Option<string> {
    if text == NULL_TEXT then None else Some(Unescaped(text))
  }

  function ReadCells(texts: seq<string>): Row {
    if texts == [] then [] else [ReadCell(texts[0])] + ReadCells(texts[1..])
  }

  function ReadRow(line: string): Row {
    ReadCells(SplitOn(line, '\t'))
  }

  /** Every line ends with a line break, so the part after the last one is no line. */
  function Lines(text: string): seq<string> {
    var parts := SplitOn(text, '\n');
    parts[..|parts| - 1]
  }

  function ReadLines(lines: seq<string>): seq<Row> {
    if lines == [] then [] else [ReadRow(lines[0])] + ReadLines(lines[1..])
  }

  lemma UnescapedChar(c: char, rest: string)
    ensures Unescaped(EscapedChar(c) + rest) == [c] + Unescaped(rest)
  {
    var s := EscapedChar(c) + rest;
    if |EscapedChar(c)| == 2 {
      assert s[0] == '\\' && s[1] == EscapedChar(c)[1];
      assert s[2..] == rest;
    } else {
      assert s[0] == c && s[1..] == rest;
    }
  }

  lemma {:induction false} UnescapedUndoesEscaped(text: string)
    ensures Unescaped(Escaped(text)) == text
  {
    if text != [] {
      UnescapedUndoesEscaped(text[1..]);
      UnescapedChar(text[0], Escaped(text[1..]));
    }
  }

  lemma {:induction false} EscapedHolds(text: string)
    ensures '\t' !in Escaped(text) && '\n' !in Escaped(text)
    ensures Escaped(text) != NULL_TEXT
  {
    if text != [] {
      EscapedHolds(text[1..]);
      var head, rest := EscapedChar(text[0]), Escaped(text[1..]);
      assert |head| == 1 ==> Escaped(text)[0] != '\\';
      assert |head| == 2 ==> Escaped(text)[1] == head[1] != 'N';
    }
  }

  lemma ReadCellUndoesCellText(cell: Option<string>)
    ensures ReadCell(CellText(cell)) == cell
    ensures '\t' !in CellText(cell) && '\n' !in CellText(cell)
  {
    if cell.Some? {
      UnescapedUndoesEscaped(cell.value);
      EscapedHolds(cell.value);
    }
  }

  lemma {:induction false} CellTextsAreClean(row: Row)
    ensures forall text :: text in CellTexts(row) ==> '\t' !in text && '\n' !in text
    ensures ReadCells(CellTexts(row)) == row
  {
    if row != [] {
      ReadCellUndoesCellText(row[0]);
      CellTextsAreClean(row[1..]);
    }
  }

  /** A row reads back as itself exactly when it has a column: a row of none prints as an empty line, which
      reads as one empty cell. */
  lemma ReadRowUndoesRowLine(row: Row)
    ensures ReadRow(RowLine(row)) == row <==> |row| >= 1
    ensures '\n' !in RowLine(row)
  {
    CellTextsAreClean(row);
    JoinedHolds(CellTexts(row), '\t', '\n');
    if |row| >= 1 {
      SplitUndoesJoined(CellTexts(row), '\t');
    }
  }

  lemma {:induction false} LinesOfRowLines(rows: seq<Row>)
    ensures |Lines(RowLines(rows))| == |rows|
    ensures forall i :: 0 <= i < |rows| ==> Lines(RowLines(rows))[i] == RowLine(rows[i])
  {
    if rows != [] {
      LinesOfRowLines(rows[1..]);
      ReadRowUndoesRowLine(rows[0]);
      SplitFirst(RowLine(rows[0]), '\n', RowLines(rows[1..]));
      assert RowLines(rows) == RowLine(rows[0]) + ['\n'] + RowLines(rows[1..]);
      assert Lines(RowLines(rows)) == [RowLine(rows[0])] + Lines(RowLines(rows[1..]));
    }
  }

  lemma {:induction false} ReadLinesAt(lines: seq<string>, rows: seq<Row>)
    requires |lines| == |rows|
    requires forall i :: 0 <= i < |rows| ==> |rows[i]| >= 1 && lines[i] == RowLine(rows[i])
    ensures ReadLines(lines) == rows
  {
    if rows != [] {
      ReadRowUndoesRowLine(rows[0]);
      ReadLinesAt(lines[1..], rows[1..]);
    }
  }

  /** The rendered rows parse back to the same cells: no cell can forge a null, a cell or a row. */
  lemma ReadLinesUndoRowLines(rows: seq<Row>)
    requires forall i :: 0 <= i < |rows| ==> |rows[i]| >= 1
    ensures ReadLines(Lines(RowLines(rows))) == rows
  {
    LinesOfRowLines(rows);
    ReadLinesAt(Lines(RowLines(rows)), rows);
  }
}
