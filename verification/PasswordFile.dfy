/** Password files: crates/ownpg-core/src/config/libpq.rs. */
module PasswordFile {
  import opened Basics

  /** The fields from i on, with what the current field holds so far. A backslash takes the next character. */
  function FieldsFrom(line: string, i: nat, current: string): (fields: seq<string>)
    requires i <= |line|
    ensures |fields| >= 1
    decreases |line| - i
  {
    if i == |line| then [current]
    else if line[i] == '\\' then (if i + 1 == |line| then [current] else FieldsFrom(line, i + 2, current + [line[i + 1]]))
    else if line[i] == ':' then [current] + FieldsFrom(line, i + 1, "")
    else FieldsFrom(line, i + 1, current + [line[i]])
  }

  method SplitPasswordLine(line: string) returns (fields: seq<string>)
    ensures fields == FieldsFrom(line, 0, "")
  {
    fields := [];
    var current := "";
    var i := 0;
    while i < |line|
      invariant 0 <= i <= |line|
      invariant FieldsFrom(line, 0, "") == fields + FieldsFrom(line, i, current)
    {
      var c := line[i];
      i := i + 1;
      if c == '\\' {
        if i < |line| {
          current := current + [line[i]];
          i := i + 1;
        }
      } else if c == ':' {
        assert fields + ([current] + FieldsFrom(line, i, "")) == fields + [current] + FieldsFrom(line, i, "");
        fields := fields + [current];
        current := "";
      } else {
        current := current + [c];
      }
    }
    fields := fields + [current];
  }

  /** A field printed with a backslash before the characters the mask picks. */
  function Masked(text: string, mask: seq<bool>): string
    requires |mask| == |text|
  {
    if text == [] then [] else (if mask[0] then ['\\', text[0]] else [text[0]]) + Masked(text[1..], mask[1..])
  }

  /** Every backslash is escaped, and every colon where colons must be. */
  predicate Escapes(text: string, mask: seq<bool>, colons: bool) {
    && |mask| == |text|
    && forall i :: 0 <= i < |text| && (text[i] == '\\' || (colons && text[i] == ':')) ==> mask[i]
  }

  /** The pieces of a text at its colons that the mask leaves bare. */
  function BarePieces(text: string, mask: seq<bool>): (pieces: seq<string>)
    requires |mask| == |text|
    ensures |pieces| >= 1
  {
    if text == [] then [""]
    else
      var rest := BarePieces(text[1..], mask[1..]);
      if text[0] == ':' && !mask[0] then [""] + rest else [[text[0]] + rest[0]] + rest[1..]
  }

  lemma JoinedFront(piece: string, rest: seq<string>)
    requires rest != []
    ensures Joined([piece] + rest, ':') == piece + ":" + Joined(rest, ':')
  {
    assert ([piece] + rest)[1..] == rest;
  }

  lemma JoinedLonger(c: char, pieces: seq<string>)
    requires pieces != []
    ensures Joined([[c] + pieces[0]] + pieces[1..], ':') == [c] + Joined(pieces, ':')
  {
    assert ([[c] + pieces[0]] + pieces[1..])[1..] == pieces[1..];
  }

  lemma {:induction false} JoinedBarePieces(text: string, mask: seq<bool>)
    requires |mask| == |text|
    ensures Joined(BarePieces(text, mask), ':') == text
  {
    if text != [] {
      var rest := BarePieces(text[1..], mask[1..]);
      JoinedBarePieces(text[1..], mask[1..]);
      assert [text[0]] + text[1..] == text;
      if text[0] == ':' && !mask[0] {
        JoinedFront("", rest);
      } else {
        JoinedLonger(text[0], rest);
      }
    }
  }

  /** Where no colon is left bare there is one piece. */
  lemma {:induction false} OnePiece(text: string, mask: seq<bool>)
    requires |mask| == |text| && forall i :: 0 <= i < |text| && text[i] == ':' ==> mask[i]
    ensures BarePieces(text, mask) == [text]
  {
    if text != [] {
      assert forall i :: 0 <= i < |text[1..]| ==> text[1..][i] == text[i + 1] && mask[1..][i] == mask[i + 1];
      OnePiece(text[1..], mask[1..]);
      assert [text[0]] + text[1..] == text;
    }
  }

  /** What reading a text's pieces after the current field, and the line from end on, comes to. */
  function PiecesThen(line: string, end: nat, current: string, pieces: seq<string>): (fields: seq<string>)
    requires end <= |line| && |pieces| >= 1
    decreases |pieces|
  {
    if |pieces| == 1 then FieldsFrom(line, end, current + pieces[0])
    else [current + pieces[0]] + PiecesThen(line, end, "", pieces[1..])
  }

  lemma {:induction false} PiecesAtTheEnd(line: string, current: string, pieces: seq<string>)
    requires |pieces| >= 1
    ensures PiecesThen(line, |line|, current, pieces) == [current + pieces[0]] + pieces[1..]
    decreases |pieces|
  {
    if |pieces| > 1 {
      PiecesAtTheEnd(line, "", pieces[1..]);
      assert "" + pieces[1] == pieces[1];
      assert [pieces[1]] + pieces[1..][1..] == pieces[1..];
    }
  }

  /** Reading over a masked text adds its first piece to the current field and gives the others fields of their own. */
  lemma {:induction false} FieldsOverMasked(line: string, i: nat, text: string, mask: seq<bool>, current: string)
    requires Escapes(text, mask, false) && Holds(line, i, Masked(text, mask))
    ensures FieldsFrom(line, i, current) == PiecesThen(line, i + |Masked(text, mask)|, current, BarePieces(text, mask))
    decreases |text|
  {
    if text == [] {
      assert current + "" == current;
    } else {
      var pieces, rest := BarePieces(text, mask), BarePieces(text[1..], mask[1..]);
      var head := if mask[0] then ['\\', text[0]] else [text[0]];
      HoldsParts(line, i, head, Masked(text[1..], mask[1..]));
      HoldsAt(line, i, head, 0);
      HoldsAt(line, i, head, |head| - 1);
      if text[0] == ':' && !mask[0] {
        FieldsOverMasked(line, i + 1, text[1..], mask[1..], "");
        assert pieces[1..] == rest;
        assert current + pieces[0] == current;
      } else {
        FieldsOverMasked(line, i + |head|, text[1..], mask[1..], current + [text[0]]);
        assert current + [text[0]] + rest[0] == current + pieces[0];
        assert pieces[1..] == rest[1..];
      }
    }
  }

  /** A field whose colons are all escaped, followed by a colon. */
  lemma FieldIsRead(line: string, i: nat, text: string, mask: seq<bool>, after: string)
    requires Escapes(text, mask, true) && Holds(line, i, (Masked(text, mask) + ":") + after)
    ensures Holds(line, i + |Masked(text, mask)| + 1, after)
    ensures FieldsFrom(line, i, "") == [text] + FieldsFrom(line, i + |Masked(text, mask)| + 1, "")
  {
    HoldsParts(line, i, Masked(text, mask) + ":", after);
    HoldsParts(line, i, Masked(text, mask), ":");
    HoldsAt(line, i + |Masked(text, mask)|, ":", 0);
    FieldsOverMasked(line, i, text, mask, "");
    OnePiece(text, mask);
    assert "" + text == text;
  }

  /** One line of the file: section 34.16 of the PostgreSQL 16 documentation. */
  datatype Entry = Entry(host: string, port: string, database: string, user: string, password: string)

  datatype Masks = Masks(host: seq<bool>, port: seq<bool>, database: seq<bool>, user: seq<bool>, password: seq<bool>)

  predicate PrintableEntry(e: Entry, m: Masks) {
    && Escapes(e.host, m.host, true) && Escapes(e.port, m.port, true) && Escapes(e.database, m.database, true)
    && Escapes(e.user, m.user, true) && Escapes(e.password, m.password, false)
  }

  function EntryText(e: Entry, m: Masks): string
    requires PrintableEntry(e, m)
  {
    (Masked(e.host, m.host) + ":") + ((Masked(e.port, m.port) + ":") + AfterPort(e, m))
  }

  function AfterPort(e: Entry, m: Masks): string
    requires PrintableEntry(e, m)
  {
    (Masked(e.database, m.database) + ":") + ((Masked(e.user, m.user) + ":") + Masked(e.password, m.password))
  }

  /** The text from the fifth field on, its colons put back. */
  function PasswordOf(fields: seq<string>): string
    requires |fields| >= 5
  {
    Joined(fields[4..], ':')
  }

  lemma PasswordIsRead(line: string, i: nat, e: Entry, m: Masks)
    requires PrintableEntry(e, m) && Holds(line, i, Masked(e.password, m.password))
    requires i + |Masked(e.password, m.password)| == |line|
    ensures FieldsFrom(line, i, "") == BarePieces(e.password, m.password)
  {
    var pieces := BarePieces(e.password, m.password);
    FieldsOverMasked(line, i, e.password, m.password, "");
    PiecesAtTheEnd(line, "", pieces);
    assert "" + pieces[0] == pieces[0];
    assert [pieces[0]] + pieces[1..] == pieces;
  }

  lemma FromUser(line: string, i: nat, e: Entry, m: Masks)
    requires PrintableEntry(e, m) && Holds(line, i, (Masked(e.user, m.user) + ":") + Masked(e.password, m.password))
    requires i + |(Masked(e.user, m.user) + ":") + Masked(e.password, m.password)| == |line|
    ensures FieldsFrom(line, i, "") == [e.user] + BarePieces(e.password, m.password)
  {
    FieldIsRead(line, i, e.user, m.user, Masked(e.password, m.password));
    PasswordIsRead(line, i + |Masked(e.user, m.user)| + 1, e, m);
  }

  lemma TwoInFront(a: string, b: string, rest: seq<string>)
    ensures [a] + ([b] + rest) == [a, b] + rest
  {
  }

  lemma FromDatabase(line: string, i: nat, e: Entry, m: Masks)
    requires PrintableEntry(e, m) && Holds(line, i, AfterPort(e, m)) && i + |AfterPort(e, m)| == |line|
    ensures FieldsFrom(line, i, "") == [e.database, e.user] + BarePieces(e.password, m.password)
  {
    FieldIsRead(line, i, e.database, m.database, (Masked(e.user, m.user) + ":") + Masked(e.password, m.password));
    FromUser(line, i + |Masked(e.database, m.database)| + 1, e, m);
    TwoInFront(e.database, e.user, BarePieces(e.password, m.password));
  }

  lemma FourInFront(a: string, b: string, c: string, d: string, rest: seq<string>)
    ensures [a] + ([b] + ([c, d] + rest)) == [a, b, c, d] + rest
  {
  }

  lemma FromPort(line: string, i: nat, e: Entry, m: Masks)
    requires PrintableEntry(e, m)
    requires Holds(line, i, (Masked(e.port, m.port) + ":") + AfterPort(e, m))
    requires i + |(Masked(e.port, m.port) + ":") + AfterPort(e, m)| == |line|
    ensures FieldsFrom(line, i, "") == [e.port] + ([e.database, e.user] + BarePieces(e.password, m.password))
  {
    FieldIsRead(line, i, e.port, m.port, AfterPort(e, m));
    FromDatabase(line, i + |Masked(e.port, m.port)| + 1, e, m);
  }

  lemma FromHost(line: string, i: nat, e: Entry, m: Masks)
    requires PrintableEntry(e, m) && Holds(line, i, EntryText(e, m)) && i + |EntryText(e, m)| == |line|
    ensures FieldsFrom(line, i, "") == [e.host, e.port, e.database, e.user] + BarePieces(e.password, m.password)
  {
    var j := i + |Masked(e.host, m.host)| + 1;
    FieldIsRead(line, i, e.host, m.host, (Masked(e.port, m.port) + ":") + AfterPort(e, m));
    FromPort(line, j, e, m);
    FourInFront(e.host, e.port, e.database, e.user, BarePieces(e.password, m.password));
  }

  lemma EntryFields(e: Entry, m: Masks)
    requires PrintableEntry(e, m)
    ensures FieldsFrom(EntryText(e, m), 0, "") == [e.host, e.port, e.database, e.user] + BarePieces(e.password, m.password)
  {
    FromHost(EntryText(e, m), 0, e, m);
  }

  /** Splitting a printed line returns its four fields and the password, even where the password's colons are bare. */
  lemma SplitUndoesEntryText(e: Entry, m: Masks)
    requires PrintableEntry(e, m)
    ensures var fields := FieldsFrom(EntryText(e, m), 0, "");
            && |fields| >= 5
            && Entry(fields[0], fields[1], fields[2], fields[3], PasswordOf(fields)) == e
  {
    EntryFields(e, m);
    JoinedBarePieces(e.password, m.password);
    var fields := FieldsFrom(EntryText(e, m), 0, "");
    assert fields[4..] == BarePieces(e.password, m.password);
  }

  // Looking a password up.

  const LOCALHOST := "localhost"

  datatype Wanted = Wanted(host: string, port: string, database: string, user: string)

  function TrimLineEnd(s: string): string {
    if s != [] && (s[|s| - 1] == '\r' || s[|s| - 1] == '\n') then TrimLineEnd(s[..|s| - 1]) else s
  }

  predicate IsComment(line: string) {
    Trim(line) == [] || (TrimStart(line) != [] && TrimStart(line)[0] == '#')
  }

  predicate FieldMatches(field: string, want: string) {
    field == "*" || field == want
  }

  /** The password of a line that answers the question. */
  function AnswerOf(raw: string, want: Wanted): Option<string> {
    var line := TrimLineEnd(raw);
    if IsComment(line) then None
    else
      var fields := FieldsFrom(line, 0, "");
      if |fields| < 5 then None
      else if FieldMatches(fields[0], want.host) && FieldMatches(fields[1], want.port)
              && FieldMatches(fields[2], want.database) && FieldMatches(fields[3], want.user)
      then Some(PasswordOf(fields))
      else None
  }

  /** A socket directory, or no host at all, is looked up as localhost. */
  function HostKey(host: Option<string>, isSocketDirectory: string -> bool): string {
    match host
    case Some(name) => if isSocketDirectory(name) then LOCALHOST else name
    case None => LOCALHOST
  }

  /** The first line that answers wins. */
  method PasswordFromLines(lines: seq<string>, want: Wanted) returns (password: Option<string>)
    ensures password.None? ==> forall i :: 0 <= i < |lines| ==> AnswerOf(lines[i], want).None?
    ensures password.Some? ==> exists i :: 0 <= i < |lines| && AnswerOf(lines[i], want) == password
                                           && forall j :: 0 <= j < i ==> AnswerOf(lines[j], want).None?
  {
    for i := 0 to |lines|
      invariant forall j :: 0 <= j < i ==> AnswerOf(lines[j], want).None?
    {
      var line := TrimLineEnd(lines[i]);
      if IsComment(line) {
        continue;
      }
      var fields := SplitPasswordLine(line);
      if |fields| < 5 {
        continue;
      }
      if FieldMatches(fields[0], want.host) && FieldMatches(fields[1], want.port)
         && FieldMatches(fields[2], want.database) && FieldMatches(fields[3], want.user) {
        assert AnswerOf(lines[i], want) == Some(Joined(fields[4..], ':'));
        return Some(Joined(fields[4..], ':'));
      }
    }
    return None;
  }

  /** A printed entry answers exactly the questions its fields match, with its password; a field that is a lone
      star matches everything, printed bare or escaped. */
  lemma EntryAnswers(e: Entry, m: Masks, want: Wanted)
    requires PrintableEntry(e, m)
    requires !IsComment(EntryText(e, m)) && TrimLineEnd(EntryText(e, m)) == EntryText(e, m)
    ensures AnswerOf(EntryText(e, m), want)
            == if FieldMatches(e.host, want.host) && FieldMatches(e.port, want.port)
                  && FieldMatches(e.database, want.database) && FieldMatches(e.user, want.user)
               then Some(e.password) else None
  {
    SplitUndoesEntryText(e, m);
  }
}
