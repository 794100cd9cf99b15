/** The hash-chained audit file and its verifier: crates/ownpg-core/src/audit.rs. */
module AuditLog {
  import opened Basics

  type Bytes = seq<byte>

  const NEWLINE: byte := 0x0a

  // A file as lines.

  /** A file's lines, and what follows its last newline. */
  datatype Text = Text(lines: seq<Bytes>, torn: Bytes)

  /** One byte more. */
  function Extended(text: Text, b: byte): Text {
    if b == NEWLINE then Text(text.lines + [text.torn], []) else Text(text.lines, text.torn + [b])
  }

  function Split(file: Bytes): Text {
    if file == [] then Text([], []) else Extended(Split(file[..|file| - 1]), file[|file| - 1])
  }

  function LinesOf(file: Bytes): seq<Bytes> {
    Split(file).lines
  }

  /** What follows the last newline. */
  function Torn(file: Bytes): Bytes {
    Split(file).torn
  }

  function LastLine(file: Bytes): Bytes
    requires LinesOf(file) != []
  {
    LinesOf(file)[|LinesOf(file)| - 1]
  }

  /** The bytes of some lines, each with its newline. */
  function Written(lines: seq<Bytes>): Bytes {
    if lines == [] then [] else Written(lines[..|lines| - 1]) + lines[|lines| - 1] + [NEWLINE]
  }

  predicate OneLine(line: Bytes) {
    NEWLINE !in line
  }

  /** A file is its lines, each with its newline, and what is torn. */
  lemma {:induction false} FileIsItsLines(file: Bytes)
    ensures file == Written(LinesOf(file)) + Torn(file)
    ensures OneLine(Torn(file)) && forall line :: line in LinesOf(file) ==> OneLine(line)
  {
    if file != [] {
      var front, last := file[..|file| - 1], file[|file| - 1];
      FileIsItsLines(front);
      assert file == front + [last];
      if last == NEWLINE {
        OneMoreWritten(LinesOf(front), Torn(front));
      }
    }
  }

  lemma OneMoreWritten(lines: seq<Bytes>, line: Bytes)
    ensures Written(lines + [line]) == Written(lines) + line + [NEWLINE]
  {
    assert (lines + [line])[..|lines|] == lines;
  }

  lemma {:induction false} SplitUntorn(file: Bytes, part: Bytes)
    requires Torn(file) == [] && OneLine(part)
    ensures Split(file + part) == Text(LinesOf(file), part)
  {
    if part == [] {
      assert file + part == file;
    } else {
      var front := part[..|part| - 1];
      SplitUntorn(file, front);
      assert (file + part)[..|file + part| - 1] == file + front;
      assert part == front + [part[|part| - 1]];
    }
  }

  lemma SplitNext(file: Bytes, k: nat)
    requires k < |file|
    ensures Split(file[..k + 1]) == Extended(Split(file[..k]), file[k])
  {
    assert file[..k + 1][..k] == file[..k];
  }

  lemma SplitByte(file: Bytes, b: byte)
    ensures Split(file + [b]) == Extended(Split(file), b)
  {
    assert (file + [b])[..|file|] == file;
  }

  /** A line appended with its newline is one line more. */
  lemma SplitAppend(file: Bytes, line: Bytes)
    requires Torn(file) == [] && OneLine(line)
    ensures Split(file + line + [NEWLINE]) == Text(LinesOf(file) + [line], [])
  {
    SplitUntorn(file, line);
    SplitByte(file + line, NEWLINE);
  }

  // The verifier.

  /** What the verifier reads from a line: the members it looks at, where present. */
  datatype Record = Record(version: Option<nat>, prev: Option<string>, marker: Option<string>, rotatedFrom: bool, resumed: bool)

  const FORMAT_VERSION: nat := 1
  const CHAIN_START := "chain-start"

  /** The hash and the JSON reader, which are libraries. */
  datatype Codec = Codec(hash: Bytes -> string, parse: Bytes -> Option<Record>)

  ghost predicate CollisionFree(codec: Codec) {
    && (forall a, b :: codec.hash(a) == codec.hash(b) ==> a == b)
    && (forall a :: codec.hash(a) != "")
  }

  datatype Fault =
    | NotJson(line: nat)
    | NoVersion(line: nat)
    | NewerVersion(line: nat)
    | NoPrev(line: nat)
    | NoChainStart
    | HeadMissing
    | NewFileInside(line: nat)
    | BrokenLink(line: nat)
    | CutOff(line: nat)

  /** Where the chain stands: the hash of the last line, and the entries so far. */
  datatype Standing = Standing(prev: string, count: nat)

  predicate StartsFile(record: Record) {
    record.marker == Some(CHAIN_START) && (record.rotatedFrom || record.resumed)
  }

  /** The checks on one line; lines are numbered from 1. */
  function Step(standing: Standing, number: nat, line: Bytes, codec: Codec): Result<Standing, Fault> {
    var parsed := codec.parse(line);
    if parsed.None? then Err(NotJson(number))
    else
      var record := parsed.value;
      if record.version.None? then Err(NoVersion(number))
      else if record.version.value > FORMAT_VERSION then Err(NewerVersion(number))
      else if record.prev.None? then Err(NoPrev(number))
      else if number == 1 && record.marker != Some(CHAIN_START) then Err(NoChainStart)
      else if number == 1 && record.prev.value != "" && !StartsFile(record) then Err(HeadMissing)
      else if number != 1 && StartsFile(record) then Err(NewFileInside(number))
      else if number != 1 && record.prev.value != standing.prev then Err(BrokenLink(number))
      else Ok(Standing(codec.hash(line), standing.count + if record.marker.None? then 1 else 0))
  }

  /** Where the chain stands after the first k lines. */
  function Verified(lines: seq<Bytes>, k: nat, codec: Codec): Result<Standing, Fault>
    requires k <= |lines|
  {
    if k == 0 then Ok(Standing("", 0))
    else
      match Verified(lines, k - 1, codec)
      case Err(fault) => Err(fault)
      case Ok(standing) => Step(standing, k, lines[k - 1], codec)
  }

  function Standings(lines: seq<Bytes>, codec: Codec): Result<Standing, Fault> {
    Verified(lines, |lines|, codec)
  }

  /** What verify_chain answers: the number of entries, or the first fault. */
  function Verify(file: Bytes, codec: Codec): Result<nat, Fault> {
    match Standings(LinesOf(file), codec)
    case Err(fault) => Err(fault)
    case Ok(standing) => if Torn(file) != [] then Err(CutOff(|LinesOf(file)| + 1)) else Ok(standing.count)
  }

  lemma {:induction false} SameLines(a: seq<Bytes>, b: seq<Bytes>, k: nat, codec: Codec)
    requires k <= |a| && k <= |b| && forall i :: 0 <= i < k ==> a[i] == b[i]
    ensures Verified(a, k, codec) == Verified(b, k, codec)
  {
    if k > 0 { SameLines(a, b, k - 1, codec); }
  }

  lemma {:induction false} FirstFaultStays(lines: seq<Bytes>, k: nat, codec: Codec)
    requires k <= |lines| && Verified(lines, k, codec).Err?
    ensures Verified(lines, |lines|, codec) == Verified(lines, k, codec)
    decreases |lines| - k
  {
    if k < |lines| { FirstFaultStays(lines, k + 1, codec); }
  }

  /** One more line takes the chain one step further. */
  lemma OneMoreLine(lines: seq<Bytes>, line: Bytes, codec: Codec)
    ensures Standings(lines + [line], codec) == match Standings(lines, codec)
                                                case Err(fault) => Err(fault)
                                                case Ok(standing) => Step(standing, |lines| + 1, line, codec)
  {
    SameLines(lines + [line], lines, |lines|, codec);
  }

  /** Splitting goes on where it stood: what a longer file holds begins with the lines of the shorter. */
  lemma {:induction false} SplitGrows(file: Bytes, k: nat)
    requires k <= |file|
    ensures LinesOf(file[..k]) <= LinesOf(file)
    decreases |file| - k
  {
    if k == |file| {
      assert file[..k] == file;
    } else {
      SplitGrows(file, k + 1);
      SplitNext(file, k);
    }
  }

  /** Reads up to and including the next newline, and says whether there was one. */
  method ReadLine(file: Bytes, start: nat) returns (line: Bytes, end: nat, whole: bool)
    requires start < |file| && Torn(file[..start]) == []
    ensures start < end <= |file|
    ensures whole ==> Split(file[..end]) == Text(LinesOf(file[..start]) + [line], [])
    ensures !whole ==> end == |file| && line != [] && Split(file) == Text(LinesOf(file[..start]), line)
  {
    end := start;
    line := [];
    while end < |file| && file[end] != NEWLINE
      invariant start <= end <= |file|
      invariant Split(file[..end]) == Text(LinesOf(file[..start]), line)
      invariant line == [] ==> end == start
    {
      SplitNext(file, end);
      line := line + [file[end]];
      end := end + 1;
    }
    whole := end < |file|;
    if whole {
      SplitNext(file, end);
      end := end + 1;
    } else {
      assert file[..end] == file;
    }
  }

  method VerifyChain(file: Bytes, codec: Codec) returns (r: Result<nat, Fault>)
    ensures r == Verify(file, codec)
  {
    var prev := "";
    var count := 0;
    var number := 0;
    var at := 0;
    assert file[..0] == [];
    while at < |file|
      invariant 0 <= at <= |file|
      invariant Torn(file[..at]) == [] && |LinesOf(file[..at])| == number
      invariant Standings(LinesOf(file[..at]), codec) == Ok(Standing(prev, count))
    {
      var line, end, whole := ReadLine(file, at);
      number := number + 1;
      if !whole {
        return Err(CutOff(number));
      }
      OneMoreLine(LinesOf(file[..at]), line, codec);
      var step := Step(Standing(prev, count), number, line, codec);
      if step.Err? {
        SplitGrows(file, end);
        SameLines(LinesOf(file), LinesOf(file[..end]), number, codec);
        FirstFaultStays(LinesOf(file), number, codec);
        return Err(step.error);
      }
      prev := step.value.prev;
      count := step.value.count;
      at := end;
    }
    assert file[..at] == file;
    return Ok(count);
  }

  // The last line determines the file.

  lemma {:induction false} PrefixVerified(lines: seq<Bytes>, k: nat, n: nat, codec: Codec)
    requires k <= n <= |lines| && Verified(lines, n, codec).Ok?
    ensures Verified(lines, k, codec).Ok?
    ensures k > 0 ==> Verified(lines, k, codec).value.prev == codec.hash(lines[k - 1])
  {
    if k < n { PrefixVerified(lines, k, n - 1, codec); }
  }

  /** Two chains that end in the same line are the same chain. */
  lemma {:induction false} SameEnd(a: seq<Bytes>, i: nat, b: seq<Bytes>, j: nat, codec: Codec)
    requires CollisionFree(codec)
    requires 0 < i <= |a| && 0 < j <= |b| && a[i - 1] == b[j - 1]
    requires Verified(a, i, codec).Ok? && Verified(b, j, codec).Ok?
    ensures i == j && a[..i] == b[..j]
    decreases i
  {
    PrefixVerified(a, i - 1, i, codec);
    PrefixVerified(b, j - 1, j, codec);
    if i > 1 && j > 1 {
      assert codec.hash(a[i - 2]) == codec.hash(b[j - 2]);
      SameEnd(a, i - 1, b, j - 1, codec);
      assert a[..i] == a[..i - 1] + [a[i - 1]] && b[..j] == b[..j - 1] + [b[j - 1]];
    }
  }

  /** Under a collision-free hash the last line of a verified log determines the whole file: two files the verifier
      accepts that end in the same line are equal byte for byte. */
  lemma LastLineDeterminesFile(a: Bytes, b: Bytes, codec: Codec)
    requires CollisionFree(codec)
    requires Verify(a, codec).Ok? && Verify(b, codec).Ok?
    requires LinesOf(a) != [] && LinesOf(b) != [] && LastLine(a) == LastLine(b)
    ensures a == b
  {
    var la, lb := LinesOf(a), LinesOf(b);
    SameEnd(la, |la|, lb, |lb|, codec);
    assert la[..|la|] == la && lb[..|lb|] == lb;
    FileIsItsLines(a);
    FileIsItsLines(b);
  }

  /** So an edit, an insertion, a deletion or a reordering that keeps the last line is rejected. */
  lemma TamperingIsRejected(original: Bytes, tampered: Bytes, codec: Codec)
    requires CollisionFree(codec) && Verify(original, codec).Ok? && tampered != original
    requires LinesOf(original) != [] && LinesOf(tampered) != [] && LastLine(original) == LastLine(tampered)
    ensures Verify(tampered, codec).Err?
  {
    if Verify(tampered, codec).Ok? {
      LastLineDeterminesFile(original, tampered, codec);
    }
  }

  lemma WholeLinesAreAccepted(original: Bytes, cut: Bytes, codec: Codec)
    requires Verify(original, codec).Ok? && Torn(cut) == []
    requires LinesOf(cut) <= LinesOf(original)
    ensures Verify(cut, codec).Ok?
  {
    var n := |LinesOf(cut)|;
    PrefixVerified(LinesOf(original), n, |LinesOf(original)|, codec);
    SameLines(LinesOf(original), LinesOf(cut), n, codec);
  }

  /** What the chain does not show: an accepted file that is cut back is still accepted, exactly when it ends with a whole
      line. */
  lemma CutBackFileIsAcceptedExactlyWhen(original: Bytes, k: nat, codec: Codec)
    requires Verify(original, codec).Ok? && k <= |original|
    ensures Verify(original[..k], codec).Ok? <==> k == 0 || original[k - 1] == NEWLINE
  {
    SplitGrows(original, k);
    var cut := original[..k];
    if k > 0 {
      assert cut[..k - 1] == original[..k - 1];
      SplitNext(original, k - 1);
    }
    if Torn(cut) == [] { WholeLinesAreAccepted(original, cut, codec); }
  }

  // Entries.

  predicate IsEntry(line: Bytes, codec: Codec) {
    codec.parse(line).Some? && codec.parse(line).value.marker.None?
  }

  /** The entries among some lines: those that are no markers. */
  function EntryLines(lines: seq<Bytes>, codec: Codec): seq<Bytes> {
    if lines == [] then []
    else
      var last := lines[|lines| - 1];
      EntryLines(lines[..|lines| - 1], codec) + if IsEntry(last, codec) then [last] else []
  }

  function Entries(file: Bytes, codec: Codec): seq<Bytes> {
    EntryLines(LinesOf(file), codec)
  }

  lemma {:induction false} CountIsEntries(lines: seq<Bytes>, codec: Codec)
    requires Standings(lines, codec).Ok?
    ensures Standings(lines, codec).value.count == |EntryLines(lines, codec)|
  {
    if lines != [] {
      var front := lines[..|lines| - 1];
      assert lines == front + [lines[|lines| - 1]];
      OneMoreLine(front, lines[|lines| - 1], codec);
      CountIsEntries(front, codec);
    }
  }

  /** The verifier counts the entries. */
  lemma VerifyCountsEntries(file: Bytes, codec: Codec)
    requires Verify(file, codec).Ok?
    ensures Verify(file, codec).value == |Entries(file, codec)|
  {
    CountIsEntries(LinesOf(file), codec);
  }

  // Appending.

  /** A line appended to a verified file: the file verifies exactly when the line links to the one before it. */
  lemma AppendedLine(file: Bytes, line: Bytes, codec: Codec)
    requires Verify(file, codec).Ok? && OneLine(line)
    ensures var longer := file + line + [NEWLINE];
            && Split(longer) == Text(LinesOf(file) + [line], [])
            && LastLine(longer) == line
            && Entries(longer, codec) == Entries(file, codec) + (if IsEntry(line, codec) then [line] else [])
            && (Verify(longer, codec).Ok? <==>
                Step(Standings(LinesOf(file), codec).value, |LinesOf(file)| + 1, line, codec).Ok?)
  {
    SplitAppend(file, line);
    OneMoreLine(LinesOf(file), line, codec);
    assert (LinesOf(file) + [line])[..|LinesOf(file)|] == LinesOf(file);
  }

  // Recovering the end of a file.

  const TAIL_SCAN_BYTES: nat := 65_536

  /** The part of the file the recovery reads. */
  function Tail(file: Bytes): Bytes {
    if |file| <= TAIL_SCAN_BYTES then file else file[|file| - TAIL_SCAN_BYTES..]
  }

  /** The bytes whose hash recover_tail links to: what follows the last newline of the tail, not counting a newline the
      file ends with. */
  function RecoveredLine(file: Bytes): Bytes
    requires file != []
  {
    var tail := Tail(file);
    if tail[|tail| - 1] == NEWLINE then Torn(tail[..|tail| - 1]) else Torn(tail)
  }

  predicate AtLineStart(before: Bytes) {
    before == [] || before[|before| - 1] == NEWLINE
  }

  lemma {:induction false} TornAfterLineStart(before: Bytes, part: Bytes)
    requires AtLineStart(before) && OneLine(part)
    ensures Torn(before + part) == part
  {
    if before != [] {
      assert before == before[..|before| - 1] + [NEWLINE];
      SplitByte(before[..|before| - 1], NEWLINE);
    }
    SplitUntorn(before, part);
  }

  lemma {:induction false} WrittenAtLineStart(lines: seq<Bytes>)
    ensures AtLineStart(Written(lines))
  {
  }

  lemma {:induction false} TornIsShort(s: Bytes)
    ensures |Torn(s)| <= |s|
  {
    FileIsItsLines(s);
  }

  /** Reading a suffix of a text whose last line starts after `before`. */
  lemma SuffixTorn(before: Bytes, part: Bytes, from: nat)
    requires AtLineStart(before) && OneLine(part) && from <= |before + part|
    ensures Torn((before + part)[from..]) == part <==> from <= |before|
  {
    if from <= |before| {
      assert (before + part)[from..] == before[from..] + part;
      TornAfterLineStart(before[from..], part);
    } else {
      TornIsShort((before + part)[from..]);
    }
  }

  /** The recovery finds the last line of an untorn file exactly when that line and its newline fit the window. */
  lemma RecoveryFindsLastLine(file: Bytes)
    requires file != [] && Torn(file) == []
    ensures LinesOf(file) != []
    ensures RecoveredLine(file) == LastLine(file) <==> |LastLine(file)| + 1 <= TAIL_SCAN_BYTES
  {
    FileIsItsLines(file);
    var lines := LinesOf(file);
    var before := Written(lines[..|lines| - 1]);
    WrittenAtLineStart(lines[..|lines| - 1]);
    assert file == before + LastLine(file) + [NEWLINE];
    var whole := before + LastLine(file);
    var from := |file| - |Tail(file)|;
    assert Tail(file)[..|Tail(file)| - 1] == whole[from..];
    SuffixTorn(before, LastLine(file), from);
  }

  /** It finds a torn line exactly when that fits the window. */
  lemma RecoveryFindsTornLine(file: Bytes)
    requires Torn(file) != []
    ensures file != []
    ensures RecoveredLine(file) == Torn(file) <==> |Torn(file)| <= TAIL_SCAN_BYTES
  {
    FileIsItsLines(file);
    var before := Written(LinesOf(file));
    WrittenAtLineStart(LinesOf(file));
    var from := |file| - |Tail(file)|;
    assert Tail(file) == (before + Torn(file))[from..];
    SuffixTorn(before, Torn(file), from);
    assert Tail(file)[|Tail(file)| - 1] == Torn(file)[|Torn(file)| - 1];
  }
}
