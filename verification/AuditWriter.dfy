/** The writer of the audit log: crates/ownpg-core/src/audit.rs. Every call to the file system may fail. */
module AuditWriter {
  import opened Basics
  import opened AuditLog
  import opened Pruning

  /** The lines the writer prints, without their timestamps and process numbers. */
  datatype LineText =
    | EntryText(body: string, prev: string)
    | StartText(rotatedFrom: Option<string>, resumed: bool, prev: string)
    | GapText(dropped: nat, prev: string)
    | PrunedText(names: set<string>, prev: string)

  /** The JSON printer, with the reader and the hash. */
  datatype Printer = Printer(codec: Codec, render: LineText -> Bytes)

  /** What the verifier finds in a printed line. */
  function RecordOf(text: LineText): Record {
    var marker := match text
      case EntryText(_, _) => None
      case StartText(_, _, _) => Some(CHAIN_START)
      case GapText(_, _) => Some("gap")
      case PrunedText(_, _) => Some("pruned");
    Record(Some(FORMAT_VERSION), Some(text.prev), marker, text.StartText? && text.rotatedFrom.Some?, text.StartText? && text.resumed)
  }

  /** JSON text escapes control characters, so a printed line is one line, and reads back. */
  ghost predicate Faithful(printer: Printer) {
    && (forall text :: OneLine(printer.render(text)) && printer.codec.parse(printer.render(text)) == Some(RecordOf(text)))
    && (forall line :: printer.codec.hash(line) != "")
  }

  /** A file a start may find: empty, or verified and with its last line inside the window. */
  predicate Acceptable(bytes: Bytes, codec: Codec) {
    Verify(bytes, codec).Ok? && (LinesOf(bytes) != [] ==> |LastLine(bytes)| + 1 <= TAIL_SCAN_BYTES)
  }

  /** What a file whose chain stands is like. */
  predicate Chained(bytes: Bytes, prev: string, codec: Codec) {
    Verify(bytes, codec).Ok? && LinesOf(bytes) != [] && prev == codec.hash(LastLine(bytes))
  }

  predicate OpensFile(text: LineText) {
    text.StartText? && (text.rotatedFrom.Some? || text.resumed)
  }

  function Appended(bytes: Bytes, line: Bytes): Bytes {
    bytes + line + [NEWLINE]
  }

  /** The entries once a line is written. */
  function WithEntry(entries: seq<Bytes>, text: LineText, printer: Printer): seq<Bytes> {
    if text.EntryText? then entries + [printer.render(text)] else entries
  }

  /** A line that links to the last one keeps the chain, and counts if it is an entry. */
  lemma LinkedLine(bytes: Bytes, prev: string, text: LineText, printer: Printer)
    requires Faithful(printer) && Chained(bytes, prev, printer.codec)
    requires text.prev == prev && !OpensFile(text)
    ensures var line := printer.render(text);
            && Chained(Appended(bytes, line), printer.codec.hash(line), printer.codec)
            && Entries(Appended(bytes, line), printer.codec) == WithEntry(Entries(bytes, printer.codec), text, printer)
  {
    var line := printer.render(text);
    assert OneLine(line);
    AppendedLine(bytes, line, printer.codec);
    PrefixVerified(LinesOf(bytes), |LinesOf(bytes)|, |LinesOf(bytes)|, printer.codec);
  }

  // Opening a file.

  datatype Start = Fresh | Resumed | Rotated(from: string)

  /** recover_tail ends a torn line. */
  function Mended(bytes: Bytes): Bytes {
    if Torn(bytes) == [] then bytes else bytes + [NEWLINE]
  }

  /** The marker open_file writes. */
  function StartMarker(bytes: Bytes, start: Start, carried: string, codec: Codec): LineText {
    if bytes == [] then
      StartText(if start.Rotated? then Some(start.from) else None, start.Resumed? && carried != "", carried)
    else
      StartText(None, false, codec.hash(RecoveredLine(bytes)))
  }

  function Opened(bytes: Bytes, start: Start, carried: string, printer: Printer): Bytes {
    Appended(Mended(bytes), printer.render(StartMarker(bytes, start, carried, printer.codec)))
  }

  /** The hash of that marker. */
  function StartHash(bytes: Bytes, start: Start, carried: string, printer: Printer): string {
    printer.codec.hash(printer.render(StartMarker(bytes, start, carried, printer.codec)))
  }

  lemma LastByte(bytes: Bytes)
    requires bytes != []
    ensures Torn(bytes) == [] <==> bytes[|bytes| - 1] == NEWLINE
  {
  }

  lemma NoLines(bytes: Bytes)
    ensures LinesOf(bytes) == [] && Torn(bytes) == [] <==> bytes == []
  {
    FileIsItsLines(bytes);
  }

  /** A file opened over an acceptable one verifies, with the same entries. */
  lemma OpenedVerifies(bytes: Bytes, start: Start, carried: string, printer: Printer)
    requires Faithful(printer) && Acceptable(bytes, printer.codec)
    requires start.Fresh? ==> carried == ""
    ensures Mended(bytes) == bytes
    ensures Chained(Opened(bytes, start, carried, printer), StartHash(bytes, start, carried, printer), printer.codec)
    ensures Entries(Opened(bytes, start, carried, printer), printer.codec) == Entries(bytes, printer.codec)
    ensures bytes == [] ==>
      LinesOf(Opened(bytes, start, carried, printer)) == [printer.render(StartMarker(bytes, start, carried, printer.codec))]
  {
    var marker := StartMarker(bytes, start, carried, printer.codec);
    assert OneLine(printer.render(marker));
    NoLines(bytes);
    if bytes == [] {
      AppendedLine(bytes, printer.render(marker), printer.codec);
    } else {
      RecoveryFindsLastLine(bytes);
      LinkedLine(bytes, printer.codec.hash(LastLine(bytes)), marker, printer);
    }
  }

  /** Over a verified file that is not empty, the chain goes on exactly when the last line fits the window. */
  lemma OpenedVerifiesExactlyWhen(bytes: Bytes, start: Start, carried: string, printer: Printer)
    requires Faithful(printer) && CollisionFree(printer.codec)
    requires bytes != [] && Verify(bytes, printer.codec).Ok?
    ensures LinesOf(bytes) != []
    ensures Verify(Opened(bytes, start, carried, printer), printer.codec).Ok? <==> |LastLine(bytes)| + 1 <= TAIL_SCAN_BYTES
  {
    var codec := printer.codec;
    var marker := StartMarker(bytes, start, carried, codec);
    assert OneLine(printer.render(marker));
    RecoveryFindsLastLine(bytes);
    AppendedLine(bytes, printer.render(marker), codec);
    PrefixVerified(LinesOf(bytes), |LinesOf(bytes)|, |LinesOf(bytes)|, codec);
    assert codec.hash(RecoveredLine(bytes)) == codec.hash(LastLine(bytes)) <==> RecoveredLine(bytes) == LastLine(bytes);
  }

  /** After a crash the recovered file verifies exactly when the verifier takes what was torn for the next line. */
  lemma TornFileVerifiesExactlyWhen(bytes: Bytes, start: Start, carried: string, printer: Printer)
    requires Faithful(printer)
    requires Torn(bytes) != [] && |Torn(bytes)| <= TAIL_SCAN_BYTES
    requires Standings(LinesOf(bytes), printer.codec).Ok?
    ensures Verify(Opened(bytes, start, carried, printer), printer.codec).Ok? <==>
            Step(Standings(LinesOf(bytes), printer.codec).value, |LinesOf(bytes)| + 1, Torn(bytes), printer.codec).Ok?
  {
    var codec := printer.codec;
    var lines, torn := LinesOf(bytes), Torn(bytes);
    NoLines(bytes);
    RecoveryFindsTornLine(bytes);
    SplitByte(bytes, NEWLINE);
    OneMoreLine(lines, torn, codec);
    var line := printer.render(StartMarker(bytes, start, carried, codec));
    assert OneLine(line);
    SplitAppend(Mended(bytes), line);
    OneMoreLine(lines + [torn], line, codec);
  }

  /** What is cut off a printed line is no JSON text any more. */
  ghost predicate NoPartParses(printer: Printer) {
    forall text, k: nat :: k < |printer.render(text)| ==> printer.codec.parse(printer.render(text)[..k]).None?
  }

  /** After a crash within the writing of a line that would have verified, the recovered file verifies exactly when the
      whole line had been written and only its newline had not. */
  lemma CrashedWriteVerifiesExactlyWhen(bytes: Bytes, text: LineText, k: nat, start: Start, carried: string, printer: Printer)
    requires Faithful(printer) && NoPartParses(printer)
    requires Verify(bytes, printer.codec).Ok? && Verify(Appended(bytes, printer.render(text)), printer.codec).Ok?
    requires 0 < k <= |printer.render(text)| && k <= TAIL_SCAN_BYTES
    ensures Verify(Opened(bytes + printer.render(text)[..k], start, carried, printer), printer.codec).Ok? <==>
            k == |printer.render(text)|
  {
    var codec := printer.codec;
    var line := printer.render(text);
    var part := line[..k];
    assert OneLine(line);
    SplitUntorn(bytes, part);
    SplitAppend(bytes, line);
    OneMoreLine(LinesOf(bytes), line, codec);
    TornFileVerifiesExactlyWhen(bytes + part, start, carried, printer);
    if k == |line| {
      assert part == line;
    } else {
      assert codec.parse(part).None?;
    }
  }

  /** The cut-back after a failed write matters: if part of a line stays, the line after the next is refused. */
  lemma PartialLineBreaksTheChain(bytes: Bytes, partial: Bytes, first: LineText, second: LineText, printer: Printer)
    requires Faithful(printer) && CollisionFree(printer.codec)
    requires Verify(bytes, printer.codec).Ok? && OneLine(partial) && partial != []
    requires second.prev == printer.codec.hash(printer.render(first))
    ensures Verify(Appended(Appended(bytes + partial, printer.render(first)), printer.render(second)), printer.codec).Err?
  {
    var codec := printer.codec;
    var one, two := printer.render(first), printer.render(second);
    assert OneLine(one) && OneLine(two);
    assert Appended(bytes + partial, one) == Appended(bytes, partial + one);
    SplitAppend(bytes, partial + one);
    SplitAppend(Appended(bytes, partial + one), two);
    var lines := LinesOf(bytes) + [partial + one];
    OneMoreLine(LinesOf(bytes), partial + one, codec);
    OneMoreLine(lines, two, codec);
    assert |partial + one| > |one|;
    assert codec.hash(partial + one) != codec.hash(one);
  }

  // The file system.

  /** A file; recorded are the entries it should hold: those it began with, and those recorded since. */
  class LogFile {
    var bytes: Bytes
    ghost var recorded: seq<Bytes>

    constructor (bytes: Bytes, ghost recorded: seq<Bytes>)
      ensures this.bytes == bytes && this.recorded == recorded
    {
      this.bytes, this.recorded := bytes, recorded;
    }
  }

  /** The file at the configured path, if there is one, and the rotated files by name. */
  class Disk {
    var base: LogFile?
    var closed: map<string, LogFile>

    constructor (base: LogFile?)
      ensures this.base == base && closed == map[]
    {
      this.base := base;
      this.closed := map[];
    }

    ghost function Files(): set<LogFile>
      reads this
    {
      if base == null then {} else {base}
    }

    function Bytes(): Bytes
      reads this, base
    {
      if base == null then [] else base.bytes
    }
  }

  class OpenLog {
    const file: LogFile
    var written: nat
    var prev: string
    var rotatedTo: Option<string>

    constructor (file: LogFile, written: nat, prev: string)
      ensures this.file == file && this.written == written && this.prev == prev && rotatedTo == None
    {
      this.file, this.written, this.prev, this.rotatedTo := file, written, prev, None;
    }

    /** Appends a line; a write that fails part way is cut back. */
    method WriteLine(line: Bytes, codec: Codec) returns (ok: bool)
      requires written == |file.bytes|
      modifies this`written, this`prev, file`bytes
      ensures written == |file.bytes|
      ensures ok ==> file.bytes == Appended(old(file.bytes), line) && prev == codec.hash(line)
      ensures !ok ==> file.bytes == old(file.bytes) && prev == old(prev)
    {
      var bytes := line + [NEWLINE];
      ok := *;
      if !ok {
        var part: nat :| part <= |bytes|;
        file.bytes := file.bytes + bytes[..part];
        file.bytes := file.bytes[..written];
        return;
      }
      file.bytes := file.bytes + bytes;
      written := written + |bytes|;
      prev := codec.hash(line);
    }
  }

  /** Finds the end of a file and the hash of its last line, ending a torn line first. */
  method RecoverTail(file: LogFile, codec: Codec) returns (written: nat, tail: string, ok: bool)
    modifies file`bytes
    ensures ok ==> file.bytes == Mended(old(file.bytes)) && written == |file.bytes|
    ensures ok ==> tail == if old(file.bytes) == [] then "" else codec.hash(RecoveredLine(old(file.bytes)))
    ensures !ok ==> file.bytes == old(file.bytes)
  {
    written, tail := |file.bytes|, "";
    ok := *;
    if !ok || written == 0 { return; }
    var read := Tail(file.bytes);
    LastByte(file.bytes);
    if read[|read| - 1] != NEWLINE {
      ok := *;
      if !ok { return; }
      tail := codec.hash(Torn(read));
      file.bytes := file.bytes + [NEWLINE];
      written := written + 1;
    } else {
      tail := codec.hash(Torn(read[..|read| - 1]));
    }
  }

  /** Opens the file at the configured path, creating it if need be, and writes its chain-start marker. The lock fails
      on the file this process holds. */
  method OpenFile(disk: Disk, held: LogFile?, start: Start, carried: string, printer: Printer) returns (log: OpenLog?)
    modifies disk`base, disk.Files()`bytes
    ensures old(disk.base) != null ==> disk.base == old(disk.base)
    ensures old(disk.base) == null && disk.base != null ==> fresh(disk.base) && disk.base.recorded == []
    ensures log == null ==> disk.Bytes() == old(disk.Bytes()) || disk.Bytes() == Mended(old(disk.Bytes()))
    ensures held != null && old(disk.base) == held ==> log == null && disk.Bytes() == old(disk.Bytes())
    ensures log != null ==>
      && fresh(log) && log.file == disk.base && log.file != held && log.rotatedTo == None
      && log.file.bytes == Opened(old(disk.Bytes()), start, carried, printer) && log.written == |log.file.bytes|
      && log.prev == StartHash(old(disk.Bytes()), start, carried, printer)
  {
    if disk.base == null {
      var created := *;
      if !created { return null; }
      disk.base := new LogFile([], []);
    }
    var file, locked: bool := disk.base, *;
    if !locked || file == held { return null; }
    var written, tail, recovered := RecoverTail(file, printer.codec);
    if !recovered { return null; }
    var startsFile := written == 0;
    log := new OpenLog(file, written, if startsFile then carried else tail);
    var rotatedFrom := if start.Rotated? then Some(start.from) else None;
    var resumed := start.Resumed? && startsFile && carried != "";
    if !startsFile {
      rotatedFrom, resumed := None, false;
    }
    var ok := log.WriteLine(printer.render(StartText(rotatedFrom, resumed, log.prev)), printer.codec);
    if !ok { return null; }
  }

  // The sink.

  datatype Policy = Continue | RefuseWrites | RefuseAll {
    predicate Refuses(readOnly: bool) {
      match this
      case Continue => false
      case RefuseWrites => !readOnly
      case RefuseAll => true
    }
  }

  /** max_bytes, how many days and files are kept, the policy, and the names of rotated files by time and counter. */
  datatype Settings = Settings(maxBytes: nat, keepDays: nat, keepFiles: nat, policy: Policy, rotationName: (nat, nat) -> string)

  ghost predicate DistinctNames(settings: Settings) {
    forall stamp, i, j :: settings.rotationName(stamp, i) == settings.rotationName(stamp, j) ==> i == j
  }

  /** One change of file: what the previous file held, what was found at the path, and what was then there. */
  datatype Opening = Opening(before: Bytes, found: Bytes, after: Bytes)

  /** A new file begins with a line that links to the last line of the file before it. */
  predicate LinksToPrevious(o: Opening, codec: Codec) {
    o.found == [] ==>
      && LinesOf(o.before) != [] && |LinesOf(o.after)| == 1
      && codec.parse(LinesOf(o.after)[0]).Some?
      && codec.parse(LinesOf(o.after)[0]).value.prev == Some(codec.hash(LastLine(o.before)))
  }

  /** What the sink keeps of its files: that the chain of some bytes stands at a hash, that some bytes may be found at the
      path, the entries some bytes hold, and that a change of file goes on from the file before. */
  datatype Chain = Chain(stands: (Bytes, string) -> bool, acceptable: Bytes -> bool, entries: Bytes -> seq<Bytes>,
                         links: Opening -> bool)

  function ChainOf(printer: Printer): Chain {
    var codec := printer.codec;
    Chain((bytes, prev) => Chained(bytes, prev, codec), bytes => Acceptable(bytes, codec), bytes => Entries(bytes, codec),
          opening => LinksToPrevious(opening, codec))
  }

  /** A linked line keeps the chain standing. */
  ghost predicate AppendLaw(chain: Chain, printer: Printer) {
    forall bytes, prev, text: LineText {:trigger chain.stands(bytes, prev), printer.render(text)} ::
      chain.stands(bytes, prev) && text.prev == prev && !OpensFile(text) ==>
        var line := printer.render(text);
        && chain.stands(Appended(bytes, line), printer.codec.hash(line))
        && chain.entries(Appended(bytes, line)) == WithEntry(chain.entries(bytes), text, printer)
  }

  /** An opening over found bytes goes on from them. */
  ghost predicate Goes(chain: Chain, found: Bytes, start: Start, carried: string, printer: Printer) {
    var after := Opened(found, start, carried, printer);
    chain.stands(after, StartHash(found, start, carried, printer)) && chain.entries(after) == chain.entries(found)
  }

  /** A start goes on from what it finds. */
  ghost predicate StartLaw(chain: Chain, printer: Printer) {
    && chain.acceptable([]) && chain.entries([]) == []
    && (forall found :: chain.acceptable(found) ==> Goes(chain, found, Fresh, "", printer))
  }

  /** A reopening goes on from what it finds or, if that is nothing, from the file before; a failed one adds nothing. */
  ghost predicate ReopenLaw(chain: Chain, printer: Printer) {
    && chain.acceptable([]) && chain.entries([]) == []
    && (forall found :: chain.acceptable(found) ==> Mended(found) == found)
    && (forall before, prev, found, start: Start
         {:trigger chain.stands(before, prev), Opened(found, start, prev, printer)} ::
         chain.stands(before, prev) && chain.acceptable(found) && !start.Fresh? ==>
           && Goes(chain, found, start, prev, printer)
           && chain.links(Opening(before, found, Opened(found, start, prev, printer))))
  }

  ghost predicate Laws(chain: Chain, printer: Printer) {
    AppendLaw(chain, printer) && ReopenLaw(chain, printer)
  }

  lemma ChainAppends(printer: Printer)
    requires Faithful(printer)
    ensures AppendLaw(ChainOf(printer), printer)
  {
    var chain := ChainOf(printer);
    forall bytes, prev, text: LineText {:trigger chain.stands(bytes, prev), printer.render(text)}
      | chain.stands(bytes, prev) && text.prev == prev && !OpensFile(text)
      ensures var line := printer.render(text);
              && chain.stands(Appended(bytes, line), printer.codec.hash(line))
              && chain.entries(Appended(bytes, line)) == WithEntry(chain.entries(bytes), text, printer)
    {
      assert Chained(bytes, prev, printer.codec);
      LinkedLine(bytes, prev, text, printer);
    }
  }

  lemma EmptyIsAcceptable(codec: Codec)
    ensures Acceptable([], codec) && Entries([], codec) == []
  {
  }

  lemma ChainGoesOn(found: Bytes, start: Start, carried: string, printer: Printer)
    requires Faithful(printer) && Acceptable(found, printer.codec)
    requires start.Fresh? ==> carried == ""
    ensures Goes(ChainOf(printer), found, start, carried, printer) && Mended(found) == found
  {
    OpenedVerifies(found, start, carried, printer);
  }

  lemma ChainStarts(printer: Printer)
    requires Faithful(printer)
    ensures StartLaw(ChainOf(printer), printer)
  {
    EmptyIsAcceptable(printer.codec);
    var chain := ChainOf(printer);
    forall found | chain.acceptable(found) ensures Goes(chain, found, Fresh, "", printer) {
      assert Acceptable(found, printer.codec);
      ChainGoesOn(found, Fresh, "", printer);
    }
  }

  lemma ChainReopens(printer: Printer)
    requires Faithful(printer)
    ensures ReopenLaw(ChainOf(printer), printer)
  {
    var chain := ChainOf(printer);
    EmptyIsAcceptable(printer.codec);
    forall found | chain.acceptable(found) ensures Mended(found) == found {
      assert Acceptable(found, printer.codec);
      ChainGoesOn(found, Fresh, "", printer);
    }
    forall before, prev, found, start: Start | chain.stands(before, prev) && chain.acceptable(found) && !start.Fresh?
      ensures Goes(chain, found, start, prev, printer)
      ensures chain.links(Opening(before, found, Opened(found, start, prev, printer)))
    {
      assert Chained(before, prev, printer.codec);
      assert Acceptable(found, printer.codec);
      ChainGoesOn(found, start, prev, printer);
      OpenedLinks(before, found, start, prev, printer);
    }
  }

  lemma OpenedLinks(before: Bytes, found: Bytes, start: Start, carried: string, printer: Printer)
    requires Faithful(printer) && Chained(before, carried, printer.codec)
    requires Acceptable(found, printer.codec) && !start.Fresh?
    ensures LinksToPrevious(Opening(before, found, Opened(found, start, carried, printer)), printer.codec)
  {
    OpenedVerifies(found, start, carried, printer);
  }

  /** The losses that the first k of some gap markers report. */
  function Reported(gaps: seq<nat>, k: nat): nat
    requires k <= |gaps|
  {
    if k == 0 then 0 else Reported(gaps, k - 1) + gaps[k - 1]
  }

  lemma {:induction false} ReportedPrefix(gaps: seq<nat>, more: seq<nat>, k: nat)
    requires k <= |gaps|
    ensures Reported(gaps + more, k) == Reported(gaps, k)
  {
    if k > 0 { ReportedPrefix(gaps, more, k - 1); }
  }

  /** A directory listing: closed files from the oldest on, without the one in use. */
  predicate Lists(files: seq<Closed>, closed: map<string, LogFile>, file: LogFile) {
    Listed(files) && forall i :: 0 <= i < |files| ==> files[i].name in closed && closed[files[i].name] != file
  }

  const SECONDS_PER_DAY: nat := 86_400

  /** The time before which a file is too old; zero days is no limit. */
  function Cutoff(now: int, keepDays: nat): Option<int> {
    if keepDays > 0 then Some(now - keepDays * SECONDS_PER_DAY) else None
  }

  /** A name no rotated file has. */
  method FreeName(closed: map<string, LogFile>, stamp: nat, settings: Settings) returns (name: string)
    requires DistinctNames(settings)
    ensures name !in closed
  {
    name := settings.rotationName(stamp, 0);
    var counter := 1;
    ghost var tried: set<string> := {};
    while name in closed
      invariant name == settings.rotationName(stamp, counter - 1)
      invariant 1 <= counter && tried <= closed.Keys && |tried| == counter - 1
      invariant forall used :: used in tried ==> exists i :: 0 <= i < counter - 1 && used == settings.rotationName(stamp, i)
      decreases |closed.Keys - tried|
    {
      tried := tried + {name};
      name := settings.rotationName(stamp, counter);
      counter := counter + 1;
    }
  }

  class Sink {
    const disk: Disk
    const printer: Printer
    const settings: Settings
    const chain: Chain
    var log: OpenLog
    var dropped: nat
    var unreported: nat
    var degraded: bool
    ghost var gaps: seq<nat>
    ghost var openings: seq<Opening>

    ghost predicate ValidLog()
      reads this`log, disk, log, log.file, disk.Files()
    {
      && log.written == |log.file.bytes|
      && chain.stands(log.file.bytes, log.prev) && log.file.recorded == chain.entries(log.file.bytes)
      && (disk.base != null && disk.base != log.file ==>
            chain.acceptable(disk.base.bytes) && disk.base.recorded == chain.entries(disk.base.bytes))
    }

    ghost predicate ValidCounts()
      reads this`dropped, this`unreported, this`degraded, this`gaps
    {
      dropped == Reported(gaps, |gaps|) + unreported && (degraded <==> unreported > 0)
    }

    ghost predicate ValidOpenings()
      reads this`openings
    {
      forall o :: o in openings ==> chain.links(o)
    }

    /** Nothing has been lost or reported yet, and no other file opened. */
    ghost predicate New()
      reads this`dropped, this`unreported, this`gaps, this`openings
    {
      dropped == 0 && unreported == 0 && gaps == [] && openings == []
    }

    ghost predicate Valid()
      reads this, disk, log, log.file, disk.Files()
    {
      Laws(chain, printer) && DistinctNames(settings) && ValidLog() && ValidCounts() && ValidOpenings()
    }

    constructor (disk: Disk, printer: Printer, settings: Settings, chain: Chain, log: OpenLog)
      requires Laws(chain, printer) && DistinctNames(settings) && disk.base == log.file
      requires log.written == |log.file.bytes| && chain.stands(log.file.bytes, log.prev)
      requires log.file.recorded == chain.entries(log.file.bytes)
      ensures Valid()
      ensures this.disk == disk && this.printer == printer && this.settings == settings
      ensures this.chain == chain && this.log == log
      ensures dropped == 0 && unreported == 0 && gaps == [] && openings == []
    {
      this.disk, this.printer, this.settings, this.chain, this.log := disk, printer, settings, chain, log;
      dropped, unreported, degraded, gaps, openings := 0, 0, false, [], [];
    }

    /** Writes a marker that links to the last line. */
    method WriteMarker(marker: LineText) returns (ok: bool)
      requires Laws(chain, printer) && ValidLog() && marker.prev == log.prev && !OpensFile(marker) && !marker.EntryText?
      modifies log`written, log`prev, log.file`bytes
      ensures ValidLog()
      ensures log.file.bytes == if ok then Appended(old(log.file.bytes), printer.render(marker)) else old(log.file.bytes)
    {
      ok := log.WriteLine(printer.render(marker), printer.codec);
    }

    /** Writes an entry. */
    method WriteEntry(body: string) returns (ok: bool)
      requires Laws(chain, printer) && ValidLog()
      modifies log`written, log`prev, log.file
      ensures ValidLog()
      ensures ok ==> var line := printer.render(EntryText(body, old(log.prev)));
                     && log.prev == printer.codec.hash(line)
                     && log.file.bytes == Appended(old(log.file.bytes), line)
                     && log.file.recorded == old(log.file.recorded) + [line]
      ensures !ok ==> log.file.bytes == old(log.file.bytes) && log.file.recorded == old(log.file.recorded)
    {
      var text := EntryText(body, log.prev);
      ok := log.WriteLine(printer.render(text), printer.codec);
      if ok {
        log.file.recorded := log.file.recorded + [printer.render(text)];
      }
    }

    /** What a written gap marker reports is no longer unreported. */
    method CountReported(lost: nat)
      requires ValidCounts() && lost == unreported
      modifies this`unreported, this`degraded, this`gaps
      ensures ValidCounts()
      ensures unreported == 0 && !degraded && gaps == old(gaps) + [lost]
    {
      ReportedPrefix(gaps, [lost], |gaps|);
      gaps := gaps + [lost];
      unreported := unreported - lost;
      degraded := false;
    }

    /** Reports the losses so far in a gap marker. */
    method CloseGap() returns (ok: bool)
      requires Laws(chain, printer) && ValidLog() && ValidCounts()
      modifies this`unreported, this`degraded, this`gaps, log`written, log`prev, log.file`bytes
      ensures ValidLog() && ValidCounts()
      ensures ok ==> unreported == 0 && !degraded
      ensures ok ==> gaps == if old(degraded) then old(gaps) + [old(unreported)] else old(gaps)
      ensures ok && old(degraded) ==>
        log.file.bytes == Appended(old(log.file.bytes), printer.render(GapText(old(unreported), old(log.prev))))
      ensures !ok || !old(degraded) ==> log.file.bytes == old(log.file.bytes)
      ensures !ok ==> unreported == old(unreported)
    {
      if !degraded { return true; }
      var lost := unreported;
      ok := WriteMarker(GapText(lost, log.prev));
      if ok { CountReported(lost); }
    }

    /** Moves the current file to a name no other file has. */
    method Rotate() returns (ok: bool)
      requires DistinctNames(settings) && ValidLog() && disk.base == log.file && log.rotatedTo == None
      modifies disk, log`rotatedTo
      ensures ValidLog()
      ensures ok ==> log.rotatedTo.Some? && log.rotatedTo.value !in old(disk.closed)
      ensures ok ==> disk.base == null && disk.closed == old(disk.closed)[log.rotatedTo.value := log.file]
      ensures !ok ==> log.rotatedTo == None && disk.base == old(disk.base) && disk.closed == old(disk.closed)
    {
      var stamp: nat := *;
      var name := FreeName(disk.closed, stamp, settings);
      ok := *;
      if !ok { return; }
      disk.closed := disk.closed[name := log.file];
      disk.base := null;
      log.rotatedTo := Some(name);
    }

    /** Removes the closed files that are too old or too many, but for those that cannot be removed, and names them in a
        marker. The file in use and every other file stay. */
    method Prune() returns (ghost files: seq<Closed>, ghost now: int, ghost failed: set<string>)
      requires Laws(chain, printer) && ValidLog()
      modifies disk`closed, log`written, log`prev, log.file`bytes
      ensures ValidLog() && Lists(files, old(disk.closed), log.file)
      ensures forall p: nat :: p < |files| ==>
        (files[p].name in disk.closed <==>
           !Due(files, p, Cutoff(now, settings.keepDays), settings.keepFiles) || files[p].name in failed)
      ensures forall name :: name in old(disk.closed) && !Names(files, |files|, name) ==> name in disk.closed
      ensures forall name :: name in disk.closed ==> name in old(disk.closed) && disk.closed[name] == old(disk.closed)[name]
    {
      files, now, failed := [], 0, {};
      if settings.keepDays == 0 && settings.keepFiles == 0 { return; }
      assert Lists([], disk.closed, log.file);
      var listing: seq<Closed> :| Lists(listing, disk.closed, log.file);
      assert Lists(listing, disk.closed, log.file);
      var time: int := *;
      var removed, kept := RemoveDue(listing, Cutoff(time, settings.keepDays), settings.keepFiles);
      files, now, failed := listing, time, kept;
      if removed == {} { return; }
      disk.closed := disk.closed - removed;
      var _ := WriteMarker(PrunedText(removed, log.prev));
    }

    /** Goes over to a newly opened file. */
    method Reopen(start: Start) returns (ok: bool)
      requires Laws(chain, printer) && ValidLog() && ValidOpenings() && !start.Fresh?
      modifies this`log, this`openings, disk`base, disk.Files()`bytes
      ensures ValidLog() && ValidOpenings()
      ensures ok ==> disk.base == log.file && fresh(log) && log.rotatedTo == None && log.file != old(log.file)
      ensures ok ==> openings == old(openings) + [Opening(old(log.file.bytes), old(disk.Bytes()), log.file.bytes)]
      ensures !ok ==> log == old(log) && openings == old(openings)
      ensures old(disk.base == log.file) ==> !ok
      ensures old(disk.base) != null ==> disk.base == old(disk.base)
      ensures old(disk.base) == null && disk.base != null ==> fresh(disk.base) && disk.base.recorded == []
    {
      ghost var before, found := log.file.bytes, disk.Bytes();
      var reopened := OpenFile(disk, log.file, start, log.prev, printer);
      ok := reopened != null;
      if ok {
        log := reopened;
        openings := openings + [Opening(before, found, log.file.bytes)];
      }
    }

    /** Goes over to the file at the path if the one in use was moved or removed. */
    method FollowPath() returns (ok: bool)
      requires Laws(chain, printer) && ValidLog() && ValidOpenings()
      modifies this`log, this`openings, disk`base, disk.Files()`bytes
      ensures ValidLog() && ValidOpenings()
      ensures ok && log.rotatedTo.None? ==> disk.base == log.file
      ensures log == old(log) || fresh(log)
      ensures log.file == old(log.file) || log.file == old(disk.base) || (fresh(log.file) && log.file.recorded == [])
      ensures disk.base == old(disk.base) || (fresh(disk.base) && disk.base.recorded == [])
    {
      ok := true;
      if log.rotatedTo.None? && disk.base != log.file {
        ok := Reopen(Resumed);
      }
    }

    /** Rotates a file that is too long. */
    method KeepShort() returns (ok: bool)
      requires Laws(chain, printer) && DistinctNames(settings) && ValidLog() && ValidOpenings()
      requires log.rotatedTo.None? ==> disk.base == log.file
      modifies this`log, this`openings, disk, log, log.file`bytes, disk.Files()`bytes
      ensures ValidLog() && ValidOpenings()
      ensures log == old(log) || fresh(log)
      ensures log.file == old(log.file) || log.file == old(disk.base) || (fresh(log.file) && log.file.recorded == [])
      ensures disk.base == null || disk.base == old(disk.base) || fresh(disk.base)
      ensures ok && log.rotatedTo.None? ==> disk.base == log.file
      ensures ok && 0 < settings.maxBytes <= old(log.written) ==> fresh(log) || log.rotatedTo.Some?
      ensures !(0 < settings.maxBytes <= old(log.written)) ==> ok && log == old(log) && openings == old(openings)
    {
      if settings.maxBytes > 0 && log.written >= settings.maxBytes {
        if log.rotatedTo.None? {
          ok := Rotate();
          if !ok { return; }
        }
        var reopened := Reopen(Rotated(log.rotatedTo.value));
        if reopened { var _, _, _ := Prune(); }
      }
      ok := true;
    }

    /** Sees to it that the file in use is the one at the path and not too long. */
    method KeepCurrent() returns (ok: bool)
      requires Laws(chain, printer) && DistinctNames(settings) && ValidLog() && ValidOpenings()
      modifies this`log, this`openings, disk, log, log.file`bytes, disk.Files()`bytes
      ensures ValidLog() && ValidOpenings()
      ensures log == old(log) || fresh(log)
      ensures log.file == old(log.file) || log.file == old(disk.base) || (fresh(log.file) && log.file.recorded == [])
      ensures disk.base == null || disk.base == old(disk.base) || fresh(disk.base)
      ensures ok && log.rotatedTo.None? ==> disk.base == log.file
    {
      ok := FollowPath();
      if ok {
        ok := KeepShort();
      }
    }

    /** What comes before an entry: the file is made current, and earlier losses are reported. */
    method Prepare() returns (ok: bool)
      requires Valid()
      modifies this`log, this`openings, this`unreported, this`degraded, this`gaps
      modifies disk, log, log.file`bytes, disk.Files()`bytes
      ensures Valid()
      ensures if ok then unreported == 0 else unreported == old(unreported)
      ensures log == old(log) || fresh(log)
      ensures log.file == old(log.file) || log.file == old(disk.base) || (fresh(log.file) && log.file.recorded == [])
      ensures disk.base == null || disk.base == old(disk.base) || fresh(disk.base)
      ensures ok && log.rotatedTo.None? ==> disk.base == log.file
    {
      ok := KeepCurrent();
      if ok {
        ok := CloseGap();
      }
    }

    /** Writes one entry; link is the hash it links to. */
    method Write(body: string) returns (ok: bool, ghost link: string)
      requires Valid()
      modifies this`log, this`openings, this`unreported, this`degraded, this`gaps, disk, log, log.file, disk.Files()
      ensures Valid()
      ensures ok ==> unreported == 0 && log.prev == printer.codec.hash(printer.render(EntryText(body, link)))
      ensures ok && fresh(log.file) ==> log.file.recorded == [printer.render(EntryText(body, link))]
      ensures ok && !fresh(log.file) ==>
        var file := log.file; file.recorded == old(file.recorded) + [printer.render(EntryText(body, link))]
      ensures forall f: LogFile | old(allocated(f)) && (f != log.file || !ok) :: f.recorded == old(f.recorded)
      ensures log == old(log) || fresh(log)
      ensures log.file == old(log.file) || log.file == old(disk.base) || fresh(log.file)
      ensures disk.base == null || disk.base == old(disk.base) || fresh(disk.base)
      ensures ok && log.rotatedTo.None? ==> disk.base == log.file
    {
      link := "";
      ok := Prepare();
      if ok {
        link := log.prev;
        ok := WriteEntry(body);
      }
    }

    method NoteFailure()
      requires ValidCounts()
      modifies this`dropped, this`unreported, this`degraded
      ensures ValidCounts()
      ensures dropped == old(dropped) + 1 && unreported == old(unreported) + 1
    {
      dropped := dropped + 1;
      unreported := unreported + 1;
      degraded := true;
    }

    /** Records one entry. A failure is counted, and no file gains or loses an entry. */
    method Record(body: string) returns (ok: bool, ghost link: string)
      requires Valid()
      modifies this, disk, log, log.file, disk.Files()
      ensures Valid()
      ensures dropped == old(dropped) + if ok then 0 else 1
      ensures ok ==> unreported == 0 && log.prev == printer.codec.hash(printer.render(EntryText(body, link)))
      ensures ok && fresh(log.file) ==> log.file.recorded == [printer.render(EntryText(body, link))]
      ensures ok && !fresh(log.file) ==>
        var file := log.file; file.recorded == old(file.recorded) + [printer.render(EntryText(body, link))]
      ensures forall f: LogFile | old(allocated(f)) && (f != log.file || !ok) :: f.recorded == old(f.recorded)
      ensures log == old(log) || fresh(log)
      ensures log.file == old(log.file) || log.file == old(disk.base) || fresh(log.file)
      ensures disk.base == null || disk.base == old(disk.base) || fresh(disk.base)
      ensures ok && log.rotatedTo.None? ==> disk.base == log.file
    {
      ok, link := Write(body);
      if !ok { NoteFailure(); }
    }

    /** Whether a call may go on while the log is failing. */
    method Admit(readOnly: bool) returns (admitted: bool)
      requires Valid()
      modifies this, disk, log, log.file`bytes, disk.Files()`bytes
      ensures Valid()
      ensures dropped == old(dropped)
      ensures admitted && settings.policy.Refuses(readOnly) ==> unreported == 0 && Reported(gaps, |gaps|) == dropped
      ensures !admitted ==> settings.policy.Refuses(readOnly) && old(unreported) > 0 && unreported == old(unreported)
      ensures log == old(log) || fresh(log)
      ensures log.file == old(log.file) || log.file == old(disk.base) || fresh(log.file)
      ensures disk.base == null || disk.base == old(disk.base) || fresh(disk.base)
    {
      if !degraded { return true; }
      var ok := Prepare();
      admitted := ok || !settings.policy.Refuses(readOnly);
    }
  }

  /** Starts a sink on what is at the path, if the file can be opened. */
  method OpenSink(disk: Disk, printer: Printer, settings: Settings, chain: Chain) returns (sink: Sink?)
    requires Laws(chain, printer) && StartLaw(chain, printer) && DistinctNames(settings)
    requires chain.acceptable(disk.Bytes()) && (disk.base != null ==> disk.base.recorded == chain.entries(disk.base.bytes))
    modifies disk`base, disk.Files()`bytes
    ensures sink != null ==> sink.Valid() && sink.disk == disk && sink.printer == printer && sink.settings == settings
    ensures sink != null ==> fresh(sink) && sink.chain == chain && sink.New()
    ensures sink != null ==> fresh(sink.log) && (sink.log.file == old(disk.base) || fresh(sink.log.file))
    ensures disk.base == null || disk.base == old(disk.base) || fresh(disk.base)
  {
    var log := OpenFile(disk, null, Fresh, "", printer);
    if log == null { return null; }
    sink := new Sink(disk, printer, settings, chain, log);
  }

  /** Starts a sink, and removes old files. */
  method StartSink(disk: Disk, printer: Printer, settings: Settings, chain: Chain) returns (sink: Sink?)
    requires Laws(chain, printer) && StartLaw(chain, printer) && DistinctNames(settings)
    requires chain.acceptable(disk.Bytes()) && (disk.base != null ==> disk.base.recorded == chain.entries(disk.base.bytes))
    modifies disk, disk.Files()`bytes
    ensures sink != null ==> sink.Valid() && sink.disk == disk && sink.printer == printer && sink.settings == settings
    ensures sink != null ==> fresh(sink) && sink.chain == chain && sink.New()
    ensures sink != null ==> fresh(sink.log) && (sink.log.file == old(disk.base) || fresh(sink.log.file))
    ensures disk.base == null || disk.base == old(disk.base) || fresh(disk.base)
  {
    sink := OpenSink(disk, printer, settings, chain);
    if sink != null { var _, _, _ := sink.Prune(); }
  }

  /** What can happen in a run: a record, a question before a call, a file put at the path or taken away, the file in use
      put back there, a restart. */
  datatype Action = Enter(body: string) | Ask(readOnly: bool) | Replace(found: Option<Bytes>) | PutBack | Restart

  predicate Finds(action: Action, chain: Chain) {
    action.Replace? && action.found.Some? ==> chain.acceptable(action.found.value)
  }

  /** Someone puts a file at the path, or takes away the one that is there. */
  method ReplaceFile(sink: Sink, found: Option<Bytes>)
    requires sink.Valid() && Finds(Replace(found), sink.chain)
    modifies sink.disk`base
    ensures sink.Valid()
    ensures sink.disk.base != null ==> fresh(sink.disk.base)
  {
    if found.Some? {
      sink.disk.base := new LogFile(found.value, sink.chain.entries(found.value));
    } else {
      sink.disk.base := null;
    }
  }

  /** Someone puts the file in use back at the path. */
  method PutFileBack(sink: Sink)
    requires sink.Valid()
    modifies sink.disk`base
    ensures sink.Valid() && sink.disk.base == sink.log.file
  {
    sink.disk.base := sink.log.file;
  }

  method Act(sink: Sink, action: Action) returns (next: Sink?)
    requires sink.Valid() && StartLaw(sink.chain, sink.printer) && Finds(action, sink.chain)
    modifies sink, sink.disk, sink.log, sink.log.file, sink.disk.Files()
    ensures next != null ==> next.Valid() && (next == sink || fresh(next)) && (next.log == old(sink.log) || fresh(next.log))
    ensures next != null ==>
      next.disk == sink.disk && next.printer == sink.printer && next.settings == sink.settings && next.chain == sink.chain
    ensures next != null ==>
      next.log.file == old(sink.log.file) || next.log.file == old(sink.disk.base) || fresh(next.log.file)
    ensures sink.disk.base == null || sink.disk.base == old(sink.disk.base) || sink.disk.base == old(sink.log.file)
         || fresh(sink.disk.base)
    ensures next != null ==> if action.Restart? then next.New() else next == sink
    ensures action.Restart? ==>
      && sink.openings == old(sink.openings) && sink.gaps == old(sink.gaps)
      && sink.dropped == old(sink.dropped) && sink.unreported == old(sink.unreported)
  {
    next := sink;
    match action
    case Enter(body) =>
      var _, _ := sink.Record(body);
    case Ask(readOnly) =>
      var _ := sink.Admit(readOnly);
    case Replace(found) =>
      ReplaceFile(sink, found);
    case PutBack =>
      PutFileBack(sink);
    case Restart =>
      var disk := sink.disk;
      if !sink.chain.acceptable(disk.Bytes()) { return null; }
      next := StartSink(disk, sink.printer, sink.settings, sink.chain);
  }

  /** What the sinks of a run have lost, what they have reported of that, and what a restart forgot. */
  datatype Losses = Losses(lost: nat, reported: nat, forgotten: nat)

  /** The losses once a sink has ended. */
  ghost function Ended(losses: Losses, sink: Sink): Losses
    reads sink`dropped, sink`gaps, sink`unreported
  {
    Losses(losses.lost + sink.dropped, losses.reported + Reported(sink.gaps, |sink.gaps|),
           losses.forgotten + sink.unreported)
  }

  method RunChain(base: Option<Bytes>, actions: seq<Action>, printer: Printer, settings: Settings, chain: Chain)
    returns (sink: Sink?, ghost openings: seq<Opening>, ghost losses: Losses)
    requires Laws(chain, printer) && StartLaw(chain, printer) && DistinctNames(settings)
    requires Finds(Replace(base), chain)
    requires forall action :: action in actions ==> Finds(action, chain)
    ensures sink != null ==> sink.Valid() && sink.printer == printer && sink.chain == chain
    ensures forall o :: o in openings ==> chain.links(o)
    ensures losses.lost == losses.reported + losses.forgotten
  {
    openings, losses := [], Losses(0, 0, 0);
    var file: LogFile? := null;
    if base.Some? { file := new LogFile(base.value, chain.entries(base.value)); }
    var disk := new Disk(file);
    sink := StartSink(disk, printer, settings, chain);
    if sink == null { return; }
    for i := 0 to |actions|
      invariant sink != null && fresh(sink) && fresh(disk) && fresh(sink.log) && fresh(sink.log.file)
      invariant disk.base == null || fresh(disk.base)
      invariant sink.disk == disk && sink.printer == printer && sink.settings == settings && sink.chain == chain
      invariant sink.Valid() && forall o :: o in openings ==> chain.links(o)
      invariant losses.lost == losses.reported + losses.forgotten
    {
      if actions[i].Restart? { openings, losses := openings + sink.openings, Ended(losses, sink); }
      sink := Act(sink, actions[i]);
      if sink == null { return; }
    }
  }

  /** Before and after restarts every new file goes on from the one before it, and every loss of an ended sink is reported,
      or was forgotten in the restart. */
  method RunWithHistory(base: Option<Bytes>, actions: seq<Action>, printer: Printer, settings: Settings)
    returns (sink: Sink?, ghost openings: seq<Opening>, ghost losses: Losses)
    requires Faithful(printer) && DistinctNames(settings)
    requires base.Some? ==> Acceptable(base.value, printer.codec)
    requires forall found :: Replace(Some(found)) in actions ==> Acceptable(found, printer.codec)
    ensures sink != null ==>
      && sink.Valid() && sink.printer == printer && sink.chain == ChainOf(printer)
      && (forall o :: o in openings + sink.openings ==> LinksToPrevious(o, printer.codec))
    ensures losses.lost == losses.reported + losses.forgotten
  {
    ChainAppends(printer);
    ChainStarts(printer);
    ChainReopens(printer);
    sink, openings, losses := RunChain(base, actions, printer, settings, ChainOf(printer));
  }

  /** Over every run the current file verifies, its count is the number of the entries that were recorded in it, every
      new file goes on from the one before it, and every loss is reported or waiting to be. A run ends where a start
      fails or finds a last line that is longer than the window. */
  method Run(base: Option<Bytes>, actions: seq<Action>, printer: Printer, settings: Settings) returns (sink: Sink?)
    requires Faithful(printer) && DistinctNames(settings)
    requires base.Some? ==> Acceptable(base.value, printer.codec)
    requires forall found :: Replace(Some(found)) in actions ==> Acceptable(found, printer.codec)
    ensures sink != null ==>
      && Verify(sink.log.file.bytes, printer.codec) == Ok(|sink.log.file.recorded|)
      && Entries(sink.log.file.bytes, printer.codec) == sink.log.file.recorded
      && (forall o :: o in sink.openings ==> LinksToPrevious(o, printer.codec))
      && sink.dropped == Reported(sink.gaps, |sink.gaps|) + sink.unreported
      && (sink.degraded <==> sink.unreported > 0)
  {
    ghost var openings, losses;
    sink, openings, losses := RunWithHistory(base, actions, printer, settings);
    if sink != null {
      VerifyCountsEntries(sink.log.file.bytes, printer.codec);
    }
  }
}
