/** Pages over a server cursor: page_from_cursor of crates/ownpg-core/src/engine.rs and the Collector of
    crates/ownpg-core/src/shape.rs, which caps rows and bytes and pushes a refused row back. */
module Paging {
  import opened Basics

  /** Texts are their UTF-8 bytes. */
  type Text = seq<byte>

  type Row = seq<Option<Text>>

  datatype Caps = Caps(rowCap: nat, byteCap: nat, cellCap: nat)

  datatype Truncation = Rows | Bytes | Cells

  /** What the library decides: which characters are invisible, and where a text may be cut. */
  datatype Cleaner = Cleaner(sanitize: Text -> Text, graphemes: Text -> seq<Text>)

  // Cells.

  const ELLIPSIS: Text := [0x2e, 0x2e, 0x2e]

  /** The leading graphemes that fit the room after those already kept. */
  function Kept(graphemes: seq<Text>, kept: Text, room: nat): (out: Text)
    requires |kept| <= room
    ensures |out| <= room && kept <= out
    decreases |graphemes|
  {
    if graphemes == [] || |kept| + |graphemes[0]| > room then kept else Kept(graphemes[1..], kept + graphemes[0], room)
  }

  function CutText(text: Text, cap: nat, cleaner: Cleaner): (out: Text)
    ensures |text| <= cap ==> out == text
    ensures |text| > cap ==> |out| <= (if cap > 3 then cap else 3) && |ELLIPSIS| <= |out| && out[|out| - 3..] == ELLIPSIS
  {
    if |text| <= cap then text else Kept(cleaner.graphemes(text), [], if cap > 3 then cap - 3 else 0) + ELLIPSIS
  }

  method CutCell(text: Text, cap: nat, cleaner: Cleaner) returns (out: Text)
    ensures out == CutText(text, cap, cleaner)
  {
    if |text| <= cap {
      return text;
    }
    out := [];
    var room := if cap > 3 then cap - 3 else 0;
    var graphemes := cleaner.graphemes(text);
    var i := 0;
    assert graphemes[0..] == graphemes;
    while i < |graphemes|
      invariant 0 <= i <= |graphemes| && |out| <= room
      invariant Kept(graphemes, [], room) == Kept(graphemes[i..], out, room)
    {
      assert graphemes[i..][1..] == graphemes[i + 1..];
      if |out| + |graphemes[i]| > room {
        break;
      }
      out := out + graphemes[i];
      i := i + 1;
    }
    out := out + ELLIPSIS;
  }

  function CleanCell(cell: Option<Text>, cellCap: nat, cleaner: Cleaner): Option<Text> {
    match cell
    case None => None
    case Some(text) => Some(CutText(cleaner.sanitize(text), cellCap, cleaner))
  }

  function CleanRow(row: Row, cellCap: nat, cleaner: Cleaner): Row {
    seq(|row|, i requires 0 <= i < |row| => CleanCell(row[i], cellCap, cleaner))
  }

  /** How many of the first k cells are longer than the cell cap. */
  function CellsCut(row: Row, k: nat, cellCap: nat, cleaner: Cleaner): nat
    requires k <= |row|
  {
    if k == 0 then 0
    else CellsCut(row, k - 1, cellCap, cleaner)
         + if row[k - 1].Some? && |cleaner.sanitize(row[k - 1].value)| > cellCap then 1 else 0
  }

  /** What the first k cells take of the byte cap: a null counts as four bytes, and every cell has two around it. */
  function Size(cleaned: Row, k: nat): nat
    requires k <= |cleaned|
  {
    if k == 0 then 0 else Size(cleaned, k - 1) + (if cleaned[k - 1].None? then 4 else |cleaned[k - 1].value|) + 2
  }

  function RowSize(row: Row, cellCap: nat, cleaner: Cleaner): nat {
    Size(CleanRow(row, cellCap, cleaner), |row|)
  }

  /** The first k rows, cleaned. */
  function CleanRows(rows: seq<Row>, k: nat, cellCap: nat, cleaner: Cleaner): (cleaned: seq<Row>)
    requires k <= |rows|
    ensures |cleaned| == k
  {
    if k == 0 then [] else CleanRows(rows, k - 1, cellCap, cleaner) + [CleanRow(rows[k - 1], cellCap, cleaner)]
  }

  function TotalSize(rows: seq<Row>, k: nat, cellCap: nat, cleaner: Cleaner): nat
    requires k <= |rows|
  {
    if k == 0 then 0 else TotalSize(rows, k - 1, cellCap, cleaner) + RowSize(rows[k - 1], cellCap, cleaner)
  }

  function TotalCut(rows: seq<Row>, k: nat, cellCap: nat, cleaner: Cleaner): nat
    requires k <= |rows|
  {
    if k == 0 then 0 else TotalCut(rows, k - 1, cellCap, cleaner) + CellsCut(rows[k - 1], |rows[k - 1]|, cellCap, cleaner)
  }

  /** A cell cleaned, and whether it had to be cut. */
  method CleanOne(cell: Option<Text>, cellCap: nat, cleaner: Cleaner) returns (cleaned: Option<Text>, cut: bool)
    ensures cleaned == CleanCell(cell, cellCap, cleaner)
    ensures cut == (cell.Some? && |cleaner.sanitize(cell.value)| > cellCap)
  {
    cut := false;
    match cell {
      case None => cleaned := None;
      case Some(text) => {
        var clean := cleaner.sanitize(text);
        cut := |clean| > cellCap;
        var kept := CutCell(clean, cellCap, cleaner);
        cleaned := Some(kept);
      }
    }
  }

  /** The cells of a row cleaned one by one, and how many had to be cut. */
  method CleanCells(row: Row, cellCap: nat, cleaner: Cleaner) returns (cleaned: Row, cut: nat)
    ensures cleaned == CleanRow(row, cellCap, cleaner)
    ensures cut == CellsCut(row, |row|, cellCap, cleaner)
  {
    cut := 0;
    cleaned := [];
    for i := 0 to |row|
      invariant |cleaned| == i && forall k :: 0 <= k < i ==> cleaned[k] == CleanCell(row[k], cellCap, cleaner)
      invariant cut == CellsCut(row, i, cellCap, cleaner)
    {
      var cell, over := CleanOne(row[i], cellCap, cleaner);
      cleaned := cleaned + [cell];
      if over { cut := cut + 1; }
    }
  }

  method SizeOf(cleaned: Row) returns (size: nat)
    ensures size == Size(cleaned, |cleaned|)
  {
    size := 0;
    for i := 0 to |cleaned|
      invariant size == Size(cleaned, i)
    {
      size := size + (if cleaned[i].None? then 4 else |cleaned[i].value|) + 2;
    }
  }

  lemma OneMoreRow(rows: seq<Row>, k: nat, cellCap: nat, cleaner: Cleaner)
    requires k < |rows|
    ensures CleanRows(rows, k + 1, cellCap, cleaner)
         == CleanRows(rows, k, cellCap, cleaner) + [CleanRow(rows[k], cellCap, cleaner)]
    ensures TotalSize(rows, k + 1, cellCap, cleaner)
         == TotalSize(rows, k, cellCap, cleaner) + RowSize(rows[k], cellCap, cleaner)
    ensures TotalCut(rows, k + 1, cellCap, cleaner)
         == TotalCut(rows, k, cellCap, cleaner) + CellsCut(rows[k], |rows[k]|, cellCap, cleaner)
  {
  }

  // The collector.

  class Collector {
    var rows: seq<Row>
    var bytes: nat
    var truncatedBy: Option<Truncation>
    var cellsCut: nat

    constructor ()
      ensures rows == [] && bytes == 0 && truncatedBy == None && cellsCut == 0
    {
      rows := [];
      bytes := 0;
      truncatedBy := None;
      cellsCut := 0;
    }

    /** The collector holds the cleaned form of the first k rows of the result, and accounts for all of them. */
    ghost predicate HoldsRows(stream: seq<Row>, k: nat, caps: Caps, cleaner: Cleaner)
      requires k <= |stream|
      reads this
    {
      && rows == CleanRows(stream, k, caps.cellCap, cleaner)
      && bytes == TotalSize(stream, k, caps.cellCap, cleaner)
      && cellsCut == TotalCut(stream, k, caps.cellCap, cleaner)
    }

    /** Takes the row, or gives it back untouched and says why; the first row is taken whatever its size. */
    method Offer(caps: Caps, row: Row, cleaner: Cleaner, ghost stream: seq<Row>, ghost k: nat) returns (refused: Option<Row>)
      requires k < |stream| && stream[k] == row && HoldsRows(stream, k, caps, cleaner)
      modifies this
      ensures refused == None || refused == Some(row)
      ensures HoldsRows(stream, if refused.Some? then k else k + 1, caps, cleaner)
      ensures old(truncatedBy).Some? ==> refused.Some? && truncatedBy == old(truncatedBy)
      ensures old(truncatedBy).None? ==>
                truncatedBy == if k >= caps.rowCap then Some(Rows)
                               else if k > 0 && TotalSize(stream, k + 1, caps.cellCap, cleaner) > caps.byteCap then Some(Bytes)
                               else None
      ensures refused.Some? <==> truncatedBy.Some?
    {
      if truncatedBy.Some? {
        return Some(row);
      }
      if |rows| >= caps.rowCap {
        truncatedBy := Some(Rows);
        return Some(row);
      }
      OneMoreRow(stream, k, caps.cellCap, cleaner);
      var cleaned, cut, size := CleanWithSize(row, caps.cellCap, cleaner);
      if bytes + size > caps.byteCap && |rows| > 0 {
        truncatedBy := Some(Bytes);
        return Some(row);
      }
      bytes := bytes + size;
      cellsCut := cellsCut + cut;
      rows := rows + [cleaned];
      return None;
    }
  }

  method CleanWithSize(row: Row, cellCap: nat, cleaner: Cleaner) returns (cleaned: Row, cut: nat, size: nat)
    ensures cleaned == CleanRow(row, cellCap, cleaner) && size == RowSize(row, cellCap, cleaner)
    ensures cut == CellsCut(row, |row|, cellCap, cleaner)
  {
    cleaned, cut := CleanCells(row, cellCap, cleaner);
    size := SizeOf(cleaned);
  }

  /** What a result set says about what was left out. */
  datatype Summary = Summary(truncated: bool, truncatedBy: Option<Truncation>)

  function FinishWith(truncatedBy: Option<Truncation>, hasCursor: bool, cellsCut: nat): (summary: Summary)
    ensures summary.truncated <==> summary.truncatedBy.Some?
    ensures truncatedBy.Some? ==> summary.truncatedBy == truncatedBy
    ensures hasCursor ==> summary.truncated
    ensures summary.truncatedBy == Some(Cells) && truncatedBy.None? ==> cellsCut > 0 && !hasCursor
  {
    Summary(
      truncatedBy.Some? || hasCursor || cellsCut > 0,
      if truncatedBy.Some? then truncatedBy else if hasCursor then Some(Rows) else if cellsCut > 0 then Some(Cells) else None)
  }

  // The page: the longest prefix its caps allow.

  /** The first k rows make a page within the caps; one row is allowed whatever its size. */
  predicate Fits(stream: seq<Row>, caps: Caps, cleaner: Cleaner, k: nat) {
    && k <= |stream| && k <= caps.rowCap
    && (k <= 1 || TotalSize(stream, k, caps.cellCap, cleaner) <= caps.byteCap)
  }

  /** The rows a page takes, found by growing it one row at a time. */
  function PageFrom(stream: seq<Row>, caps: Caps, cleaner: Cleaner, k: nat): (length: nat)
    requires k <= |stream|
    ensures k <= length <= |stream|
    decreases |stream| - k
  {
    if k < |stream| && Fits(stream, caps, cleaner, k + 1) then PageFrom(stream, caps, cleaner, k + 1) else k
  }

  function PageLength(stream: seq<Row>, caps: Caps, cleaner: Cleaner): (length: nat)
    ensures length <= |stream|
  {
    PageFrom(stream, caps, cleaner, 0)
  }

  lemma {:induction false} SizeGrows(stream: seq<Row>, cellCap: nat, cleaner: Cleaner, j: nat, k: nat)
    requires j <= k <= |stream|
    ensures TotalSize(stream, j, cellCap, cleaner) <= TotalSize(stream, k, cellCap, cleaner)
  {
    if j < k {
      SizeGrows(stream, cellCap, cleaner, j, k - 1);
    }
  }

  lemma {:induction false} PageFromFits(stream: seq<Row>, caps: Caps, cleaner: Cleaner, k: nat)
    requires Fits(stream, caps, cleaner, k)
    ensures Fits(stream, caps, cleaner, PageFrom(stream, caps, cleaner, k))
    decreases |stream| - k
  {
    if k < |stream| && Fits(stream, caps, cleaner, k + 1) { PageFromFits(stream, caps, cleaner, k + 1); }
  }

  /** Whatever fits, fits with fewer rows. */
  lemma FewerRowsFit(stream: seq<Row>, caps: Caps, cleaner: Cleaner, j: nat, k: nat)
    requires j <= k && Fits(stream, caps, cleaner, k)
    ensures Fits(stream, caps, cleaner, j)
  {
    SizeGrows(stream, caps.cellCap, cleaner, j, k);
  }

  lemma {:induction false} PageFromIsLongest(stream: seq<Row>, caps: Caps, cleaner: Cleaner, k: nat, j: nat)
    requires k <= j && Fits(stream, caps, cleaner, j)
    ensures j <= PageFrom(stream, caps, cleaner, k)
    decreases j - k
  {
    if k < j {
      FewerRowsFit(stream, caps, cleaner, k + 1, j);
      PageFromIsLongest(stream, caps, cleaner, k + 1, j);
    }
  }

  /** A page fits its caps, no longer page does, and it makes progress exactly when a row is allowed at all. */
  lemma PageIsLongest(stream: seq<Row>, caps: Caps, cleaner: Cleaner)
    ensures var length := PageLength(stream, caps, cleaner);
            && Fits(stream, caps, cleaner, length)
            && (forall j: nat :: Fits(stream, caps, cleaner, j) ==> j <= length)
            && (stream != [] ==> (length >= 1 <==> caps.rowCap >= 1))
  {
    PageFromFits(stream, caps, cleaner, 0);
    forall j: nat | Fits(stream, caps, cleaner, j) ensures j <= PageLength(stream, caps, cleaner) {
      PageFromIsLongest(stream, caps, cleaner, 0, j);
    }
    if stream != [] && caps.rowCap >= 1 {
      assert Fits(stream, caps, cleaner, 1);
    }
  }

  /** The server's side of a cursor: the rows it has not sent. */
  class ServerCursor {
    var remaining: seq<Row>

    constructor (rows: seq<Row>)
      ensures remaining == rows
    {
      remaining := rows;
    }

    /** FETCH FORWARD: that many rows, or as many as are left; or the connection fails. */
    method Fetch(count: nat) returns (batch: Option<seq<Row>>)
      modifies this
      ensures batch.Some? ==> |batch.value| == (if count < |old(remaining)| then count else |old(remaining)|)
                              && batch.value + remaining == old(remaining)
    {
      if * {
        return None;
      }
      var sent := if count < |remaining| then count else |remaining|;
      batch := Some(remaining[..sent]);
      remaining := remaining[sent..];
    }
  }

  /** Fetches until the look-ahead buffer holds a row more than the page may take, or the result is exhausted. */
  method FillPending(cursor: ServerCursor, pending: seq<Row>, wanted: nat) returns (filled: Option<seq<Row>>)
    modifies cursor
    ensures filled.Some? ==>
              && filled.value + cursor.remaining == pending + old(cursor.remaining)
              && (|filled.value| >= wanted || cursor.remaining == [])
  {
    ghost var stream := pending + cursor.remaining;
    var left := pending;
    var exhausted := false;
    while |left| < wanted && !exhausted
      invariant left + cursor.remaining == stream
      invariant exhausted ==> cursor.remaining == []
      decreases !exhausted, wanted - |left|
    {
      var requested := wanted - |left|;
      var batch := cursor.Fetch(requested);
      if batch.None? {
        return None;
      }
      assert left + (batch.value + cursor.remaining) == (left + batch.value) + cursor.remaining;
      left := left + batch.value;
      if |batch.value| < requested {
        exhausted := true;
      }
    }
    return Some(left);
  }

  /** Offers the buffered rows in order until the row cap is reached, the buffer is empty or a row is refused. */
  method TakeRows(buffered: seq<Row>, caps: Caps, cleaner: Cleaner, ghost stream: seq<Row>)
    returns (collector: Collector, left: seq<Row>)
    requires buffered <= stream
    requires |buffered| > caps.rowCap || buffered == stream
    ensures fresh(collector)
    ensures var length := PageLength(stream, caps, cleaner);
            && collector.HoldsRows(stream, length, caps, cleaner)
            && length <= |buffered| && left == buffered[length..]
            && collector.truncatedBy == if length < |stream| && length < caps.rowCap then Some(Bytes) else None
  {
    collector := new Collector();
    var taken := 0;
    while |collector.rows| < caps.rowCap && taken < |buffered|
      invariant 0 <= taken <= |buffered| && taken <= caps.rowCap
      invariant collector.HoldsRows(stream, taken, caps, cleaner)
      invariant PageLength(stream, caps, cleaner) == PageFrom(stream, caps, cleaner, taken)
      invariant collector.truncatedBy == None
      decreases |buffered| - taken
    {
      var row := buffered[taken];
      var refused := collector.Offer(caps, row, cleaner, stream, taken);
      if refused.Some? {
        break;
      }
      taken := taken + 1;
    }
    assert PageLength(stream, caps, cleaner) == taken;
    left := buffered[taken..];
  }

  lemma FrontDropped(front: seq<Row>, rest: seq<Row>, n: nat)
    requires n <= |front|
    ensures front[n..] + rest == (front + rest)[n..]
  {
  }

  /** The page over the buffer and the cursor: it takes the longest page its caps allow, keeps every other row in order,
      and says "more" exactly when a row is left. */
  method PageFromCursor(cursor: ServerCursor, pending: seq<Row>, caps: Caps, cleaner: Cleaner)
    returns (page: Option<(Collector, bool)>, left: seq<Row>)
    modifies cursor
    ensures page.Some? ==>
              var stream := pending + old(cursor.remaining);
              var length := PageLength(stream, caps, cleaner);
              var (collector, more) := page.value;
              && fresh(collector)
              && collector.HoldsRows(stream, length, caps, cleaner)
              && left + cursor.remaining == stream[length..]
              && (more <==> length < |stream|)
              && collector.truncatedBy == if length < |stream| && length < caps.rowCap then Some(Bytes) else None
  {
    ghost var stream := pending + cursor.remaining;
    var filled := FillPending(cursor, pending, caps.rowCap + 1);
    if filled.None? {
      return None, pending;
    }
    var collector;
    PageIsLongest(stream, caps, cleaner);
    assert cursor.remaining == [] ==> filled.value == stream;
    collector, left := TakeRows(filled.value, caps, cleaner, stream);
    FrontDropped(filled.value, cursor.remaining, PageLength(stream, caps, cleaner));
    page := Some((collector, left != []));
  }

  // Whole runs: one page after the other until none is left.

  datatype Page = Page(rows: seq<Row>, more: bool)

  /** The pages of a query, one for each call's caps, until a page says there are no more. */
  function Pages(stream: seq<Row>, calls: seq<Caps>, cleaner: Cleaner): seq<Page>
    decreases |calls|
  {
    if calls == [] then []
    else
      var length := PageLength(stream, calls[0], cleaner);
      var page := Page(CleanRows(stream, length, calls[0].cellCap, cleaner), length < |stream|);
      if length == |stream| then [page] else [page] + Pages(stream[length..], calls[1..], cleaner)
  }

  lemma PageThenPages(stream: seq<Row>, calls: seq<Caps>, cleaner: Cleaner, before: seq<Page>, page: Page)
    requires calls != []
    requires var length := PageLength(stream, calls[0], cleaner);
             page == Page(CleanRows(stream, length, calls[0].cellCap, cleaner), length < |stream|)
    ensures before + Pages(stream, calls, cleaner) == before + [page] +
            if page.more then Pages(stream[PageLength(stream, calls[0], cleaner)..], calls[1..], cleaner) else []
  {
  }

  /** Reads the pages of a query, one for each call's caps, through the cursor and the look-ahead buffer. */
  method ReadPages(cursor: ServerCursor, calls: seq<Caps>, cleaner: Cleaner) returns (pages: seq<Page>, failed: bool)
    modifies cursor
    ensures pages <= Pages(old(cursor.remaining), calls, cleaner)
    ensures !failed ==> pages == Pages(old(cursor.remaining), calls, cleaner)
  {
    pages, failed := [], false;
    var pending: seq<Row> := [];
    assert [] + cursor.remaining == cursor.remaining;
    for i := 0 to |calls|
      invariant Pages(old(cursor.remaining), calls, cleaner)
             == pages + Pages(pending + cursor.remaining, calls[i..], cleaner)
    {
      ghost var stream := pending + cursor.remaining;
      var read, left := PageFromCursor(cursor, pending, calls[i], cleaner);
      if read.None? { return pages, true; }
      var (collector, more) := read.value;
      var page := Page(collector.rows, more);
      PageThenPages(stream, calls[i..], cleaner, pages, page);
      assert calls[i..][1..] == calls[i + 1..];
      pages, pending := pages + [page], left;
      if !more {
        assert pages + [] == pages;
        return;
      }
    }
  }

  /** How many rows the pages deliver together. */
  function Delivered(stream: seq<Row>, calls: seq<Caps>, cleaner: Cleaner): (n: nat)
    ensures n <= |stream|
    decreases |calls|
  {
    if calls == [] then 0
    else
      var length := PageLength(stream, calls[0], cleaner);
      if length == |stream| then length else length + Delivered(stream[length..], calls[1..], cleaner)
  }

  /** The rows each page is made of. */
  function Chunks(stream: seq<Row>, calls: seq<Caps>, cleaner: Cleaner): seq<seq<Row>>
    decreases |calls|
  {
    if calls == [] then []
    else
      var length := PageLength(stream, calls[0], cleaner);
      if length == |stream| then [stream] else [stream[..length]] + Chunks(stream[length..], calls[1..], cleaner)
  }

  function Concatenated(chunks: seq<seq<Row>>): seq<Row> {
    if chunks == [] then [] else chunks[0] + Concatenated(chunks[1..])
  }

  lemma {:induction false} ChunksMakeOnePrefix(stream: seq<Row>, calls: seq<Caps>, cleaner: Cleaner)
    ensures |Pages(stream, calls, cleaner)| == |Chunks(stream, calls, cleaner)| <= |calls|
    ensures Concatenated(Chunks(stream, calls, cleaner)) == stream[..Delivered(stream, calls, cleaner)]
    decreases |calls|
  {
    if calls != [] {
      var length := PageLength(stream, calls[0], cleaner);
      if length == |stream| {
        assert [stream][1..] == [];
      } else {
        var rest := stream[length..];
        ChunksMakeOnePrefix(rest, calls[1..], cleaner);
        assert Chunks(stream, calls, cleaner)[1..] == Chunks(rest, calls[1..], cleaner);
        assert stream[..length] + rest[..Delivered(rest, calls[1..], cleaner)] == stream[..Delivered(stream, calls, cleaner)];
      }
    }
  }

  function AllClean(rows: seq<Row>, cellCap: nat, cleaner: Cleaner): seq<Row> {
    CleanRows(rows, |rows|, cellCap, cleaner)
  }

  lemma {:induction false} CleanPrefix(rows: seq<Row>, k: nat, n: nat, cellCap: nat, cleaner: Cleaner)
    requires k <= n <= |rows|
    ensures CleanRows(rows, k, cellCap, cleaner) == CleanRows(rows[..n], k, cellCap, cleaner)
  {
    if k > 0 { CleanPrefix(rows, k - 1, n, cellCap, cleaner); }
  }

  lemma {:induction false} PageAndChunkAt(stream: seq<Row>, calls: seq<Caps>, cleaner: Cleaner, i: nat)
    requires i < |Pages(stream, calls, cleaner)|
    ensures i < |Chunks(stream, calls, cleaner)| && i < |calls|
    ensures Pages(stream, calls, cleaner)[i].rows == AllClean(Chunks(stream, calls, cleaner)[i], calls[i].cellCap, cleaner)
    ensures Pages(stream, calls, cleaner)[i].more
            <==> i < |Pages(stream, calls, cleaner)| - 1 || Delivered(stream, calls, cleaner) < |stream|
    decreases |calls|
  {
    ChunksMakeOnePrefix(stream, calls, cleaner);
    var length := PageLength(stream, calls[0], cleaner);
    CleanPrefix(stream, length, length, calls[0].cellCap, cleaner);
    if length < |stream| {
      var rest := stream[length..];
      if i > 0 {
        PageAndChunkAt(rest, calls[1..], cleaner, i - 1);
      } else if Pages(rest, calls[1..], cleaner) == [] {
        assert calls[1..] == [];
      }
    } else {
      assert stream[..length] == stream;
    }
  }

  lemma {:induction false} ChunkIsNotEmpty(stream: seq<Row>, calls: seq<Caps>, cleaner: Cleaner, i: nat)
    requires stream != [] && i < |Chunks(stream, calls, cleaner)|
    requires forall k :: 0 <= k < |calls| ==> calls[k].rowCap >= 1
    ensures Chunks(stream, calls, cleaner)[i] != []
    decreases |calls|
  {
    var length := PageLength(stream, calls[0], cleaner);
    PageIsLongest(stream, calls[0], cleaner);
    if length < |stream| && i > 0 {
      ChunkIsNotEmpty(stream[length..], calls[1..], cleaner, i - 1);
    }
  }

  lemma {:induction false} EnoughCallsDeliverAll(stream: seq<Row>, calls: seq<Caps>, cleaner: Cleaner)
    requires forall k :: 0 <= k < |calls| ==> calls[k].rowCap >= 1
    requires |calls| >= 1 && |calls| >= |stream|
    ensures Delivered(stream, calls, cleaner) == |stream|
    decreases |calls|
  {
    var length := PageLength(stream, calls[0], cleaner);
    PageIsLongest(stream, calls[0], cleaner);
    if length < |stream| {
      EnoughCallsDeliverAll(stream[length..], calls[1..], cleaner);
    }
  }

  /** Paging loses, repeats and reorders nothing: the pages are the cleaned pieces of one prefix of the result, no piece
      is empty, a page says "more" exactly when rows are left after it, and enough calls deliver everything. */
  lemma PagingLosesNothing(stream: seq<Row>, calls: seq<Caps>, cleaner: Cleaner)
    requires forall k :: 0 <= k < |calls| ==> calls[k].rowCap >= 1
    ensures var pages, chunks := Pages(stream, calls, cleaner), Chunks(stream, calls, cleaner);
            && |pages| == |chunks| <= |calls|
            && Concatenated(chunks) == stream[..Delivered(stream, calls, cleaner)]
            && (forall i :: 0 <= i < |pages| ==>
                  && pages[i].rows == AllClean(chunks[i], calls[i].cellCap, cleaner)
                  && (stream != [] ==> chunks[i] != [])
                  && (pages[i].more <==> i < |pages| - 1 || Delivered(stream, calls, cleaner) < |stream|))
            && (|calls| >= 1 && |calls| >= |stream| ==> Delivered(stream, calls, cleaner) == |stream|)
  {
    ChunksMakeOnePrefix(stream, calls, cleaner);
    forall i | 0 <= i < |Pages(stream, calls, cleaner)|
      ensures Pages(stream, calls, cleaner)[i].rows == AllClean(Chunks(stream, calls, cleaner)[i], calls[i].cellCap, cleaner)
      ensures stream != [] ==> Chunks(stream, calls, cleaner)[i] != []
      ensures Pages(stream, calls, cleaner)[i].more
              <==> i < |Pages(stream, calls, cleaner)| - 1 || Delivered(stream, calls, cleaner) < |stream|
    {
      PageAndChunkAt(stream, calls, cleaner, i);
      if stream != [] { ChunkIsNotEmpty(stream, calls, cleaner, i); }
    }
    if |calls| >= 1 && |calls| >= |stream| { EnoughCallsDeliverAll(stream, calls, cleaner); }
  }

  /** With a row cap of nothing a call makes no progress, however often it is made. */
  lemma NoProgressWithoutARow(stream: seq<Row>, caps: Caps, cleaner: Cleaner)
    requires caps.rowCap == 0 && stream != []
    ensures Pages(stream, [caps, caps], cleaner) == [Page([], true), Page([], true)]
  {
    PageIsLongest(stream, caps, cleaner);
    assert stream[..0] == [] && stream[0..] == stream;
    assert [caps, caps][1..] == [caps] && [caps][1..] == [];
    assert Pages(stream, [], cleaner) == [];
    assert Pages(stream, [caps], cleaner) == [Page([], true)] + [];
    assert Pages(stream, [caps, caps], cleaner) == [Page([], true)] + Pages(stream, [caps], cleaner);
  }
}
