/**
  Checking a recorded pagination of the exchange's order or trade history (_raw_history_from_pages).

  The checker sees pages, queries and completion claims, never the history.  The theorem is that this
  is enough: if each page is what the server truthfully answered at that moment, an accepted listing
  is exactly the requested time window.
*/
module HistoryPages {
  import opened FunctionalVocabulary

  const PAGE_LIMIT: nat := 1000

  datatype Record = Record(id: int, time: int)

  datatype Query = ByTime(startTime: int, endTime: int) | ByCursor(cursor: int)

  datatype Completion = EmptyPage | ShortPage | RowAfterCutoff | Continue

  /** `envelopeExact`: endpoint, parameter names, page index, response count and response hash are the recorded ones. */
  datatype Page = Page(query: Query, rows: seq<Record>, envelopeExact: bool, completion: Completion, nextCursor: int)

  /** What the page loop carries along. */
  datatype Scan = Scan(cursor: Option<int>, priorTime: int, collected: seq<Record>)

  /** The records with start <= time <= end, in order. */
  function Window(records: seq<Record>, start: int, end: int): seq<Record> {
    if records == [] then [] else
      var last := records[|records| - 1];
      Window(records[..|records| - 1], start, end) + (if start <= last.time <= end then [last] else [])
  }

  predicate HasId(records: seq<Record>, id: int) { exists r :: r in records && r.id == id }

  /** What the row loop asks of a row, given the row before it on the page and everything collected. */
  predicate NextRow(row: Record, before: seq<Record>, scan: Scan, start: int, end: int) {
    && row.id >= 0 && row.time > 0 && row.time >= start
    && (before != [] ==> before[|before| - 1].id < row.id)
    && row.time >= LastTime(before, scan.priorTime)
    && (row.time <= end ==> !AfterCutoff(before, end) && !HasId(scan.collected + Window(before, start, end), row.id))
  }

  function LastTime(rows: seq<Record>, priorTime: int): int { if rows == [] then priorTime else rows[|rows| - 1].time }

  predicate AfterCutoff(rows: seq<Record>, end: int) {
    rows != [] && (AfterCutoff(rows[..|rows| - 1], end) || rows[|rows| - 1].time > end)
  }

  /** What the row loop demands of one page, row by row. */
  predicate RowsAcceptable(rows: seq<Record>, scan: Scan, start: int, end: int) {
    rows == [] ||
    var n := |rows| - 1;
    RowsAcceptable(rows[..n], scan, start, end) && NextRow(rows[n], rows[..n], scan, start, end)
  }

  predicate ExpectedQuery(query: Query, cursor: Option<int>, start: int, end: int) {
    match cursor
    case None => query == ByTime(start, end)
    case Some(c) => query == ByCursor(c)
  }

  /** The completion claim fits the page and its position. */
  predicate CompletionFits(page: Page, isLast: bool, end: int) {
    if page.completion.Continue? then
      !isLast && |page.rows| == PAGE_LIMIT && page.nextCursor == page.rows[|page.rows| - 1].id + 1
    else
      && isLast
      && (page.completion.EmptyPage? ==> page.rows == [])
      && (page.completion.ShortPage? ==> |page.rows| < PAGE_LIMIT)
      && (page.completion.RowAfterCutoff? ==> AfterCutoff(page.rows, end))
  }

  predicate PageAcceptable(page: Page, scan: Scan, isLast: bool, start: int, end: int) {
    && page.envelopeExact && ExpectedQuery(page.query, scan.cursor, start, end)
    && RowsAcceptable(page.rows, scan, start, end)
    && CompletionFits(page, isLast, end)
  }

  function PageScanned(page: Page, scan: Scan, start: int, end: int): Scan {
    Scan(
      if page.completion.Continue? && page.rows != [] then Some(page.rows[|page.rows| - 1].id + 1) else scan.cursor,
      LastTime(page.rows, scan.priorTime),
      scan.collected + Window(page.rows, start, end))
  }

  /** The scan after `pages`, the first of `total` pages; None when one of them is refused. */
  function ScanOf(pages: seq<Page>, total: nat, start: int, end: int): Option<Scan> {
    if pages == [] then Some(Scan(None, start - 1, [])) else
      var n := |pages| - 1;
      match ScanOf(pages[..n], total, start, end)
      case None => None
      case Some(scan) =>
        if PageAcceptable(pages[n], scan, n + 1 == total, start, end) then Some(PageScanned(pages[n], scan, start, end)) else None
  }

  // ---- The loops -----------------------------------------------------------------------------------------

  method ScanRows(rows: seq<Record>, scan: Scan, start: int, end: int)
    returns (reply: Reply<seq<Record>>, priorTime: int, afterCutoff: bool)
    ensures reply.Done? <==> RowsAcceptable(rows, scan, start, end)
    ensures reply.Done? ==>
              && reply.value == scan.collected + Window(rows, start, end)
              && priorTime == LastTime(rows, scan.priorTime)
              && afterCutoff == AfterCutoff(rows, end)
  {
    priorTime, afterCutoff := scan.priorTime, false;
    var collected := scan.collected;
    var i := 0;
    while i < |rows|
      invariant 0 <= i <= |rows|
      invariant RowsAcceptable(rows[..i], scan, start, end)
      invariant collected == scan.collected + Window(rows[..i], start, end)
      invariant priorTime == LastTime(rows[..i], scan.priorTime)
      invariant afterCutoff == AfterCutoff(rows[..i], end)
    {
      var row := rows[i];
      assert rows[..i + 1][..i] == rows[..i];
      if row.id < 0 || row.time <= 0 || (i > 0 && row.id <= rows[i - 1].id) || row.time < priorTime || row.time < start {
        RefusedRow(rows, i, scan, start, end);
        return Blocked("pagination order changed"), priorTime, afterCutoff;
      }
      if row.time <= end && (afterCutoff || HasId(collected, row.id)) {
        RefusedRow(rows, i, scan, start, end);
        return Blocked("window/identity changed"), priorTime, afterCutoff;
      }
      priorTime := row.time;
      if row.time > end {
        afterCutoff := true;
      } else {
        collected := collected + [row];
      }
      i := i + 1;
    }
    assert rows[..i] == rows;
    return Done(collected), priorTime, afterCutoff;
  }

  lemma {:induction false} RefusedRow(rows: seq<Record>, i: nat, scan: Scan, start: int, end: int)
    requires i < |rows| && !NextRow(rows[i], rows[..i], scan, start, end)
    ensures !RowsAcceptable(rows, scan, start, end)
    decreases |rows|
  {
    var n := |rows| - 1;
    if i < n {
      assert rows[..n][..i] == rows[..i];
      RefusedRow(rows[..n], i, scan, start, end);
    }
  }

  lemma {:induction false} CutoffWitness(rows: seq<Record>, end: int)
    ensures AfterCutoff(rows, end) <==> exists i :: 0 <= i < |rows| && rows[i].time > end
  {
    if rows != [] {
      var n := |rows| - 1;
      CutoffWitness(rows[..n], end);
      if i :| 0 <= i < n && rows[i].time > end { assert rows[..n][i].time > end; }
    }
  }

  /** One page: envelope and query, then the rows, then the completion claim. */
  method CheckPage(page: Page, scan: Scan, isLast: bool, start: int, end: int) returns (reply: Reply<Scan>)
    ensures reply.Done? <==> PageAcceptable(page, scan, isLast, start, end)
    ensures reply.Done? ==> reply.value == PageScanned(page, scan, start, end)
  {
    if !page.envelopeExact || !ExpectedQuery(page.query, scan.cursor, start, end) {
      return Blocked("request/page envelope changed");
    }
    var rows, priorTime, afterCutoff := ScanRows(page.rows, scan, start, end);
    if rows.Blocked? { return Blocked(rows.reason); }
    var cursor := scan.cursor;
    if page.completion.Continue? {
      if isLast || |page.rows| != PAGE_LIMIT { return Blocked("pagination is truncated"); }
      cursor := Some(page.rows[|page.rows| - 1].id + 1);
      if page.nextCursor != cursor.value { return Blocked("cursor changed"); }
    } else {
      if !isLast { return Blocked("terminated before its last page"); }
      if page.completion.EmptyPage? && page.rows != [] { return Blocked("empty-page proof changed"); }
      if page.completion.ShortPage? && |page.rows| >= PAGE_LIMIT { return Blocked("short-page proof changed"); }
      if page.completion.RowAfterCutoff? && !afterCutoff { return Blocked("cutoff proof changed"); }
    }
    return Done(Scan(cursor, priorTime, rows.value));
  }

  /** The whole check: accepted exactly when every page is, with what was collected. */
  method CollectPages(pages: seq<Page>, start: int, end: int) returns (reply: Reply<seq<Record>>)
    ensures reply.Done? <==> pages != [] && ScanOf(pages, |pages|, start, end).Some?
    ensures reply.Done? ==> reply.value == ScanOf(pages, |pages|, start, end).value.collected
  {
    if pages == [] { return Blocked("pagination proof is absent"); }
    var scan := Scan(None, start - 1, []);
    var i := 0;
    while i < |pages|
      invariant 0 <= i <= |pages|
      invariant ScanOf(pages[..i], |pages|, start, end) == Some(scan)
    {
      assert pages[..i + 1][..i] == pages[..i];
      var page := CheckPage(pages[i], scan, i == |pages| - 1, start, end);
      if page.Blocked? {
        RefusedPage(pages, i, scan, start, end);
        return Blocked(page.reason);
      }
      scan := page.value;
      i := i + 1;
    }
    assert pages[..i] == pages;
    return Done(scan.collected);
  }

  lemma {:induction false} RefusedStays(pages: seq<Page>, total: nat, i: nat, start: int, end: int)
    requires i <= |pages| && ScanOf(pages[..i], total, start, end) == None
    ensures ScanOf(pages, total, start, end) == None
    decreases |pages|
  {
    if i < |pages| {
      assert pages[..|pages| - 1][..i] == pages[..i];
      RefusedStays(pages[..|pages| - 1], total, i, start, end);
    } else {
      assert pages[..i] == pages;
    }
  }

  lemma RefusedPage(pages: seq<Page>, i: nat, scan: Scan, start: int, end: int)
    requires i < |pages| && ScanOf(pages[..i], |pages|, start, end) == Some(scan)
    requires !PageAcceptable(pages[i], scan, i + 1 == |pages|, start, end)
    ensures ScanOf(pages, |pages|, start, end) == None
  {
    assert pages[..i + 1][..i] == pages[..i];
    RefusedStays(pages, |pages|, i + 1, start, end);
  }

  // ---- What the server truthfully answers ------------------------------------------------------------------

  /** Ids strictly increase and times do not decrease. */
  ghost predicate Chronological(history: seq<Record>) {
    forall i, j :: 0 <= i < j < |history| ==> history[i].id < history[j].id && history[i].time <= history[j].time
  }

  function FirstOnes(records: seq<Record>): seq<Record> { if |records| <= PAGE_LIMIT then records else records[..PAGE_LIMIT] }

  /** The records from the cursor on. */
  function From(records: seq<Record>, cursor: int): seq<Record> {
    if records == [] then [] else
      var last := records[|records| - 1];
      From(records[..|records| - 1], cursor) + (if last.id >= cursor then [last] else [])
  }

  /** A true answer over the records there are: at most a page, from the front. */
  function Answer(records: seq<Record>, query: Query): seq<Record> {
    match query
    case ByTime(startTime, endTime) => FirstOnes(Window(records, startTime, endTime))
    case ByCursor(cursor) => FirstOnes(From(records, cursor))
  }

  /** Page i was answered when the history held its first `known[i]` records; it only ever grew. */
  ghost predicate TrulyAnswered(pages: seq<Page>, history: seq<Record>, known: seq<nat>) {
    && |known| == |pages|
    && (forall i :: 0 <= i < |known| ==> known[i] <= |history|)
    && (forall i, j :: 0 <= i < j < |known| ==> known[i] <= known[j])
    && (forall i :: 0 <= i < |pages| ==> pages[i].rows == Answer(history[..known[i]], pages[i].query))
  }

  lemma WindowAppend(records: seq<Record>, r: Record, start: int, end: int)
    ensures Window(records + [r], start, end) == Window(records, start, end) + (if start <= r.time <= end then [r] else [])
  {
    assert (records + [r])[..|records|] == records;
  }

  lemma {:induction false} WindowConcat(a: seq<Record>, b: seq<Record>, start: int, end: int)
    ensures Window(a + b, start, end) == Window(a, start, end) + Window(b, start, end)
    decreases |b|
  {
    if b == [] {
      assert a + b == a;
    } else {
      var rest, last := b[..|b| - 1], b[|b| - 1];
      WindowConcat(a, rest, start, end);
      WindowAppend(rest, last, start, end);
      WindowAppend(a + rest, last, start, end);
      assert b == rest + [last] && a + b == (a + rest) + [last];
    }
  }

  lemma {:induction false} WindowOfOutside(records: seq<Record>, start: int, end: int)
    requires forall i :: 0 <= i < |records| ==> !(start <= records[i].time <= end)
    ensures Window(records, start, end) == []
  {
    if records != [] { WindowOfOutside(records[..|records| - 1], start, end); }
  }

  lemma {:induction false} WindowOfInside(records: seq<Record>, start: int, end: int)
    requires forall i :: 0 <= i < |records| ==> start <= records[i].time <= end
    ensures Window(records, start, end) == records
  {
    if records != [] {
      var rest := records[..|records| - 1];
      forall i | 0 <= i < |rest| ensures start <= rest[i].time <= end { assert rest[i] == records[i]; }
      WindowOfInside(rest, start, end);
      WindowAppend(rest, records[|records| - 1], start, end);
      assert records == rest + [records[|records| - 1]];
    }
  }

  /** Where the times of a chronological history reach a bound. */
  lemma TimeSplit(history: seq<Record>, bound: int) returns (position: nat)
    requires Chronological(history)
    ensures position <= |history|
    ensures forall i :: 0 <= i < position ==> history[i].time < bound
    ensures forall i :: position <= i < |history| ==> history[i].time >= bound
  {
    position := 0;
    while position < |history| && history[position].time < bound
      invariant position <= |history|
      invariant forall i :: 0 <= i < position ==> history[i].time < bound
    {
      position := position + 1;
    }
  }

  lemma SliceOfSlice(records: seq<Record>, from: nat, to: nat, count: nat)
    requires from <= to <= |records| && from + count <= to
    ensures records[from..to][..count] == records[from..from + count]
  {}

  lemma SliceOfPrefix(records: seq<Record>, known: nat, from: nat, to: nat)
    requires from <= to <= known <= |records|
    ensures records[..known][from..to] == records[from..to]
  {}

  lemma ThreeSlices(records: seq<Record>, from: nat, to: nat)
    requires from <= to <= |records|
    ensures records[..from] + records[from..to] + records[to..] == records
  {}

  /** Three stretches of which only the middle one is inside. */
  lemma WindowOfThree(before: seq<Record>, inside: seq<Record>, later: seq<Record>, start: int, end: int)
    requires forall i :: 0 <= i < |before| ==> !(start <= before[i].time <= end)
    requires forall i :: 0 <= i < |inside| ==> start <= inside[i].time <= end
    requires forall i :: 0 <= i < |later| ==> !(start <= later[i].time <= end)
    ensures Window(before + inside + later, start, end) == inside
  {
    WindowConcat(before + inside, later, start, end);
    WindowConcat(before, inside, start, end);
    WindowOfOutside(before, start, end);
    WindowOfInside(inside, start, end);
    WindowOfOutside(later, start, end);
  }

  /** The window of a chronological history is one contiguous stretch of it. */
  lemma WindowIsStretch(history: seq<Record>, start: int, end: int) returns (from: nat, to: nat)
    requires Chronological(history)
    ensures from <= to <= |history| && Window(history, start, end) == history[from..to]
    ensures forall i :: from <= i < to ==> start <= history[i].time <= end
    ensures forall i :: 0 <= i < from ==> history[i].time < start
    ensures forall i :: to <= i < |history| ==> !(start <= history[i].time <= end)
  {
    from := TimeSplit(history, start);
    var past := TimeSplit(history, end + 1);
    to := if past < from then from else past;
    WindowOfThree(history[..from], history[from..to], history[to..], start, end);
    ThreeSlices(history, from, to);
  }

  /** Splitting the ids of a chronological history at a cursor. */
  predicate SplitsAt(history: seq<Record>, position: nat, cursor: int) {
    && position <= |history|
    && (forall i :: 0 <= i < position ==> history[i].id < cursor)
    && (forall i :: position <= i < |history| ==> history[i].id >= cursor)
  }

  lemma {:induction false} FromIsRest(history: seq<Record>, position: nat, cursor: int, known: nat)
    requires position <= known <= |history| && SplitsAt(history, position, cursor)
    ensures From(history[..known], cursor) == history[position..known]
    decreases known
  {
    if known == position {
      FromNothing(history[..known], cursor);
    } else {
      FromIsRest(history, position, cursor, known - 1);
      assert history[..known][..known - 1] == history[..known - 1];
      assert history[position..known] == history[position..known - 1] + [history[known - 1]];
    }
  }

  lemma {:induction false} FromNothing(records: seq<Record>, cursor: int)
    requires forall i :: 0 <= i < |records| ==> records[i].id < cursor
    ensures From(records, cursor) == []
  {
    if records != [] { FromNothing(records[..|records| - 1], cursor); }
  }

  /** Everything before `position` has been collected, and the cursor stands exactly there. */
  ghost predicate CollectedUpTo(scan: Scan, history: seq<Record>, position: nat, start: int, end: int) {
    && scan.cursor.Some? && SplitsAt(history, position, scan.cursor.value)
    && scan.collected == Window(history[..position], start, end)
  }

  /** The scan has dealt with a nonempty stretch that reaches into the window. */
  ghost predicate Underway(scan: Scan, history: seq<Record>, position: nat, start: int, end: int) {
    && CollectedUpTo(scan, history, position, start, end)
    && 0 < position <= |history| && history[position - 1].time >= start && scan.priorTime <= history[position - 1].time
  }

  /** The first page is a stretch of the history inside the window. */
  lemma FirstPageStretch(rows: seq<Record>, history: seq<Record>, known: nat, start: int, end: int) returns (from: nat)
    requires Chronological(history) && known <= |history|
    requires rows == FirstOnes(Window(history[..known], start, end))
    ensures from + |rows| <= known && rows == history[from..from + |rows|]
    ensures Window(history[..from], start, end) == []
    ensures forall i :: from <= i < from + |rows| ==> start <= history[i].time <= end
  {
    var stretchFrom, to := WindowIsStretch(history[..known], start, end);
    from := stretchFrom;
    SliceOfPrefix(history, known, from, to);
    forall i | 0 <= i < from ensures history[..from][i].time < start { assert history[..known][i] == history[..from][i]; }
    WindowOfOutside(history[..from], start, end);
    forall i | from <= i < to ensures start <= history[i].time <= end { assert history[..known][i] == history[i]; }
    SliceOfSlice(history, from, to, if to - from <= PAGE_LIMIT then to - from else PAGE_LIMIT);
  }

  /** The first page, when it is full. */
  lemma FirstPageFull(page: Page, history: seq<Record>, known: nat, start: int, end: int) returns (position: nat)
    requires Chronological(history) && known <= |history|
    requires page.rows == Answer(history[..known], ByTime(start, end)) && |page.rows| == PAGE_LIMIT && page.completion.Continue?
    ensures position <= known && Underway(PageScanned(page, Scan(None, start - 1, []), start, end), history, position, start, end)
  {
    var from := FirstPageStretch(page.rows, history, known, start, end);
    position := from + PAGE_LIMIT;
    StretchCollected(history, from, position, start, end);
    assert page.rows[|page.rows| - 1] == history[position - 1];
    SplitAfter(history, position);
  }

  /** A cursor page is the next stretch of the history, and a short one reaches its end. */
  lemma CursorPageIsStretch(rows: seq<Record>, history: seq<Record>, known: nat, position: nat, cursor: int) returns (next: nat)
    requires position <= known <= |history| && SplitsAt(history, position, cursor)
    requires rows == FirstOnes(From(history[..known], cursor))
    ensures position <= next <= known && rows == history[position..next]
    ensures |rows| < PAGE_LIMIT ==> next == known
  {
    FromIsRest(history, position, cursor, known);
    next := if known - position <= PAGE_LIMIT then known else position + PAGE_LIMIT;
    if known - position > PAGE_LIMIT {
      assert history[position..known][..PAGE_LIMIT] == history[position..next];
    }
  }

  lemma SplitAfter(history: seq<Record>, position: nat)
    requires Chronological(history) && 0 < position <= |history|
    ensures SplitsAt(history, position, history[position - 1].id + 1)
  {}

  lemma StretchCollected(history: seq<Record>, position: nat, next: nat, start: int, end: int)
    requires position <= next <= |history|
    ensures Window(history[..position], start, end) + Window(history[position..next], start, end) == Window(history[..next], start, end)
  {
    WindowConcat(history[..position], history[position..next], start, end);
    assert history[..position] + history[position..next] == history[..next];
  }

  lemma CursorAfterStretch(rows: seq<Record>, history: seq<Record>, position: nat, next: nat)
    requires Chronological(history) && position < next <= |history| && rows == history[position..next]
    ensures SplitsAt(history, next, rows[|rows| - 1].id + 1)
  {
    assert rows[|rows| - 1] == history[next - 1];
    SplitAfter(history, next);
  }

  /** A later page, whether or not it is the last. */
  lemma LaterPage(scan: Scan, page: Page, history: seq<Record>, known: nat, position: nat, start: int, end: int)
    returns (next: nat)
    requires Chronological(history) && position <= known <= |history|
    requires CollectedUpTo(scan, history, position, start, end)
    requires page.rows == Answer(history[..known], ByCursor(scan.cursor.value))
    ensures position <= next <= known && page.rows == history[position..next]
    ensures |page.rows| < PAGE_LIMIT ==> next == known
    ensures PageScanned(page, scan, start, end).collected == Window(history[..next], start, end)
    ensures page.completion.Continue? && page.rows != [] ==>
              CollectedUpTo(PageScanned(page, scan, start, end), history, next, start, end)
  {
    next := CursorPageIsStretch(page.rows, history, known, position, scan.cursor.value);
    StretchCollected(history, position, next, start, end);
    if page.rows != [] { CursorAfterStretch(page.rows, history, position, next); }
  }

  lemma {:induction false} ScanPrefix(pages: seq<Page>, total: nat, i: nat, start: int, end: int)
    requires i < |pages| && ScanOf(pages, total, start, end).Some?
    ensures ScanOf(pages[..i], total, start, end).Some?
    ensures PageAcceptable(pages[i], ScanOf(pages[..i], total, start, end).value, i + 1 == total, start, end)
    ensures ScanOf(pages[..i + 1], total, start, end)
            == Some(PageScanned(pages[i], ScanOf(pages[..i], total, start, end).value, start, end))
    decreases |pages|
  {
    ScanInit(pages, total, start, end);
    var n := |pages| - 1;
    if i == n {
      assert pages[..i + 1] == pages;
    } else {
      var init := pages[..n];
      PrefixOfInit(pages, init, i);
      ScanPrefix(init, total, i, start, end);
    }
  }

  lemma PrefixOfInit(pages: seq<Page>, init: seq<Page>, i: nat)
    requires pages != [] && init == pages[..|pages| - 1] && i < |init|
    ensures init[..i] == pages[..i] && init[..i + 1] == pages[..i + 1] && init[i] == pages[i]
  {}

  /** The last page was scanned after the ones before it. */
  lemma ScanInit(pages: seq<Page>, total: nat, start: int, end: int)
    requires pages != [] && ScanOf(pages, total, start, end).Some?
    ensures var n := |pages| - 1;
            var before := ScanOf(pages[..n], total, start, end);
            && before.Some? && PageAcceptable(pages[n], before.value, n + 1 == total, start, end)
            && ScanOf(pages, total, start, end) == Some(PageScanned(pages[n], before.value, start, end))
  {}

  /** After `count` pages, none of them the last, a stretch of the history from its start has been dealt with. */
  lemma {:induction false} ContinuedScan(
    pages: seq<Page>, count: nat, history: seq<Record>, known: seq<nat>, start: int, end: int) returns (position: nat)
    requires Chronological(history) && TrulyAnswered(pages, history, known)
    requires 0 < count < |pages| && ScanOf(pages, |pages|, start, end).Some?
    ensures ScanOf(pages[..count], |pages|, start, end).Some?
    ensures position <= known[count - 1]
    ensures CollectedUpTo(ScanOf(pages[..count], |pages|, start, end).value, history, position, start, end)
    decreases count
  {
    ScanPrefix(pages, |pages|, count - 1, start, end);
    var page := pages[count - 1];
    assert page.completion.Continue?;
    if count == 1 {
      assert pages[..0] == [];
      position := FirstPageFull(page, history, known[0], start, end);
    } else {
      var before := ContinuedScan(pages, count - 1, history, known, start, end);
      position := LaterPage(ScanOf(pages[..count - 1], |pages|, start, end).value, page, history, known[count - 1], before, start, end);
    }
  }

  /** In time order, once a record is after the cutoff nothing later is in the window. */
  lemma NothingAfterCutoff(history: seq<Record>, next: nat, known: nat, start: int, end: int, late: nat)
    requires Chronological(history) && late < next <= known <= |history| && history[late].time > end
    ensures Window(history[..known], start, end) == Window(history[..next], start, end)
  {
    WindowConcat(history[..next], history[next..known], start, end);
    assert history[..next] + history[next..known] == history[..known];
    forall i | 0 <= i < known - next ensures history[next..known][i].time > end {
      assert history[next..known][i] == history[next + i];
    }
    WindowOfOutside(history[next..known], start, end);
  }

  /** One page that is already the last. */
  lemma OnlyPage(page: Page, history: seq<Record>, known: nat, start: int, end: int)
    requires Chronological(history) && known <= |history|
    requires page.rows == Answer(history[..known], ByTime(start, end)) && !page.completion.Continue?
    requires CompletionFits(page, true, end)
    ensures Window(page.rows, start, end) == Window(history[..known], start, end)
  {
    var from, to := WindowIsStretch(history[..known], start, end);
    var all := history[..known][from..to];
    forall i | 0 <= i < |all| ensures start <= all[i].time <= end {
      assert all[i] == history[..known][from + i];
    }
    WindowOfInside(all, start, end);
    assert forall i :: 0 <= i < |page.rows| ==> page.rows[i] == all[i];
    CutoffWitness(page.rows, end);
  }

  /** The last page of several. */
  lemma LastPage(scan: Scan, page: Page, history: seq<Record>, known: nat, position: nat, start: int, end: int)
    requires Chronological(history) && position <= known <= |history|
    requires CollectedUpTo(scan, history, position, start, end)
    requires page.rows == Answer(history[..known], ByCursor(scan.cursor.value)) && CompletionFits(page, true, end)
    ensures PageScanned(page, scan, start, end).collected == Window(history[..known], start, end)
  {
    var next := LaterPage(scan, page, history, known, position, start, end);
    if next < known {
      CutoffWitness(page.rows, end);
      var i :| 0 <= i < |page.rows| && page.rows[i].time > end;
      NothingAfterCutoff(history, next, known, start, end, position + i);
    }
  }

  /**
    If every page is the server's true answer to its recorded query -- over a history that may have
    grown from page to page -- an accepted listing yields exactly the records of the time window, as
    of the last page: in order, none missing, none twice, none from outside.
  */
  lemma AcceptedIsExactWindow(pages: seq<Page>, history: seq<Record>, known: seq<nat>, start: int, end: int)
    requires pages != [] && Chronological(history) && TrulyAnswered(pages, history, known)
    requires ScanOf(pages, |pages|, start, end).Some?
    ensures ScanOf(pages, |pages|, start, end).value.collected == Window(history[..known[|pages| - 1]], start, end)
  {
    var n := |pages| - 1;
    ScanPrefix(pages, |pages|, n, start, end);
    assert pages[..n + 1] == pages;
    if n == 0 {
      assert pages[..0] == [];
      OnlyPage(pages[0], history, known[0], start, end);
    } else {
      var position := ContinuedScan(pages, n, history, known, start, end);
      LastPage(ScanOf(pages[..n], |pages|, start, end).value, pages[n], history, known[n], position, start, end);
    }
  }

  /** Without duplicates, and nothing from outside the window. */
  lemma {:induction false} WindowIsClean(history: seq<Record>, start: int, end: int)
    requires Chronological(history)
    ensures var w := Window(history, start, end);
            && Chronological(w)
            && forall r :: r in w <==> r in history && start <= r.time <= end
  {
    var from, to := WindowIsStretch(history, start, end);
    forall r ensures r in history[from..to] <==> r in history && start <= r.time <= end {
      if r in history[from..to] {
        var i :| from <= i < to && history[i] == r;
      }
      if r in history && start <= r.time <= end {
        var i :| 0 <= i < |history| && history[i] == r;
        assert history[from..to][i - from] == r;
      }
    }
  }

  // ---- A true and complete listing is accepted ----------------------------------------------------------------

  /** The server hands out nonnegative ids and positive times. */
  predicate Positive(history: seq<Record>) { forall i :: 0 <= i < |history| ==> history[i].id >= 0 && history[i].time > 0 }

  /**
    The client asked for the window first and then on from the last id it got, a thousand records a
    page, and stopped at an empty or short page or at one that reaches past the window.
  */
  ghost predicate Followed(pages: seq<Page>, start: int, end: int) {
    && (forall i :: 0 <= i < |pages| ==> pages[i].envelopeExact)
    && (pages != [] ==> pages[0].query == ByTime(start, end) && Ended(pages[|pages| - 1], end))
    && (forall i :: 0 <= i < |pages| - 1 ==> Continued(pages[i], pages[i + 1]))
  }

  predicate Continued(page: Page, next: Page) {
    && page.completion.Continue? && |page.rows| == 1000
    && page.nextCursor == page.rows[999].id + 1 && next.query == ByCursor(page.rows[999].id + 1)
  }

  predicate Ended(page: Page, end: int) {
    match page.completion
    case EmptyPage => page.rows == []
    case ShortPage => |page.rows| < 1000
    case RowAfterCutoff => exists i :: 0 <= i < |page.rows| && page.rows[i].time > end
    case Continue => false
  }

  lemma {:induction false} WindowMembers(records: seq<Record>, start: int, end: int, r: Record)
    requires r in Window(records, start, end)
    ensures r in records
  {
    var n := |records| - 1;
    assert records == records[..n] + [records[n]];
    if r in Window(records[..n], start, end) { WindowMembers(records[..n], start, end, r); }
  }

  /** A record of the history is acceptable after the stretch before it. */
  lemma RowFits(scan: Scan, history: seq<Record>, position: nat, i: nat, start: int, end: int)
    requires Chronological(history) && Positive(history) && position <= i < |history|
    requires scan.collected == Window(history[..position], start, end)
    requires history[i].time >= start && history[i].time >= scan.priorTime
    ensures NextRow(history[i], history[position..i], scan, start, end)
  {
    var before := history[position..i];
    if before != [] { assert before[|before| - 1] == history[i - 1]; }
    CutoffWitness(before, end);
    forall j | 0 <= j < |before| ensures before[j].time <= history[i].time { assert before[j] == history[position + j]; }
    StretchCollected(history, position, i, start, end);
    forall r | r in Window(history[..i], start, end) ensures r.id < history[i].id {
      WindowMembers(history[..i], start, end, r);
    }
  }

  lemma RowsAppend(rows: seq<Record>, row: Record, scan: Scan, start: int, end: int)
    requires RowsAcceptable(rows, scan, start, end) && NextRow(row, rows, scan, start, end)
    ensures RowsAcceptable(rows + [row], scan, start, end)
  {
    assert (rows + [row])[..|rows|] == rows;
  }

  lemma {:induction false} StretchAcceptable(scan: Scan, history: seq<Record>, position: nat, next: nat, start: int, end: int)
    requires Chronological(history) && Positive(history) && position <= next <= |history|
    requires scan.collected == Window(history[..position], start, end)
    requires forall i :: position <= i < next ==> history[i].time >= start && history[i].time >= scan.priorTime
    ensures RowsAcceptable(history[position..next], scan, start, end)
    decreases next
  {
    if position < next {
      StretchAcceptable(scan, history, position, next - 1, start, end);
      RowFits(scan, history, position, next - 1, start, end);
      RowsAppend(history[position..next - 1], history[next - 1], scan, start, end);
      assert history[position..next] == history[position..next - 1] + [history[next - 1]];
    }
  }

  lemma FirstPageAccepted(page: Page, history: seq<Record>, known: nat, isLast: bool, start: int, end: int)
    requires Chronological(history) && Positive(history) && known <= |history|
    requires page.envelopeExact && page.query == ByTime(start, end) && page.rows == Answer(history[..known], page.query)
    requires CompletionFits(page, isLast, end)
    ensures PageAcceptable(page, Scan(None, start - 1, []), isLast, start, end)
  {
    var from := FirstPageStretch(page.rows, history, known, start, end);
    StretchAcceptable(Scan(None, start - 1, []), history, from, from + |page.rows|, start, end);
  }

  lemma NextPageAccepted(
    scan: Scan, page: Page, history: seq<Record>, known: nat, position: nat, isLast: bool, start: int, end: int)
    requires Chronological(history) && Positive(history) && position <= known <= |history|
    requires Underway(scan, history, position, start, end)
    requires page.envelopeExact && page.query == ByCursor(scan.cursor.value) && page.rows == Answer(history[..known], page.query)
    requires CompletionFits(page, isLast, end)
    ensures PageAcceptable(page, scan, isLast, start, end)
  {
    var next := CursorPageIsStretch(page.rows, history, known, position, scan.cursor.value);
    StretchAcceptable(scan, history, position, next, start, end);
  }

  lemma CompletionsFit(pages: seq<Page>, start: int, end: int, i: nat)
    requires Followed(pages, start, end) && i < |pages|
    ensures CompletionFits(pages[i], i + 1 == |pages|, end)
  {
    if i + 1 == |pages| {
      CutoffWitness(pages[i].rows, end);
    } else {
      assert Continued(pages[i], pages[i + 1]);
    }
  }

  /** Page by page: after a continued page the scan is underway, and its cursor is what the next page asked with. */
  ghost predicate Reached(
    pages: seq<Page>, count: nat, history: seq<Record>, known: seq<nat>, position: nat, start: int, end: int)
    requires 0 < count < |pages| && |known| == |pages|
  {
    && ScanOf(pages[..count], |pages|, start, end).Some?
    && var scan := ScanOf(pages[..count], |pages|, start, end).value;
    && Underway(scan, history, position, start, end) && position <= known[count - 1]
    && pages[count].query == ByCursor(scan.cursor.value)
  }

  /** Scanning one page more. */
  lemma OnePageMore(pages: seq<Page>, count: nat, scan: Scan, start: int, end: int)
    requires 0 < count < |pages| && ScanOf(pages[..count - 1], |pages|, start, end) == Some(scan)
    requires PageAcceptable(pages[count - 1], scan, false, start, end)
    ensures ScanOf(pages[..count], |pages|, start, end) == Some(PageScanned(pages[count - 1], scan, start, end))
  {
    assert pages[..count][..count - 1] == pages[..count - 1];
  }

  lemma FirstPageReached(pages: seq<Page>, history: seq<Record>, known: seq<nat>, start: int, end: int) returns (position: nat)
    requires Chronological(history) && Positive(history) && TrulyAnswered(pages, history, known) && Followed(pages, start, end)
    requires 1 < |pages|
    ensures Reached(pages, 1, history, known, position, start, end)
  {
    assert Continued(pages[0], pages[1]);
    CompletionsFit(pages, start, end, 0);
    FirstPageAccepted(pages[0], history, known[0], false, start, end);
    position := FirstPageFull(pages[0], history, known[0], start, end);
    assert pages[..0] == [];
    OnePageMore(pages, 1, Scan(None, start - 1, []), start, end);
  }

  lemma NextPageReached(
    pages: seq<Page>, count: nat, history: seq<Record>, known: seq<nat>, before: nat, start: int, end: int) returns (position: nat)
    requires Chronological(history) && Positive(history) && TrulyAnswered(pages, history, known) && Followed(pages, start, end)
    requires 0 < count < |pages| - 1 && Reached(pages, count, history, known, before, start, end)
    ensures Reached(pages, count + 1, history, known, position, start, end)
  {
    var page := pages[count];
    assert Continued(page, pages[count + 1]);
    CompletionsFit(pages, start, end, count);
    var scan := ScanOf(pages[..count], |pages|, start, end).value;
    NextPageAccepted(scan, page, history, known[count], before, false, start, end);
    position := LaterPage(scan, page, history, known[count], before, start, end);
    OnePageMore(pages, count + 1, scan, start, end);
  }

  lemma {:induction false} AcceptedSoFar(
    pages: seq<Page>, count: nat, history: seq<Record>, known: seq<nat>, start: int, end: int) returns (position: nat)
    requires Chronological(history) && Positive(history) && TrulyAnswered(pages, history, known) && Followed(pages, start, end)
    requires 0 < count < |pages|
    ensures Reached(pages, count, history, known, position, start, end)
    decreases count
  {
    if count == 1 {
      position := FirstPageReached(pages, history, known, start, end);
    } else {
      var before := AcceptedSoFar(pages, count - 1, history, known, start, end);
      position := NextPageReached(pages, count - 1, history, known, before, start, end);
    }
  }

  /**
    The other direction: whoever lists the window as the exchange prescribes, and records the true
    answers, is accepted -- records that share a time, pages that end exactly at the window, and a
    history that grows meanwhile included.
  */
  lemma TrueListingIsAccepted(pages: seq<Page>, history: seq<Record>, known: seq<nat>, start: int, end: int)
    requires pages != [] && Chronological(history) && Positive(history)
    requires TrulyAnswered(pages, history, known) && Followed(pages, start, end)
    ensures ScanOf(pages, |pages|, start, end).Some?
  {
    var n := |pages| - 1;
    CompletionsFit(pages, start, end, n);
    if n == 0 {
      assert pages[..0] == [];
      FirstPageAccepted(pages[0], history, known[0], true, start, end);
    } else {
      var position := AcceptedSoFar(pages, n, history, known, start, end);
      NextPageAccepted(ScanOf(pages[..n], |pages|, start, end).value, pages[n], history, known[n], position, true, start, end);
    }
  }
}
