/** The page source: `fetch_hour_data`, `fetch_parallel_batch` and `fetch_page` over an archive of hourly files. */
module Pages {
  import opened Wrappers
  import opened Hours
  import opened Calendar
  import opened Cursors
  import opened Fills
  import opened Parsing

  /** An hourly file is named by its folder and its hour. */
  datatype ObjectKey = ObjectKey(path: Schema, hour: int)

  /** The three ways in which downloading and decompressing one file ends. */
  datatype Download = Body(lines: seq<Line>) | NoSuchKey | Broken(error: Error)

  /** What the archive answers during one page. */
  type Archive = ObjectKey -> Download

  /** One requested hour, with its fills if the file was downloaded and parsed. */
  datatype Request = Request(hour: int, fills: Option<seq<Fill>>)

  datatype Batch = Batch(requests: seq<Request>, cursor: Option<int>, hasMore: bool)

  const PARALLEL_FETCHES: nat := 8
  const HOURS_PER_BATCH: nat := 8
  const PARALLEL_THRESHOLD: nat := 4

  function Download1(net: Archive, date: int): Download {
    net(ObjectKey(DataPath(date), HourOf(date)))
  }

  /** Download and parse the file of the hour that contains `date`. */
  function FetchHour(net: Archive, date: int): Request {
    Request(HourOf(date),
            match Download1(net, date)
            case Body(lines) =>
              (match ParseLines(LineSchema(date), lines)
               case Ok(fills) => Some(fills)
               case Err(_) => None)
            case _ => None)
  }

  /** `n` consecutive hours, fetched one after the other. */
  function FetchHours(net: Archive, date: int, n: nat): (rs: seq<Request>)
    ensures |rs| == n
  {
    if n == 0 then [] else FetchHours(net, date, n - 1) + [FetchHour(net, HoursLater(date, n - 1))]
  }

  function Got(r: Request): seq<Fill> {
    if r.fills.Some? then r.fills.value else []
  }

  /** The fills of the hours that were read, in order; the others contribute nothing. */
  function Flatten(rs: seq<Request>): seq<Fill> {
    if rs == [] then [] else
      var n := |rs| - 1;
      Flatten(rs[..n]) + Got(rs[n])
  }

  function FillsIn(b: Batch): seq<Fill> {
    Flatten(b.requests)
  }

  /** `join_all` over the downloads of the hours `from` to `to`: the results keep the order of the hours. */
  method JoinAll(net: Archive, start: int, from: nat, to: nat) returns (results: seq<Download>)
    requires from <= to <= from + 8
    ensures |results| == to - from
    ensures forall k :: 0 <= k < |results| ==> results[k] == Download1(net, HoursLater(start, from + k))
  {
    results := [];
    for offset := from to to
      invariant |results| == offset - from
      invariant forall k :: 0 <= k < |results| ==> results[k] == Download1(net, HoursLater(start, from + k))
    {
      results := results + [Download1(net, HoursLater(start, offset))];
    }
  }

  /** The loop of `fetch_parallel_batch`: rounds of eight downloads, then the results in order. */
  method FetchParallelBatch(net: Archive, start: int, hours: nat)
    returns (allFills: seq<Fill>)
    ensures allFills == Flatten(FetchHours(net, start, hours))
  {
    allFills := [];
    ghost var requests: seq<Request> := [];
    var batchStart := 0;
    while batchStart < hours
      invariant 0 <= batchStart <= hours
      invariant |requests| == batchStart && allFills == Flatten(requests)
      invariant forall k :: 0 <= k < batchStart ==> requests[k] == FetchHour(net, HoursLater(start, k))
    {
      var batchEnd := if batchStart + PARALLEL_FETCHES < hours then batchStart + PARALLEL_FETCHES else hours;
      var results := JoinAll(net, start, batchStart, batchEnd);
      var round := ReadRound(net, start, batchStart, results);
      allFills := Extend(requests, round, allFills);
      forall k | batchStart <= k < batchEnd
        ensures (requests + round)[k] == FetchHour(net, HoursLater(start, k))
      {
        assert (requests + round)[k] == round[k - batchStart];
      }
      requests := requests + round;
      batchStart := batchEnd;
    }
    FetchHoursIs(net, start, requests);
  }

  /** `all_fills.extend(fills)` for each hour of a round. */
  method Extend(ghost before: seq<Request>, round: seq<Request>, fills: seq<Fill>) returns (allFills: seq<Fill>)
    requires fills == Flatten(before)
    ensures allFills == Flatten(before + round)
  {
    allFills := fills;
    assert before + round[..0] == before;
    for idx := 0 to |round|
      invariant allFills == Flatten(before + round[..idx])
    {
      FlattenNext(before, round, idx);
      allFills := allFills + Got(round[idx]);
    }
    assert round[..|round|] == round;
  }

  lemma FlattenNext(before: seq<Request>, round: seq<Request>, idx: nat)
    requires idx < |round|
    ensures Flatten(before + round[..idx + 1]) == Flatten(before + round[..idx]) + Got(round[idx])
  {
    var all := before + round[..idx + 1];
    assert all[..|all| - 1] == before + round[..idx];
  }

  /** One result of a round: failed downloads and failed parses leave an hour without fills. */
  method ReadHour(net: Archive, result: Download, fetchDate: int) returns (r: Request)
    requires result == Download1(net, fetchDate)
    ensures r == FetchHour(net, fetchDate)
  {
    r := Request(HourOf(fetchDate), None);
    if result.Body? {
      var parsed := ParseFills(result.lines, fetchDate);
      if parsed.Ok? {
        r := r.(fills := Some(parsed.value));
      }
    }
  }

  /** The results of one round, parsed. */
  method ReadRound(net: Archive, start: int, from: nat, results: seq<Download>) returns (rs: seq<Request>)
    requires forall k :: 0 <= k < |results| ==> results[k] == Download1(net, HoursLater(start, from + k))
    ensures |rs| == |results|
    ensures forall k :: 0 <= k < |rs| ==> rs[k] == FetchHour(net, HoursLater(start, from + k))
  {
    rs := [];
    for idx := 0 to |results|
      invariant |rs| == idx
      invariant forall k :: 0 <= k < idx ==> rs[k] == FetchHour(net, HoursLater(start, from + k))
    {
      var r := ReadHour(net, results[idx], HoursLater(start, from + idx));
      rs := rs + [r];
    }
  }

  lemma {:induction false} FetchHoursIs(net: Archive, date: int, rs: seq<Request>)
    requires forall k :: 0 <= k < |rs| ==> rs[k] == FetchHour(net, HoursLater(date, k))
    ensures FetchHours(net, date, |rs|) == rs
    decreases |rs|
  {
    if rs != [] {
      var n := |rs| - 1;
      FetchHoursIs(net, date, rs[..n]);
      assert rs == rs[..n] + [rs[n]];
    }
  }

  /** How many whole hours lie before `now`, at most eight; a time in the future wraps around. */
  function HoursUntilNow(now: int, current: int): nat {
    var hours := AsUsize(NumHours(now - current));
    if hours < 0 then 0 else if hours < HOURS_PER_BATCH then hours else HOURS_PER_BATCH
  }

  function Position(start: int, cursor: Option<int>): int {
    match cursor
    case Some(h) => HourStart(h)
    case None => start
  }

  /** The instant whose comparison with the clock decides `has_more` on a single-hour page. */
  function SinglePageBound(current: int): int {
    if HourOfDay(HourOf(current)) + 1 >= 24 then current + 86_400_000 else current
  }

  function ParallelPage(net: Archive, current: int, n: nat, now2: int): Batch {
    Batch(FetchHours(net, current, n), Some(HourOf(current) + n), HoursLater(current, n) < now2)
  }

  function SinglePage(net: Archive, current: int, now2: int): Result<Batch> {
    var h := HourOf(current);
    match Download1(net, current)
    case NoSuchKey => Ok(Batch([Request(h, None)], None, false))
    case Broken(e) => Err(e)
    case Body(lines) =>
      match ParseLines(LineSchema(current), lines)
      case Err(e) => Err(e)
      case Ok(fills) => Ok(Batch([Request(h, Some(fills))], Some(h + 1), SinglePageBound(current) < now2))
  }

  /** The page at a position: parallel if at least four hours have passed since then. */
  function PageAt(net: Archive, current: int, now1: int, now2: int): Result<Batch> {
    var n := HoursUntilNow(now1, current);
    if n >= PARALLEL_THRESHOLD then Ok(ParallelPage(net, current, n, now2)) else SinglePage(net, current, now2)
  }

  /** `fetch_page` with the cursor as an hour index; `now1` and `now2` are the two readings of the clock. */
  function FetchPage(net: Archive, start: int, cursor: Option<int>, now1: int, now2: int): Result<Batch> {
    PageAt(net, Position(start, cursor), now1, now2)
  }

  /** A page as the code returns it: the next cursor as the date and the hour that `format!` prints. */
  datatype PrintedPage = PrintedPage(fills: seq<Fill>, cursor: Option<(int, int)>, hasMore: bool)

  function AsPrinted(r: Result<Batch>): Result<PrintedPage> {
    match r
    case Err(e) => Err(e)
    case Ok(b) =>
      Ok(PrintedPage(FillsIn(b),
                     match b.cursor case None => None case Some(h) => Some((DayOf(h), HourOfDay(h))),
                     b.hasMore))
  }

  /** `fetch_page`, which reads the cursor text itself. `panicked` stands for the failing unwrap. */
  method FetchTextPage(net: Archive, start: int, cursor: Option<string>, now1: int, now2: int)
    returns (r: Result<PrintedPage>, panicked: bool)
    ensures panicked <==> cursor.Some? && ParseCursor(cursor.value) == Panic
    ensures CursorHour(cursor).None? ==> r == Err(Fatal)
    ensures var c := CursorHour(cursor);
            c.Some? ==> r == AsPrinted(FetchPage(net, start, c.value, now1, now2))
    ensures forall h :: Printable(h) && cursor == Some(PrintCursor(h)) ==>
                          !panicked && r == AsPrinted(FetchPage(net, start, Some(h), now1, now2))
  {
    if cursor.None? {
      r := FetchAt(net, start, now1, now2);
      return r, false;
    }
    var parsed := ParseCursor(cursor.value);
    PrintedCursorIsRead(cursor.value);
    match parsed {
      case At(h) =>
        r := FetchAt(net, HourStart(h), now1, now2);
        return r, false;
      case FromStart =>
        r := FetchAt(net, start, now1, now2);
        return r, false;
      case Rejected => return Err(Fatal), false;
      case Panic => return Err(Fatal), true;
    }
  }

  lemma PrintedCursorIsRead(s: string)
    ensures forall h :: Printable(h) && s == PrintCursor(h) ==> ParseCursor(s) == At(h)
  {
    forall h | Printable(h) && s == PrintCursor(h) ensures ParseCursor(s) == At(h) {
      CursorRoundTrip(h);
    }
  }

  method FetchAt(net: Archive, current: int, now1: int, now2: int) returns (r: Result<PrintedPage>)
    ensures r == AsPrinted(PageAt(net, current, now1, now2))
  {
    var n := HoursUntilNow(now1, current);
    if n >= PARALLEL_THRESHOLD {
      r := FetchParallelPage(net, current, n, now2);
    } else {
      r := FetchSinglePage(net, current, now2);
    }
  }

  method FetchParallelPage(net: Archive, current: int, n: nat, now2: int) returns (r: Result<PrintedPage>)
    ensures r == AsPrinted(Ok(ParallelPage(net, current, n, now2)))
  {
    var fills := FetchParallelBatch(net, current, n);
    var nextDate := HoursLater(current, n);
    HourShift(current, n);
    var h := HourOf(nextDate);
    r := Ok(PrintedPage(fills, Some((DayOf(h), HourOfDay(h))), nextDate < now2));
  }

  /** The single-hour page, with its hand-written rollover at midnight. */
  method FetchSinglePage(net: Archive, current: int, now2: int) returns (r: Result<PrintedPage>)
    ensures r == AsPrinted(SinglePage(net, current, now2))
  {
    var h := HourOf(current);
    match Download1(net, current) {
      case NoSuchKey =>
        FlattenOne(Request(h, None));
        return Ok(PrintedPage([], None, false));
      case Broken(e) => return Err(e);
      case Body(lines) =>
        var parsed := ParseFills(lines, current);
        if parsed.Err? {
          return Err(parsed.error);
        }
        var nextDay, nextHour, hasMore := NextHour(current, now2);
        FlattenOne(Request(h, Some(parsed.value)));
        return Ok(PrintedPage(parsed.value, Some((nextDay, nextHour)), hasMore));
    }
  }

  /** The rollover at midnight, and the instant that is compared with the clock. */
  method NextHour(current: int, now2: int) returns (nextDay: int, nextHour: int, hasMore: bool)
    ensures nextDay == DayOf(HourOf(current) + 1) && nextHour == HourOfDay(HourOf(current) + 1)
    ensures hasMore == (SinglePageBound(current) < now2)
  {
    var h := HourOf(current);
    var nextDate := current;
    nextDay, nextHour := DayOf(h), HourOfDay(h) + 1;
    if nextHour >= 24 {
      nextHour := 0;
      nextDay := nextDay + 1;
      nextDate := nextDate + 86_400_000;
    }
    RolloverIsNextHour(h);
    hasMore := nextDate < now2;
  }

  /** The hour index that a cursor text stands for, if any; None for a text that `fetch_page` does not accept. */
  function CursorHour(cursor: Option<string>): Option<Option<int>> {
    if cursor.None? then Some(None) else
    match ParseCursor(cursor.value)
    case At(h) => Some(Some(h))
    case FromStart => Some(None)
    case _ => None
  }

  /**
   A printed page has the fills and `has_more` of its batch, and its cursor is read back as the hour index that the page
   continues at.
   */
  lemma PrintedCursorContinues(b: Batch)
    requires b.cursor.Some? ==> Printable(b.cursor.value)
    ensures AsPrinted(Ok(b)).Ok?
    ensures var page := AsPrinted(Ok(b)).value;
            && page.fills == FillsIn(b) && page.hasMore == b.hasMore && (page.cursor.Some? <==> b.cursor.Some?)
            && (page.cursor.Some? ==>
                  var (day, hour) := page.cursor.value;
                  FourDigitYear(day) && 0 <= hour < 24
                  && CursorHour(Some(Print(day, hour))) == Some(Some(b.cursor.value)))
  {
    if b.cursor.Some? {
      CursorRoundTrip(b.cursor.value);
    }
  }

  lemma FlattenOne(r: Request)
    ensures Flatten([r]) == Got(r)
  {
  }

  lemma HourShift(t: int, n: int)
    ensures HourOf(HoursLater(t, n)) == HourOf(t) + n
  {
  }

  /** The hour after `h` is on the next day exactly when `h` is the last hour of its day. */
  lemma RolloverIsNextHour(h: int)
    ensures if HourOfDay(h) + 1 >= 24 then DayOf(h + 1) == DayOf(h) + 1 && HourOfDay(h + 1) == 0
            else DayOf(h + 1) == DayOf(h) && HourOfDay(h + 1) == HourOfDay(h) + 1
  {
  }

  // --------------------------------------------------------- what a page does

  /** The file of an hour holds only fills stamped in that hour. */
  ghost predicate Honest(net: Archive) {
    forall date: int :: StampedInHour(FetchHour(net, date))
  }

  ghost predicate StampedInHour(r: Request) {
    r.fills.Some? ==> forall f :: f in r.fills.value ==> HourOf(f.timestamp) == r.hour
  }

  /** The requested hours are `h`, `h + 1`, ... in order, and their fills are stamped in them. */
  ghost predicate RequestsFrom(rs: seq<Request>, h: int) {
    && |rs| >= 1
    && (forall k :: 0 <= k < |rs| ==> rs[k].hour == h + k)
    && (forall k :: 0 <= k < |rs| ==> StampedInHour(rs[k]))
  }

  /** What the engine relies on about a page fetched at hour `h`. */
  ghost predicate PageFrom(b: Batch, h: int) {
    && RequestsFrom(b.requests, h)
    && (b.cursor.None? ==> FillsIn(b) == [] && !b.hasMore && |b.requests| == 1)
    && (b.cursor.Some? ==> b.cursor.value == h + |b.requests|)
  }

  lemma {:induction false} FetchHoursShape(net: Archive, date: int, n: nat)
    requires Honest(net)
    ensures forall k :: 0 <= k < n ==> FetchHours(net, date, n)[k] == FetchHour(net, HoursLater(date, k))
    ensures forall k :: 0 <= k < n ==> FetchHours(net, date, n)[k].hour == HourOf(date) + k
    ensures forall k :: 0 <= k < n ==> StampedInHour(FetchHours(net, date, n)[k])
  {
    if n > 0 {
      FetchHoursShape(net, date, n - 1);
      HourShift(date, n - 1);
    }
  }

  /** Both modes request whole consecutive hours from the position and name the hour right after the last one. */
  lemma PageShape(net: Archive, start: int, cursor: Option<int>, now1: int, now2: int)
    requires Honest(net)
    ensures var r := FetchPage(net, start, cursor, now1, now2);
            r.Ok? ==> PageFrom(r.value, HourOf(Position(start, cursor)))
                      && (|r.value.requests| == 1 || 4 <= |r.value.requests| <= 8)
  {
    var current := Position(start, cursor);
    var n := HoursUntilNow(now1, current);
    if n >= PARALLEL_THRESHOLD {
      FetchHoursShape(net, current, n);
    } else {
      var r := FetchPage(net, start, cursor, now1, now2);
      assert StampedInHour(FetchHour(net, current));
      FlattenOne(Request(HourOf(current), None));
    }
  }

  /** The last fill of a page lies in one of the requested hours. */
  lemma {:induction false} LastFillHour(rs: seq<Request>, h: int)
    requires RequestsFrom(rs, h) && Flatten(rs) != []
    ensures h <= HourOf(Flatten(rs)[|Flatten(rs)| - 1].timestamp) < h + |rs|
    decreases |rs|
  {
    var n := |rs| - 1;
    var own := Got(rs[n]);
    if own != [] {
      assert own[|own| - 1] in own;
    } else {
      assert Flatten(rs) == Flatten(rs[..n]);
      LastFillHour(rs[..n], h);
    }
  }

  /**
   A parallel page never fails: hours that could not be downloaded or parsed are dropped without a trace, and the
   cursor moves past them. A single-hour page fails on the same answer, unless the file does not exist.
   */
  lemma ParallelPageHidesFailures(net: Archive, start: int, cursor: Option<int>, now1: int, now2: int)
    ensures var current := Position(start, cursor);
            var n := HoursUntilNow(now1, current);
            var r := FetchPage(net, start, cursor, now1, now2);
            && (n >= 4 ==> r.Ok? && r.value.cursor == Some(HourOf(current) + n))
            && (n >= 4 && (forall k :: 0 <= k < n ==> !Download1(net, HoursLater(current, k)).Body?) ==>
                  FillsIn(r.value) == [])
            && (n < 4 ==> (r.Err? <==> Download1(net, current).Broken? ||
                                       (Download1(net, current).Body? && FetchHour(net, current).fills.None?)))
  {
    var current := Position(start, cursor);
    NoBodyNoFills(net, current, HoursUntilNow(now1, current));
  }

  /** The error of a page is that of the download, or a fatal one if the file cannot be read. */
  lemma PageErrors(net: Archive, start: int, cursor: Option<int>, now1: int, now2: int)
    ensures var r, d := FetchPage(net, start, cursor, now1, now2), Download1(net, Position(start, cursor));
            r.Err? ==> (d.Broken? && r.error == d.error) || (d.Body? && r.error == Fatal)
  {
    var current := Position(start, cursor);
    var d := Download1(net, current);
    if d.Body? {
      ReadErrorsAreFatal(LineSchema(current), d.lines);
    }
  }

  lemma {:induction false} NoBodyNoFills(net: Archive, date: int, n: nat)
    ensures (forall k :: 0 <= k < n ==> !Download1(net, HoursLater(date, k)).Body?) ==>
              Flatten(FetchHours(net, date, n)) == []
  {
    if n > 0 {
      NoBodyNoFills(net, date, n - 1);
      assert FetchHours(net, date, n)[..n - 1] == FetchHours(net, date, n - 1);
    }
  }

  /** Eight hours are fetched when at least eight have passed, and also when the position is an hour or more ahead. */
  lemma PageWidth(now: int, current: int)
    requires -0x7FFF_FFFF_FFFF_FFFF <= now - current <= 0x7FFF_FFFF_FFFF_FFFF
    ensures HoursUntilNow(now, current) ==
            if current - now >= 3_600_000 || now - current >= 8 * 3_600_000 then 8
            else if now <= current then 0
            else (now - current) / 3_600_000
  {
  }

  /**
   On a single-hour page `has_more` is not "the next hour has begun". Before 23h it already holds right after the
   position, and at 23h it fails until a whole day after it. These are exactly the clock readings on which they differ.
   */
  lemma HasMoreExact(net: Archive, start: int, cursor: Option<int>, now1: int, now2: int)
    requires now1 <= now2
    ensures var current := Position(start, cursor);
            var r := FetchPage(net, start, cursor, now1, now2);
            r.Ok? && |r.value.requests| == 1 && r.value.cursor.Some? ==>
              var next := HourStart(HourOf(current) + 1);
              (r.value.hasMore != (next < now2) <==>
               if HourOfDay(HourOf(current)) == 23
               then next < now2 <= current + 86_400_000
               else current < now2 <= next)
  {
  }

  /** On a parallel page `has_more` says that the hour after the last one requested, from the position on, has begun. */
  lemma ParallelHasMore(net: Archive, start: int, cursor: Option<int>, now1: int, now2: int)
    ensures var r := FetchPage(net, start, cursor, now1, now2);
            r.Ok? && |r.value.requests| != 1 ==>
              4 <= |r.value.requests| <= 8
              && (r.value.hasMore <==> Position(start, cursor) + |r.value.requests| * 3_600_000 < now2)
  {
  }

  /** What reading one file gives: its fills if it was downloaded and every line of it parsed. */
  ghost predicate ReadsAs(net: Archive, h: int, fills: Option<seq<Fill>>) {
    match net(ObjectKey(DataPath(HourStart(h)), h))
    case Body(lines) =>
      (match ParseLines(LineSchema(HourStart(h)), lines)
       case Ok(fs) => fills == Some(fs)
       case Err(_) => fills == None)
    case _ => fills == None
  }

  lemma FetchHourReads(net: Archive, date: int)
    ensures FetchHour(net, date).hour == HourOf(date) && ReadsAs(net, HourOf(date), FetchHour(net, date).fills)
  {
    HourOfStart(HourOf(date));
    SchemaMatchesPath(date, HourStart(HourOf(date)));
  }

  /**
   What a page holds: each requested hour with the fills of its own file, read by the schema of its day. Only a missing
   file on a single-hour page leaves it without a cursor, and then without fills and without more to come.
   */
  lemma PageContents(net: Archive, start: int, cursor: Option<int>, now1: int, now2: int)
    ensures var r, h := FetchPage(net, start, cursor, now1, now2), HourOf(Position(start, cursor));
            var n := HoursUntilNow(now1, Position(start, cursor));
            r.Ok? ==>
              && |r.value.requests| == (if n >= 4 then n else 1)
              && (forall k :: 0 <= k < |r.value.requests| ==>
                    r.value.requests[k].hour == h + k && ReadsAs(net, h + k, r.value.requests[k].fills))
              && (r.value.cursor == None <==>
                  |r.value.requests| == 1 && net(ObjectKey(DataPath(HourStart(h)), h)) == NoSuchKey)
              && (r.value.cursor == None ==> !r.value.hasMore)
              && (r.value.cursor != None ==> r.value.cursor == Some(h + |r.value.requests|))
  {
    var current := Position(start, cursor);
    var n := HoursUntilNow(now1, current);
    FetchHourReads(net, current);
    SchemaMatchesPath(current, HourStart(HourOf(current)));
    HourOfStart(HourOf(current));
    if n >= PARALLEL_THRESHOLD {
      FetchHoursRead(net, current, n);
    }
  }

  lemma {:induction false} FetchHoursRead(net: Archive, date: int, n: nat)
    ensures |FetchHours(net, date, n)| == n
    ensures forall k :: 0 <= k < n ==>
              FetchHours(net, date, n)[k].hour == HourOf(date) + k
              && ReadsAs(net, HourOf(date) + k, FetchHours(net, date, n)[k].fills)
  {
    if n > 0 {
      FetchHoursRead(net, date, n - 1);
      FetchHourReads(net, HoursLater(date, n - 1));
      HourShift(date, n - 1);
    }
  }

  /** At 02:30 the page of 23h the evening before reports the end of the data, though two later hours are over. */
  lemma EarlyStopAt23()
    ensures var current := HourStart(23);
            var now := HourStart(26) + 1_800_000;
            var r := FetchPage(_ => Body([]), 0, Some(23), now, now);
            r.Ok? && !r.value.hasMore && HourStart(25) < now
  {
  }
}
