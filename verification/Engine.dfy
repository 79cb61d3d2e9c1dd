/**
 The ingestion engine as one transition system: the planner, the fetcher task, the bounded channel, the consumer with
 its chunk commits, the checkpoint saves, continuous ingestion on the same checkpoint, other writers, and a crash at
 any moment; over any number of runs.
 */
module Engine {
  import opened Wrappers
  import opened Hours
  import opened Fills
  import opened Gaps
  import opened Pages
  import opened Retry
  import opened Stores
  import opened Fetcher
  import opened Planner
  import opened Backfill
  import opened Continuous

  /** What all runs share. */
  datatype Config = Config(buffer: nat, maxRetries: nat)

  /** The fetcher task. In Sending the positions have already moved on. */
  datatype Fetching =
    | Launched(pos: Pos)
    | Looping(pos: Pos)
    | Sending(pos: Pos, batch: Batch)
    | Ended(why: Stop, pos: Pos)

  /** The consumer: in an attempt, the first `done` fills are committed, and `counted` rows were added for them. */
  datatype Consuming =
    | Receiving
    | Inserting(batch: Batch, attempt: nat, done: nat, counted: nat)
    | Closing

  /**
   A run, with what it has sent and received, the checkpoint it began with and the number of batches handled before.
   `upTo` is the number handled when its checkpoint last advanced.
   */
  datatype Run = Run(
    begin: int, end: int, first: Pos, missing: seq<int>, fetch: Fetching, queue: seq<Batch>, consume: Consuming,
    loaded: Checkpoint, checkpoint: Checkpoint, total: int, dirty: bool, before: nat, upTo: nat,
    sent: seq<Batch>, received: seq<Batch>)

  /** One round of continuous ingestion: about to fetch, or with the first `done` fills of a page committed. */
  datatype Polling =
    | Waiting
    | Storing(batch: Batch, done: nat, counted: nat)

  /** A continuous session; `top` is the hour up to which its pages are stored. */
  datatype Poll = Poll(pos: Pos, top: int, total: int, before: nat, polling: Polling)

  datatype Outcome = Skipped(plan: Plan) | Finished(why: Stop, pos: Pos) | Failed

  datatype Phase = Idle | Running(run: Run) | Ingesting(poll: Poll) | Returned(begin: int, end: int, how: Outcome)

  /** The batches `handled[from..to]`. */
  datatype Span = Span(from: nat, to: nat)

  /**
   `table` and `saved` survive a crash. History: `handled` records the batches that any run inserted completely;
   `savedBy` says which of them the run that set the saved row had handled by then, the last of them being the one that
   the row follows, and is None if the row was set by a reset or there from the beginning; `start` is where the hours
   accounted for begin, at or before the start of the latest run.
   */
  datatype State = State(
    start: int, table: seq<Fill>, saved: Option<Checkpoint>, savedBy: Option<Span>, handled: seq<Batch>, phase: Phase)

  datatype Step =
    | OthersInsert(fills: seq<Fill>)
    | Begin(start: int, end: int, between: seq<seq<Fill>>)
    | Prefetch(ok: bool)
    | Skip(countOk: bool)
    | Fetch(countOk: bool, batch: Batch)
    | FetchError(countOk: bool)
    | ReachEnd
    | Send
    | Receive
    | CommitPart(upTo: nat)
    | RetryInsert
    | Finish(save: bool)
    | Close
    | Return
    | Fail
    | BeginPoll(configStart: Option<int>, now: int)
    | PollPage(batch: Batch)
    | PollCommit(upTo: nat)
    | PollRetry
    | PollSave(ok: bool)
    | Crash

  // ------------------------------------------------------------------- steps

  /** The table at the planner's four queries, when others add `between[i]` before query i + 1. */
  function QueriesFrom(t: seq<Fill>, between: seq<seq<Fill>>): Queries
    requires |between| == 3
  {
    var t1 := InsertAll(t, between[0]);
    var t2 := InsertAll(t1, between[1]);
    Queries(t, t1, t2, InsertAll(t2, between[2]))
  }

  /** The count of the current hour, unless the query failed. */
  function SeenCount(s: State, p: Pos, ok: bool): Option<int> {
    if ok then Some(CountIn(s.table, HourStart(HourOf(p.start)), HourStart(HourOf(p.start) + 1))) else None
  }

  predicate AtHour(r: Run) {
    r.fetch.Looping? && r.fetch.pos.start < r.end
  }

  predicate AtRest(s: State) {
    s.phase.Idle? || s.phase.Returned?
  }

  /**
   The range may move forward, or back where the planner sees to the hours before the old start: there is no row, or
   enough gaps for a reset, or the row resumes at or before the new start, or all hours from there to the row are full.
   */
  predicate MayStartAt(s: State, start: int, end: int) {
    s.start <= start || s.saved.None? || s.saved.value.lastTs.None? ||
    var c := s.saved.value;
    var until := Min(c.lastTs.value, end);
    var gaps := MissingHours(s.table, start, until);
    |gaps| > 12 || ResumeHour(c) <= HourOf(start) || (gaps == [] && HourOf(s.start) <= HourOf(until))
  }

  function Loaded(s: State): Checkpoint {
    if s.saved.Some? then s.saved.value else FreshCheckpoint()
  }

  /** Continuous mode does not reset a row whose resume hour is more than seven days old. */
  predicate MayPollAt(s: State, now: int) {
    var c := Loaded(s);
    c.lastTs.Some? && ContinuousRefresh(c, now, s.table).1 ==> HourOf(Lookback(now)) <= ResumeHour(c)
  }

  /**
   The transactions of an insert of `n` fills: a chunk of 200000 by COPY, or the next 5000 of a chunk by VALUES. Chunks
   begin at multiples of 200000, which are multiples of 5000 too.
   */
  predicate Transaction(done: nat, upTo: nat, n: nat) {
    done < upTo && (upTo == Min(done + BATCH_SIZE, n) || (done % CHUNK_SIZE == 0 && upTo == Min(done + CHUNK_SIZE, n)))
  }

  lemma TransactionSizes(done: nat, upTo: nat, n: nat)
    requires done < n
    ensures Transaction(done, upTo, n) <==>
            upTo == (if n - done < 5_000 then n else done + 5_000)
            || (done % 200_000 == 0 && upTo == if n - done < 200_000 then n else done + 200_000)
  {
  }

  ghost predicate Enabled(cfg: Config, s: State, step: Step) {
    match step
    case OthersInsert(_) => true
    case Begin(start, end, between) => AtRest(s) && MayStartAt(s, start, end) && |between| == 3
    case BeginPoll(_, now) => AtRest(s) && MayPollAt(s, now)
    case Crash => true
    case _ =>
      (s.phase.Running? && RunEnabled(cfg, s, s.phase.run, step))
      || (s.phase.Ingesting? && PollEnabled(s.phase.poll, step))
  }

  ghost predicate PollEnabled(p: Poll, step: Step) {
    match step
    case PollPage(b) => p.polling.Waiting? && PageFrom(b, PageHour(p.pos))
    case PollCommit(upTo) => p.polling.Storing? && Transaction(p.polling.done, upTo, |FillsIn(p.polling.batch)|)
    case PollRetry => true
    case PollSave(_) => p.polling.Storing? && p.polling.done == |FillsIn(p.polling.batch)|
    case _ => false
  }

  ghost predicate RunEnabled(cfg: Config, s: State, r: Run, step: Step) {
    match step
    case Prefetch(_) => r.fetch.Launched?
    case Skip(ok) => AtHour(r) && ShouldSkip(r.fetch.pos, r.missing, SeenCount(s, r.fetch.pos, ok))
    case Fetch(ok, batch) =>
      AtHour(r) && !ShouldSkip(r.fetch.pos, r.missing, SeenCount(s, r.fetch.pos, ok))
      && PageFrom(batch, PageHour(r.fetch.pos))
    case FetchError(ok) => AtHour(r) && !ShouldSkip(r.fetch.pos, r.missing, SeenCount(s, r.fetch.pos, ok))
    case ReachEnd => r.fetch.Looping? && r.end <= r.fetch.pos.start
    case Send => r.fetch.Sending? && |r.queue| < cfg.buffer
    case Receive => r.consume.Receiving? && r.queue != []
    case CommitPart(upTo) => r.consume.Inserting? && Transaction(r.consume.done, upTo, |FillsIn(r.consume.batch)|)
    case RetryInsert => r.consume.Inserting? && r.consume.attempt < AttemptLimit(cfg.maxRetries)
    case Finish(_) => r.consume.Inserting? && r.consume.done == |FillsIn(r.consume.batch)|
    case Close => r.consume.Receiving? && r.queue == [] && r.fetch.Ended?
    case Return => r.consume.Closing? && r.fetch.Ended?
    case Fail => true
    case _ => false
  }

  function Apply(cfg: Config, s: State, step: Step): State
    requires Enabled(cfg, s, step)
  {
    match step
    case OthersInsert(fills) => s.(table := InsertAll(s.table, fills))
    case Begin(start, end, between) => BeginRun(s, start, end, QueriesFrom(s.table, between))
    case Crash => s.(phase := Idle)
    case Prefetch(ok) =>
      var r := s.phase.run;
      s.(phase := Running(r.(fetch := Looping(r.fetch.pos),
                             missing := if ok then MissingHours(s.table, r.fetch.pos.start, r.end) else [])))
    case Skip(_) => var r := s.phase.run; s.(phase := Running(r.(fetch := Looping(AfterSkip(r.fetch.pos)))))
    case Fetch(_, b) => var r := s.phase.run; s.(phase := Running(r.(fetch := Sending(AfterPage(r.fetch.pos, b), b))))
    case FetchError(_) => var r := s.phase.run; s.(phase := Running(r.(fetch := Ended(FetchFailed, r.fetch.pos))))
    case ReachEnd => var r := s.phase.run; s.(phase := Running(r.(fetch := Ended(ReachedEnd, r.fetch.pos))))
    case Send => s.(phase := Running(AfterSend(s.phase.run)))
    case Receive =>
      var r := s.phase.run;
      s.(phase := Running(r.(queue := r.queue[1..], received := r.received + [r.queue[0]],
                             consume := Inserting(r.queue[0], 1, 0, 0))))
    case CommitPart(upTo) => AfterCommit(s, s.phase.run, upTo)
    case RetryInsert =>
      var r := s.phase.run;
      s.(phase := Running(r.(consume := Inserting(r.consume.batch, r.consume.attempt + 1, 0, 0))))
    case Finish(save) => AfterFinish(s, s.phase.run, save)
    case Close =>
      var r := s.phase.run;
      s.(saved := if r.dirty then Some(r.checkpoint) else s.saved,
         savedBy := if r.dirty then Some(Span(r.before, r.upTo)) else s.savedBy,
         phase := Running(r.(consume := Closing)))
    case Return =>
      var r, f := s.phase.run, s.phase.run.fetch;
      s.(phase := Returned(r.begin, r.end, if f.why == FetchFailed then Failed else Finished(f.why, f.pos)))
    case Fail => s.(phase := Returned(s.phase.run.begin, s.phase.run.end, Failed))
    case BeginPoll(configStart, now) => BeginSession(s, configStart, now)
    case PollPage(b) => s.(phase := Ingesting(s.phase.poll.(polling := Storing(b, 0, 0))))
    case PollCommit(upTo) => AfterPollCommit(s, s.phase.poll, upTo)
    case PollRetry => s.(phase := Ingesting(s.phase.poll.(polling := Waiting)))
    case PollSave(ok) => AfterPollSave(s, s.phase.poll, ok)
  }

  function BeginRun(s: State, start: int, end: int, q: Queries): State {
    PlanRun(s, start, end, q).(start := CoveredFrom(s, start))
  }

  /** From where on the hours are covered once a run begins at `start`: earlier, if the row reaches that far. */
  function CoveredFrom(s: State, start: int): (from: int)
    ensures from <= start
  {
    if s.start <= start && s.saved.Some? && s.saved.value.lastTs.Some? && HourOf(start) <= ResumeHour(s.saved.value)
    then s.start else start
  }

  function PlanRun(s: State, start: int, end: int, q: Queries): State {
    var p := PlanBackfill(s.saved, start, end, q);
    State(start, q.atGaps,
          if p.wasReset then Some(p.checkpoint) else s.saved,
          if p.wasReset then None else s.savedBy,
          s.handled,
          if p.plan.Resume?
          then Running(Run(start, end, p.plan.pos, [], Launched(p.plan.pos), [], Receiving,
                           p.checkpoint, p.checkpoint, p.checkpoint.records, false, |s.handled|, 0, [], []))
          else Returned(start, end, Skipped(p.plan)))
  }

  function AfterSend(r: Run): Run
    requires r.fetch.Sending?
  {
    var b := r.fetch.batch;
    r.(queue := r.queue + [b], sent := r.sent + [b],
       fetch := if b.hasMore then Looping(r.fetch.pos) else Ended(NoMoreData, r.fetch.pos))
  }

  /** One transaction commits the fills up to `upTo`: a chunk of COPY, or a batch of VALUES. */
  function AfterCommit(s: State, r: Run, upTo: nat): State
    requires r.consume.Inserting? && r.consume.done < upTo <= |FillsIn(r.consume.batch)|
  {
    var c := r.consume;
    var table := InsertAll(s.table, FillsIn(c.batch)[c.done..upTo]);
    InsertAllExtends(s.table, FillsIn(c.batch)[c.done..upTo]);
    s.(table := table,
       phase := Running(r.(consume := c.(done := upTo, counted := c.counted + |table| - |s.table|))))
  }

  /** The batch is in: the checkpoint follows it if that moves forward, and may be saved. */
  function AfterFinish(s: State, r: Run, save: bool): State
    requires r.consume.Inserting?
  {
    var b := r.consume.batch;
    var total := r.total + r.consume.counted;
    var checkpoint := Advance(r.checkpoint, b, total);
    var advanced := ShouldAdvance(r.checkpoint, FillsIn(b));
    s.(handled := s.handled + [b],
       saved := if save && advanced then Some(checkpoint) else s.saved,
       savedBy := if save && advanced then Some(Span(r.before, |s.handled| + 1)) else s.savedBy,
       phase := Running(r.(consume := Receiving, total := total, checkpoint := checkpoint,
                           dirty := r.dirty || advanced,
                           upTo := if advanced then |s.handled| + 1 else r.upTo)))
  }

  /** The head of continuous mode: perhaps a reset, then the first position. Without a row the range begins there. */
  function BeginSession(s: State, configStart: Option<int>, now: int): State {
    var (c, wasReset) := ContinuousRefresh(Loaded(s), now, s.table);
    var pos := PollStart(c, configStart, now);
    s.(start := if c.lastTs.Some? then s.start else pos.start,
       saved := if wasReset then Some(c) else s.saved,
       savedBy := if wasReset then None else s.savedBy,
       phase := Ingesting(Poll(pos, PageHour(pos), c.records, |s.handled|, Waiting)))
  }

  function AfterPollCommit(s: State, p: Poll, upTo: nat): State
    requires p.polling.Storing? && p.polling.done < upTo <= |FillsIn(p.polling.batch)|
  {
    var c := p.polling;
    var table := InsertAll(s.table, FillsIn(c.batch)[c.done..upTo]);
    InsertAllExtends(s.table, FillsIn(c.batch)[c.done..upTo]);
    s.(table := table,
       phase := Ingesting(p.(polling := c.(done := upTo, counted := c.counted + |table| - |s.table|))))
  }

  /** The page is in: the positions move on, and the row is saved; a failing save ends the session. */
  function AfterPollSave(s: State, p: Poll, ok: bool): State
    requires p.polling.Storing?
  {
    var b := p.polling.batch;
    var total := p.total + p.polling.counted;
    s.(handled := s.handled + [b],
       saved := if ok then Some(PollCheckpoint(p.pos, b, total)) else s.saved,
       savedBy := if ok then Some(Span(p.before, |s.handled| + 1)) else s.savedBy,
       phase := if !ok then Idle
                else Ingesting(Poll(AfterPoll(p.pos, b), Max(p.top, PageHour(p.pos) + |b.requests|), total,
                                    p.before, Waiting)))
  }

  // --------------------------------------------------------------- invariant

  /** Hour `h` holds at least 1000 rows, or is among the hours requested by `bs`. */
  ghost predicate Known(t: seq<Fill>, bs: seq<Batch>, h: int) {
    Full(t, h) || RequestedIn(bs, h)
  }

  ghost predicate KnownBetween(t: seq<Fill>, bs: seq<Batch>, from: int, to: int) {
    forall h :: from <= h < to ==> Known(t, bs, h)
  }

  ghost predicate Committed(t: seq<Fill>, b: Batch) {
    Keys(FillsIn(b)) <= Keys(t)
  }

  /** Every hour from the start to the checkpoint's resume hour is known: resuming there loses nothing. */
  ghost predicate NothingLost(start: int, t: seq<Fill>, bs: seq<Batch>, c: Checkpoint) {
    && CursorAhead(c)
    && c.records <= |t|
    && (c.lastTs.Some? ==> KnownBetween(t, bs, HourOf(start), ResumeHour(c)))
  }

  /** The batches on their way to the table, first the one being inserted. */
  function InFlight(r: Run): seq<Batch> {
    (if r.consume.Inserting? then [r.consume.batch] else [])
    + r.queue
    + (if r.fetch.Sending? then [r.fetch.batch] else [])
  }

  /** The channel is bounded, keeps the order, and what came out of it was handled except for the batch in hand. */
  ghost predicate ChannelOk(cfg: Config, s: State, r: Run) {
    && |r.queue| <= cfg.buffer
    && r.sent == r.received + r.queue
    && r.before <= |s.handled|
    && r.received == s.handled[r.before..] + (if r.consume.Inserting? then [r.consume.batch] else [])
  }

  /** The consumer's part: counts, and the fills of the current attempt. */
  ghost predicate ConsumerOk(cfg: Config, s: State, r: Run) {
    && NothingLost(s.start, s.table, s.handled, r.checkpoint)
    && r.checkpoint.records <= r.total
    && r.total + (if r.consume.Inserting? then r.consume.counted else 0) <= |s.table|
    && (r.consume.Inserting? ==>
          r.consume.attempt <= AttemptLimit(cfg.maxRetries)
          && r.consume.done <= |FillsIn(r.consume.batch)|
          && Keys(FillsIn(r.consume.batch)[..r.consume.done]) <= Keys(s.table))
    && (r.consume.Closing? ==> r.queue == [] && r.fetch.Ended?)
  }

  /** How far the fetcher has covered the hours: to its page hour, but no further than `end` once it is past that. */
  function Behind(r: Run): int {
    var p := r.fetch.pos;
    if p.start < r.end || r.fetch.Sending? || (r.fetch.Ended? && r.fetch.why == NoMoreData) then PageHour(p)
    else Min(PageHour(p), HourOf(r.end))
  }

  /** The fetcher's part: its positions, and what it has left behind it. */
  ghost predicate FetcherOk(s: State, r: Run) {
    && Ordered(r.fetch.pos)
    && HourOf(r.first.start) <= HourOf(r.fetch.pos.start)
    && (r.fetch.Launched? ==> r.fetch.pos == r.first)
    && MissingSound(s.table, r)
    && KnownBetween(s.table, s.handled + InFlight(r), HourOf(s.start), Behind(r))
    && (r.fetch.Ended? && r.fetch.why == ReachedEnd ==> r.end <= r.fetch.pos.start)
    && (r.fetch.Ended? ==> r.fetch.why != ChannelClosed)
  }

  ghost predicate MissingSound(t: seq<Fill>, r: Run) {
    r.missing != [] ==>
      forall h :: HourOf(r.first.start) <= h < HourOf(r.end) ==> h in r.missing || Full(t, h)
  }

  /** Once batch `i` in flight is in, every hour below its cursor is known. */
  ghost predicate CursorCovered(start: int, t: seq<Fill>, handled: seq<Batch>, flight: seq<Batch>, i: nat)
    requires i < |flight|
  {
    && IsPage(flight[i])
    && (flight[i].cursor.Some? ==>
          KnownBetween(t, handled + flight[..i + 1], HourOf(start), flight[i].cursor.value))
  }

  ghost predicate FlightOk(s: State, r: Run) {
    forall i: nat :: i < |InFlight(r)| ==> CursorCovered(s.start, s.table, s.handled, InFlight(r), i)
  }

  predicate FollowsSpan(c: Checkpoint, handled: seq<Batch>, span: Span) {
    span.from < span.to <= |handled| && Follows(c, handled[span.to - 1])
  }

  predicate HistoryOk(s: State) {
    && (s.savedBy.Some? ==> s.saved.Some? && FollowsSpan(s.saved.value, s.handled, s.savedBy.value))
    && (s.phase.Running? && s.phase.run.dirty ==>
          FollowsSpan(s.phase.run.checkpoint, s.handled, Span(s.phase.run.before, s.phase.run.upTo)))
    && (s.phase.Ingesting? ==> s.phase.poll.before <= |s.handled|)
  }

  /** The run's checkpoint stands at the latest batch handled, and once it is closing so does the row it has saved. */
  ghost predicate LatestOk(s: State) {
    s.phase.Running? ==>
      var r := s.phase.run;
      && r.before <= |s.handled|
      && AtLatest(r.loaded, s.handled[r.before..], r.checkpoint)
      && (!r.dirty ==> forall j :: !Latest(r.loaded, s.handled[r.before..], j))
      && (r.consume.Closing? && r.dirty ==> s.saved == Some(r.checkpoint))
  }

  ghost predicate RunOk(cfg: Config, s: State, r: Run) {
    ChannelOk(cfg, s, r) && ConsumerOk(cfg, s, r) && FetcherOk(s, r) && FlightOk(s, r)
  }

  /** Up to its top a session has left no hour out, and it stands no further than there. */
  ghost predicate PollOk(s: State, p: Poll) {
    && Ordered(p.pos) && PageHour(p.pos) <= p.top
    && KnownBetween(s.table, s.handled, HourOf(s.start), p.top)
    && p.total + (if p.polling.Storing? then p.polling.counted else 0) <= |s.table|
    && (p.polling.Storing? ==>
          PageFrom(p.polling.batch, PageHour(p.pos))
          && p.polling.done <= |FillsIn(p.polling.batch)|
          && Keys(FillsIn(p.polling.batch)[..p.polling.done]) <= Keys(s.table))
  }

  /** What a run that returned without an error has achieved. */
  ghost predicate OutcomeOk(s: State, end: int, how: Outcome) {
    match how
    case Failed => true
    case Skipped(_) => KnownBetween(s.table, s.handled, HourOf(s.start), HourOf(end))
    case Finished(why, pos) =>
      if why == ReachedEnd then KnownBetween(s.table, s.handled, HourOf(s.start), HourOf(end))
      else KnownBetween(s.table, s.handled, HourOf(s.start), PageHour(pos))
  }

  ghost predicate Inv(cfg: Config, s: State) {
    && UniqueKeys(s.table)
    && (forall i :: 0 <= i < |s.handled| ==> Committed(s.table, s.handled[i]))
    && (s.saved.Some? ==> NothingLost(s.start, s.table, s.handled, s.saved.value))
    && match s.phase
       case Idle => true
       case Running(r) => s.start <= r.begin && RunOk(cfg, s, r)
       case Ingesting(p) => PollOk(s, p)
       case Returned(begin, end, how) => s.start <= begin && OutcomeOk(s, end, how)
  }
}
