/** What holds in every behaviour of the engine: coverage, crash safety, the books, progress and termination. */
module EngineTheorems {
  import opened Wrappers
  import opened Hours
  import opened Fills
  import opened Gaps
  import opened Pages
  import opened Retry
  import opened Stores
  import opened Fetcher
  import opened Planner
  import opened Backfill
  import opened Continuous
  import opened Engine
  import opened EngineSafety

  /** At the start any rows may be stored, with no checkpoint or one below which every hour is full. */
  ghost predicate Initial(s: State) {
    && s.phase.Idle? && s.handled == [] && s.savedBy == None && UniqueKeys(s.table)
    && (s.saved.Some? ==> NothingLost(s.start, s.table, [], s.saved.value))
  }

  ghost predicate Behaviour(cfg: Config, states: seq<State>, steps: seq<Step>) {
    && |states| == |steps| + 1
    && Initial(states[0])
    && forall i :: 0 <= i < |steps| ==>
         Enabled(cfg, states[i], steps[i]) && states[i + 1] == Apply(cfg, states[i], steps[i])
  }

  lemma {:induction false} AlwaysInv(cfg: Config, states: seq<State>, steps: seq<Step>, i: nat)
    requires Behaviour(cfg, states, steps) && i < |states|
    ensures Inv(cfg, states[i])
  {
    if i > 0 {
      AlwaysInv(cfg, states, steps, i - 1);
      StepKeeps(cfg, states[i - 1], steps[i - 1]);
    }
  }

  lemma {:induction false} AlwaysHistory(cfg: Config, states: seq<State>, steps: seq<Step>, i: nat)
    requires Behaviour(cfg, states, steps) && i < |states|
    ensures HistoryOk(states[i])
  {
    if i > 0 {
      AlwaysHistory(cfg, states, steps, i - 1);
      AlwaysInv(cfg, states, steps, i - 1);
      HistoryKeeps(cfg, states[i - 1], steps[i - 1]);
    }
  }

  lemma {:induction false} AlwaysLatest(cfg: Config, states: seq<State>, steps: seq<Step>, i: nat)
    requires Behaviour(cfg, states, steps) && i < |states|
    ensures LatestOk(states[i])
  {
    if i > 0 {
      AlwaysLatest(cfg, states, steps, i - 1);
      LatestKeeps(cfg, states[i - 1], steps[i - 1]);
    }
  }

  // ---------------------------------------------------------------- coverage

  /** The hour was requested by a handled batch, and all fills that were downloaded and parsed for it are stored. */
  ghost predicate RequestedAndStored(s: State, h: int) {
    exists i, k :: 0 <= i < |s.handled| && 0 <= k < |s.handled[i].requests|
                   && s.handled[i].requests[k].hour == h && Keys(Got(s.handled[i].requests[k])) <= Keys(s.table)
  }

  ghost predicate Stored(s: State, h: int) {
    Full(s.table, h) || RequestedAndStored(s, h)
  }

  lemma {:induction false} GotWithinFlatten(rs: seq<Request>, k: nat)
    requires k < |rs|
    ensures Keys(Got(rs[k])) <= Keys(Flatten(rs))
    decreases |rs|
  {
    var n := |rs| - 1;
    KeysAppend(Flatten(rs[..n]), Got(rs[n]));
    if k < n {
      GotWithinFlatten(rs[..n], k);
    }
  }

  lemma KnownIsStored(cfg: Config, s: State, h: int)
    requires Inv(cfg, s) && Known(s.table, s.handled, h)
    ensures Stored(s, h)
  {
    if !Full(s.table, h) {
      var i :| 0 <= i < |s.handled| && HasHour(s.handled[i].requests, h);
      var rs := s.handled[i].requests;
      var k :| 0 <= k < |rs| && rs[k].hour == h;
      GotWithinFlatten(rs, k);
      assert Committed(s.table, s.handled[i]);
    }
  }

  /**
   Backfill coverage. After any number of runs and crashes, whenever a run has returned without an error, every hour
   of its range is full or was requested with all its downloaded and parsed fills stored: up to the end if the run
   skipped or reached the end, up to the last page hour if it stopped because no more data was reported.
   */
  lemma BackfillCovers(cfg: Config, states: seq<State>, steps: seq<Step>, i: nat)
    requires Behaviour(cfg, states, steps) && i < |states| && states[i].phase.Returned?
    ensures var s, begin, end := states[i], states[i].phase.begin, states[i].phase.end;
            match s.phase.how
            case Failed => true
            case Skipped(_) => forall h :: HourOf(begin) <= h < HourOf(end) ==> Stored(s, h)
            case Finished(why, pos) =>
              forall h :: HourOf(begin) <= h < (if why == ReachedEnd then HourOf(end) else PageHour(pos)) ==>
                            Stored(s, h)
  {
    var s := states[i];
    AlwaysInv(cfg, states, steps, i);
    HourMonotone(s.start, s.phase.begin);
    forall h | Known(s.table, s.handled, h) ensures Stored(s, h) {
      KnownIsStored(cfg, s, h);
    }
  }

  /**
   Crash safety. At every moment, so also right after a crash and whichever backfill or continuous session has saved it,
   the checkpoint has lost nothing: every hour from the start of the range to the hour it resumes at is stored, its
   cursor is ahead of its last record, and it counts no more records than there are rows.
   */
  lemma CheckpointIsSafe(cfg: Config, states: seq<State>, steps: seq<Step>, i: nat)
    requires Behaviour(cfg, states, steps) && i < |states| && states[i].saved.Some?
    ensures var s, c := states[i], states[i].saved.value;
            && CursorAhead(c)
            && c.records <= |s.table|
            && (c.lastTs.Some? ==> forall h :: HourOf(s.start) <= h < ResumeHour(c) ==> Stored(s, h))
  {
    var s := states[i];
    AlwaysInv(cfg, states, steps, i);
    forall h | Known(s.table, s.handled, h) ensures Stored(s, h) {
      KnownIsStored(cfg, s, h);
    }
  }

  /**
   Continuous ingestion, at every moment of a session: every hour from the start of the range to the highest page hour
   reached is stored, and the session stands no further than there.
   */
  lemma IngestingCovers(cfg: Config, states: seq<State>, steps: seq<Step>, i: nat)
    requires Behaviour(cfg, states, steps) && i < |states| && states[i].phase.Ingesting?
    ensures var s, p := states[i], states[i].phase.poll;
            && PageHour(p.pos) <= p.top
            && forall h :: HourOf(s.start) <= h < p.top ==> Stored(s, h)
  {
    var s := states[i];
    AlwaysInv(cfg, states, steps, i);
    forall h | Known(s.table, s.handled, h) ensures Stored(s, h) {
      KnownIsStored(cfg, s, h);
    }
  }

  /**
   The row set by a batch, at every moment: while the saved row is one that a batch has set, also after a crash, that
   batch and all that were received before it in the same run or session are committed, and the row has its cursor.
   */
  lemma SavedBatchIsCommitted(cfg: Config, states: seq<State>, steps: seq<Step>, i: nat)
    requires Behaviour(cfg, states, steps) && i < |states| && states[i].savedBy.Some?
    ensures var s, span := states[i], states[i].savedBy.value;
            && s.saved.Some?
            && span.from < span.to <= |s.handled|
            && Follows(s.saved.value, s.handled[span.to - 1])
            && forall k :: span.from <= k < span.to ==> Committed(s.table, s.handled[k])
  {
    AlwaysInv(cfg, states, steps, i);
    AlwaysHistory(cfg, states, steps, i);
  }

  /** The run or session that a step belongs to had received exactly the batches of the span. */
  ghost predicate SetByBatch(s: State, step: Step, v: State, span: Span) {
    match step
    case Finish(_) =>
      s.phase.Running? && v.phase.Running?
      && span == Span(s.phase.run.before, |v.handled|) && span.from <= span.to
      && v.handled[span.from..] == v.phase.run.received
    case Close =>
      s.phase.Running? && span.from == s.phase.run.before <= span.to <= |v.handled|
      && v.handled[span.from..span.to] <= s.phase.run.received
    case PollSave(_) => s.phase.Ingesting? && span == Span(s.phase.poll.before, |v.handled|)
    case _ => false
  }

  lemma RowIsSetByBatch(cfg: Config, s: State, step: Step)
    requires Inv(cfg, s) && HistoryOk(s) && Enabled(cfg, s, step)
    requires var v := Apply(cfg, s, step); v.savedBy.Some? && SetsRow(s, step, v)
    ensures var v := Apply(cfg, s, step); SetByBatch(s, step, v, v.savedBy.value)
  {
    var v := Apply(cfg, s, step);
    if step.Finish? {
      FinishKeeps(cfg, s, step.save);
    } else if step.Close? {
      var r := s.phase.run;
      assert v.savedBy == Some(Span(r.before, r.upTo));
      if r.dirty {
        assert s.handled[r.before..r.upTo] <= s.handled[r.before..];
      }
    }
  }

  lemma HandledGrows(cfg: Config, s: State, step: Step)
    requires Enabled(cfg, s, step)
    ensures s.handled <= Apply(cfg, s, step).handled
  {
  }

  /**
   Whenever the saved row is one that a batch has set, there was a step that set it: a periodic save, the final save of
   a run, or the save after a page. Since then the row has not changed, and the span records what the run had received.
   */
  lemma {:induction false} SavedRowHasSetter(cfg: Config, states: seq<State>, steps: seq<Step>, i: nat)
    returns (j: nat)
    requires Behaviour(cfg, states, steps) && i < |states| && states[i].savedBy.Some?
    ensures j < i && SetByBatch(states[j], steps[j], states[j + 1], states[i].savedBy.value)
    ensures forall m :: j < m <= i ==> states[m].saved == states[i].saved && states[m].savedBy == states[i].savedBy
    ensures states[j + 1].handled <= states[i].handled
  {
    if i == 0 {
      assert false;
    } else {
      RowStep(cfg, states, steps, i - 1);
      if SetByBatch(states[i - 1], steps[i - 1], states[i], states[i].savedBy.value) {
        j := i - 1;
      } else {
        j := SavedRowHasSetter(cfg, states, steps, i - 1);
      }
    }
  }

  /** The step begins a backfill or a session with a reset, and saves it. */
  ghost predicate SetByReset(s: State, step: Step, v: State) {
    match step
    case Begin(start, end, between) =>
      |between| == 3 &&
      var p := PlanBackfill(s.saved, start, end, QueriesFrom(s.table, between));
      p.wasReset && v.saved == Some(p.checkpoint)
    case BeginPoll(_, now) =>
      var (c, wasReset) := ContinuousRefresh(Loaded(s), now, s.table);
      wasReset && v.saved == Some(c)
    case _ => false
  }

  lemma ResetOrSame(cfg: Config, s: State, step: Step)
    requires Enabled(cfg, s, step) && Apply(cfg, s, step).savedBy.None?
    ensures var v := Apply(cfg, s, step);
            SetByReset(s, step, v) || (v.saved == s.saved && v.savedBy == s.savedBy)
  {
    RowChanges(cfg, s, step);
  }

  /** Any other row that was not there at the beginning was set by a reset. */
  lemma {:induction false} OtherRowIsReset(cfg: Config, states: seq<State>, steps: seq<Step>, i: nat)
    returns (j: nat)
    requires Behaviour(cfg, states, steps) && i < |states|
    requires states[i].savedBy.None? && states[i].saved != states[0].saved
    ensures j < i && SetByReset(states[j], steps[j], states[j + 1])
    ensures forall m :: j < m <= i ==> states[m].saved == states[i].saved
  {
    j := i - 1;
    ResetOrSame(cfg, states[j], steps[j]);
    if !SetByReset(states[j], steps[j], states[i]) {
      j := OtherRowIsReset(cfg, states, steps, i - 1);
    }
  }

  /** A step either sets the row by a batch, or leaves it and what is recorded about it. */
  lemma RowStep(cfg: Config, states: seq<State>, steps: seq<Step>, i: nat)
    requires Behaviour(cfg, states, steps) && i < |steps| && states[i + 1].savedBy.Some?
    ensures var s, v := states[i], states[i + 1];
            && s.handled <= v.handled
            && (SetByBatch(s, steps[i], v, v.savedBy.value) || (v.saved == s.saved && v.savedBy == s.savedBy))
  {
    AlwaysInv(cfg, states, steps, i);
    AlwaysHistory(cfg, states, steps, i);
    var s, step := states[i], steps[i];
    RowChanges(cfg, s, step);
    HandledGrows(cfg, s, step);
    if SetsRow(s, step, Apply(cfg, s, step)) {
      RowIsSetByBatch(cfg, s, step);
    }
  }

  /**
   How far the checkpoint moves. While a run is on, its checkpoint stands at the latest batch that the run has handled:
   of those that end no earlier than the checkpoint it began with, the one that ends last. Once the run is closing, the
   saved row stands there too, whatever periodic saves there were.
   */
  lemma RunRowIsLatest(cfg: Config, states: seq<State>, steps: seq<Step>, i: nat)
    requires Behaviour(cfg, states, steps) && i < |states| && states[i].phase.Running?
    ensures var s, r := states[i], states[i].phase.run;
            && r.before <= |s.handled|
            && AtLatest(r.loaded, s.handled[r.before..], r.checkpoint)
            && (r.consume.Closing? ==>
                  r.received == s.handled[r.before..]
                  && forall j :: Latest(r.loaded, r.received, j) ==>
                       s.saved.Some? && Follows(s.saved.value, r.received[j]))
  {
    AlwaysInv(cfg, states, steps, i);
    AlwaysLatest(cfg, states, steps, i);
  }

  /** The channel never exceeds its bound, and what was received is the first part of what was sent, in order. */
  lemma ChannelIsOrdered(cfg: Config, states: seq<State>, steps: seq<Step>, i: nat)
    requires Behaviour(cfg, states, steps) && i < |states| && states[i].phase.Running?
    ensures var r := states[i].phase.run;
            && |r.queue| <= cfg.buffer
            && r.received <= r.sent && r.sent == r.received + r.queue
            && r.before <= |states[i].handled|
            && r.received == states[i].handled[r.before..] + (if r.consume.Inserting? then [r.consume.batch] else [])
  {
    AlwaysInv(cfg, states, steps, i);
  }

  // ------------------------------------------------- progress and termination

  /** Steps that a run takes by itself. */
  predicate OfRun(step: Step) {
    OfFetcher(step) || OfConsumer(step)
  }

  /** While a run is on, one of its steps is enabled, if the channel has room for a batch at all. */
  lemma SomeStepEnabled(cfg: Config, s: State) returns (step: Step)
    requires Inv(cfg, s) && s.phase.Running? && cfg.buffer >= 1
    ensures OfRun(step) && Enabled(cfg, s, step) && !step.FetchError?
  {
    var r := s.phase.run;
    if r.consume.Inserting? {
      var n := |FillsIn(r.consume.batch)|;
      return if r.consume.done < n then CommitPart(Min(r.consume.done + BATCH_SIZE, n)) else Finish(false);
    }
    if r.consume.Closing? {
      return Return;
    }
    if r.queue != [] {
      return Receive;
    }
    match r.fetch {
      case Launched(_) => step := Prefetch(true);
      case Sending(_, _) => step := Send;
      case Ended(_, _) => step := Close;
      case Looping(p) =>
        if r.end <= p.start {
          step := ReachEnd;
        } else if ShouldSkip(p, r.missing, SeenCount(s, p, true)) {
          step := Skip(true);
        } else {
          FlattenOne(Request(PageHour(p), None));
          step := Fetch(true, Batch([Request(PageHour(p), None)], None, false));
        }
    }
  }

  function NonNegative(n: int): nat {
    if n < 0 then 0 else n
  }

  /** How much the fetcher still has to do. */
  function FetchWork(f: Fetching, end: int): nat {
    match f
    case Launched(p) => 2 * NonNegative(Rounds(p, end)) + 4
    case Looping(p) => 2 * NonNegative(Rounds(p, end)) + 2
    case Sending(p, _) => 2 * NonNegative(Rounds(p, end)) + 3
    case Ended(_, _) => 0
  }

  function ConsumeWork(cfg: Config, c: Consuming): int {
    match c
    case Inserting(_, attempt, _, _) => 2 + AttemptLimit(cfg.maxRetries) - attempt
    case Receiving => 1
    case Closing => 0
  }

  function FillsLeft(c: Consuming): int {
    if c.Inserting? then |FillsIn(c.batch)| - c.done else 0
  }

  /** The work left in a run, compared from left to right. */
  datatype Work = Work(fetching: int, waiting: int, consuming: int, fills: int)

  function WorkOf(cfg: Config, r: Run): Work {
    Work(FetchWork(r.fetch, r.end), |r.queue|, ConsumeWork(cfg, r.consume), FillsLeft(r.consume))
  }

  predicate Less(a: Work, b: Work) {
    a.fetching < b.fetching ||
    (a.fetching == b.fetching &&
     (a.waiting < b.waiting ||
      (a.waiting == b.waiting &&
       (a.consuming < b.consuming || (a.consuming == b.consuming && a.fills < b.fills)))))
  }

  predicate Bounded(w: Work) {
    0 <= w.fetching && 0 <= w.waiting && 0 <= w.consuming && 0 <= w.fills
  }

  lemma FetcherWorks(cfg: Config, s: State, step: Step)
    requires Inv(cfg, s) && s.phase.Running? && OfFetcher(step) && Enabled(cfg, s, step)
    ensures var v := Apply(cfg, s, step);
            v.phase.Running?
            && FetchWork(v.phase.run.fetch, s.phase.run.end) < FetchWork(s.phase.run.fetch, s.phase.run.end)
  {
    var r := s.phase.run;
    match step {
      case Skip(_) =>
        RoundsPositive(r.fetch.pos, r.end);
        SkipProgress(r.fetch.pos, r.end);
      case Fetch(_, b) =>
        RoundsPositive(r.fetch.pos, r.end);
        PageProgress(r.fetch.pos, b, r.end);
      case _ =>
    }
  }

  /** Every step of a run ends it or lowers its work, and work cannot fall forever. */
  lemma WorkFalls(cfg: Config, s: State, step: Step)
    requires Inv(cfg, s) && s.phase.Running? && OfRun(step) && Enabled(cfg, s, step)
    ensures var v := Apply(cfg, s, step);
            Bounded(WorkOf(cfg, s.phase.run))
            && (v.phase.Running? ==> Less(WorkOf(cfg, v.phase.run), WorkOf(cfg, s.phase.run)))
  {
    if OfFetcher(step) {
      FetcherWorks(cfg, s, step);
    }
  }

  /** From moment `i` on, as long as the run is on, only enabled steps are taken, its own or those of others. */
  ghost predicate Goes(cfg: Config, states: nat -> State, steps: nat -> Step, i: nat) {
    forall j: nat :: i <= j && states(j).phase.Running? ==> Moves(cfg, states(j), steps(j), states(j + 1))
  }

  ghost predicate Moves(cfg: Config, s: State, step: Step, v: State) {
    Enabled(cfg, s, step) && v == Apply(cfg, s, step)
  }

  /** However many steps others take, the run gets its turn again, as long as it is on. */
  ghost predicate GetsTurns(states: nat -> State, steps: nat -> Step, i: nat) {
    forall j: nat :: i <= j ==> TurnComes(states, steps, j)
  }

  ghost predicate TurnComes(states: nat -> State, steps: nat -> Step, j: nat) {
    exists k: nat :: j <= k && Turn(states(k), steps(k))
  }

  predicate Turn(s: State, step: Step) {
    s.phase.Running? ==> OfRun(step)
  }

  /** A step that is not the run's own ends it or leaves it as it is. */
  lemma OthersLeaveIt(cfg: Config, s: State, step: Step)
    requires Enabled(cfg, s, step) && s.phase.Running? && !OfRun(step)
    ensures var v := Apply(cfg, s, step); v.phase.Running? ==> v.phase == s.phase
  {
  }

  /** The next moment at which the run takes a step of its own, or is over. */
  lemma {:induction false} NextTurn(cfg: Config, states: nat -> State, steps: nat -> Step, i: nat, k: nat)
    returns (j: nat)
    requires Inv(cfg, states(i)) && states(i).phase.Running? && Goes(cfg, states, steps, i)
    requires i <= k && Turn(states(k), steps(k))
    ensures i <= j
    ensures states(j).phase.Running? ==>
              states(j).phase == states(i).phase && Inv(cfg, states(j)) && OfRun(steps(j))
    decreases k - i
  {
    if OfRun(steps(i)) {
      return i;
    }
    assert Moves(cfg, states(i), steps(i), states(i + 1));
    OthersLeaveIt(cfg, states(i), steps(i));
    if !states(i + 1).phase.Running? {
      return i + 1;
    }
    StepKeeps(cfg, states(i), steps(i));
    j := NextTurn(cfg, states, steps, i + 1, k);
  }

  /**
   No run goes on forever, whichever of its steps come next, however long the fetched range and batches are, and
   however often other writers come in between.
   */
  lemma {:induction false} EveryRunEnds(cfg: Config, states: nat -> State, steps: nat -> Step, i: nat)
    requires Inv(cfg, states(i)) && Goes(cfg, states, steps, i) && GetsTurns(states, steps, i)
    ensures exists j: nat :: i <= j && !states(j).phase.Running?
    decreases
      if states(i).phase.Running? then NonNegative(WorkOf(cfg, states(i).phase.run).fetching) else 0,
      if states(i).phase.Running? then NonNegative(WorkOf(cfg, states(i).phase.run).waiting) else 0,
      if states(i).phase.Running? then NonNegative(WorkOf(cfg, states(i).phase.run).consuming) else 0,
      if states(i).phase.Running? then NonNegative(WorkOf(cfg, states(i).phase.run).fills) else 0
  {
    if states(i).phase.Running? {
      assert TurnComes(states, steps, i);
      var j := TakesTurn(cfg, states, steps, i);
      if states(j).phase.Running? {
        EveryRunEnds(cfg, states, steps, j);
      }
    }
  }

  /** A run that gets its turn ends, or has less to do some time later. */
  lemma TakesTurn(cfg: Config, states: nat -> State, steps: nat -> Step, i: nat) returns (j: nat)
    requires Inv(cfg, states(i)) && states(i).phase.Running?
    requires Goes(cfg, states, steps, i) && TurnComes(states, steps, i)
    ensures i <= j
    ensures states(j).phase.Running? ==>
              Inv(cfg, states(j))
              && Bounded(WorkOf(cfg, states(i).phase.run)) && Bounded(WorkOf(cfg, states(j).phase.run))
              && Less(WorkOf(cfg, states(j).phase.run), WorkOf(cfg, states(i).phase.run))
  {
    var k: nat :| i <= k && Turn(states(k), steps(k));
    j := NextTurn(cfg, states, steps, i, k);
    if states(j).phase.Running? {
      assert Moves(cfg, states(j), steps(j), states(j + 1));
      StepKeeps(cfg, states(j), steps(j));
      WorkFalls(cfg, states(j), steps(j));
      j := j + 1;
      if states(j).phase.Running? {
        WorkBounded(cfg, states(j));
      }
    }
  }

  lemma WorkBounded(cfg: Config, s: State)
    requires Inv(cfg, s) && s.phase.Running?
    ensures Bounded(WorkOf(cfg, s.phase.run))
  {
  }

  // ------------------------------------------------ the S3 source fits the engine

  /** Every page that the S3 source returns, at any clock reading and over any archive, is a step of the engine. */
  lemma S3PageIsAStep(cfg: Config, s: State, countOk: bool, net: Archive, now1: int, now2: int)
    requires s.phase.Running? && AtHour(s.phase.run) && Honest(net)
    requires var p := s.phase.run.fetch.pos; !ShouldSkip(p, s.phase.run.missing, SeenCount(s, p, countOk))
    ensures var r := S3Page(net, now1, now2)(s.phase.run.fetch.pos);
            Enabled(cfg, s, if r.Ok? then Fetch(countOk, r.value) else FetchError(countOk))
  {
    var source := S3Page(net, now1, now2);
    S3KeepsContract(net, now1, now2);
    var p := s.phase.run.fetch.pos;
    assert source(p).Ok? ==> PageFrom(source(p).value, PageHour(p));
  }

  /** The same for a continuous session: a page is a step, and so is going on after a failure. */
  lemma S3PageIsAPoll(cfg: Config, s: State, net: Archive, now1: int, now2: int)
    requires s.phase.Ingesting? && s.phase.poll.polling.Waiting? && Honest(net)
    ensures var r := S3Page(net, now1, now2)(s.phase.poll.pos);
            Enabled(cfg, s, if r.Ok? then PollPage(r.value) else PollRetry)
  {
    var source, p := S3Page(net, now1, now2), s.phase.poll.pos;
    S3KeepsContract(net, now1, now2);
    assert source(p).Ok? ==> PageFrom(source(p).value, PageHour(p));
  }
}
