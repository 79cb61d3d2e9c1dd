/** The engine's runs are runs of the fetch loop and of the consumer loop, whatever else happens around them. */
module Refinement {
  import opened Wrappers
  import opened Hours
  import opened Fills
  import opened Gaps
  import opened Pages
  import opened Retry
  import opened Stores
  import opened Fetcher
  import opened Planner
  import opened Backfill
  import opened Continuous
  import opened Engine
  import opened EngineSafety
  import opened EngineTheorems

  // ----------------------------------------------------------- the fetch loop

  /** All pages that the fetcher has downloaded, sent or not. */
  function Fetched(r: Run): seq<Batch> {
    r.sent + (if r.fetch.Sending? then [r.fetch.batch] else [])
  }

  function TaskOf(r: Run): Task {
    Task(r.first, r.end, r.missing)
  }

  /** Position and pages are those of a trail of the fetch loop, and the fetcher has ended for the loop's reasons. */
  ghost predicate FetchesAsLoop(r: Run) {
    && (r.fetch.Launched? ==> r.fetch.pos == r.first && r.sent == [] && r.missing == [])
    && OnSomeTrail(TaskOf(r), r.fetch.pos, Fetched(r))
    && (if r.fetch.Ended? && r.fetch.why == NoMoreData
        then r.sent != [] && !r.sent[|r.sent| - 1].hasMore && AllHaveMore(r.sent[..|r.sent| - 1])
        else AllHaveMore(r.sent))
  }

  ghost predicate OnSomeTrail(task: Task, p: Pos, sent: seq<Batch>) {
    exists env: nat -> Round, trail: seq<Visit> :: Trail(task, env, 1, trail, p, sent)
  }

  /** A trail depends on its own rounds only. */
  lemma {:induction false} SameRounds(task: Task, env: nat -> Round, other: nat -> Round, trail: seq<Visit>,
                                      p: Pos, sent: seq<Batch>)
    requires Trail(task, env, 1, trail, p, sent) && forall i: nat :: i < |trail| ==> env(i) == other(i)
    ensures Trail(task, other, 1, trail, p, sent)
    decreases |trail|
  {
    if trail != [] {
      var n := |trail| - 1;
      if ShouldSkip(trail[n].pos, task.missing, CountOf(env(n), trail[n].pos)) {
        SameRounds(task, env, other, trail[..n], trail[n].pos, sent);
      } else {
        SameRounds(task, env, other, trail[..n], trail[n].pos, sent[..|sent| - 1]);
      }
    }
  }

  function WithRound(env: nat -> Round, n: nat, round: Round): nat -> Round {
    (i: nat) => if i == n then round else env(i)
  }

  /** A round in which the table is `t`, if the count can be read, and every attempt is answered with `b`. */
  function RoundWith(t: seq<Fill>, ok: bool, b: Batch): Round {
    Round(if ok then Some(t) else None, (k: nat) => (p: Pos) => Ok(b), (k: nat) => false, false)
  }

  lemma SkipIsARound(task: Task, t: seq<Fill>, ok: bool, p: Pos, sent: seq<Batch>)
    requires OnSomeTrail(task, p, sent) && p.start < task.end
    requires ShouldSkip(p, task.missing, CountOf(RoundWith(t, ok, Batch([], None, false)), p))
    ensures OnSomeTrail(task, AfterSkip(p), sent)
  {
    var env: nat -> Round, trail: seq<Visit> :| Trail(task, env, 1, trail, p, sent);
    var other := WithRound(env, |trail|, RoundWith(t, ok, Batch([], None, false)));
    SameRounds(task, env, other, trail, p, sent);
    TrailSkips(task, other, 1, trail, p, sent);
  }

  lemma PageIsARound(task: Task, t: seq<Fill>, ok: bool, p: Pos, sent: seq<Batch>, b: Batch)
    requires OnSomeTrail(task, p, sent) && p.start < task.end
    requires !ShouldSkip(p, task.missing, CountOf(RoundWith(t, ok, b), p))
    ensures OnSomeTrail(task, AfterPage(p, b), sent + [b])
  {
    var env: nat -> Round, trail: seq<Visit> :| Trail(task, env, 1, trail, p, sent);
    var other := WithRound(env, |trail|, RoundWith(t, ok, b));
    SameRounds(task, env, other, trail, p, sent);
    assert other(|trail|).attempts(0)(p) == Ok(b);
    TrailFetches(task, other, 1, trail, p, sent, b);
  }

  lemma NoRoundYet(task: Task)
    ensures OnSomeTrail(task, task.first, [])
  {
    assert Trail(task, (i: nat) => RoundWith([], false, Batch([], None, false)), 1, [], task.first, []);
  }

  lemma NothingInHand(r: Run)
    requires !r.fetch.Sending?
    ensures Fetched(r) == r.sent
  {
  }

  lemma PageRefines(cfg: Config, s: State, ok: bool, b: Batch)
    requires s.phase.Running? && Enabled(cfg, s, Fetch(ok, b)) && FetchesAsLoop(s.phase.run)
    ensures FetchesAsLoop(Apply(cfg, s, Fetch(ok, b)).phase.run)
  {
    var r := s.phase.run;
    NothingInHand(r);
    PageIsARound(TaskOf(r), s.table, ok, r.fetch.pos, r.sent, b);
  }

  lemma SkipRefines(cfg: Config, s: State, ok: bool)
    requires s.phase.Running? && Enabled(cfg, s, Skip(ok)) && FetchesAsLoop(s.phase.run)
    ensures FetchesAsLoop(Apply(cfg, s, Skip(ok)).phase.run)
  {
    var r := s.phase.run;
    NothingInHand(r);
    NothingInHand(Apply(cfg, s, Skip(ok)).phase.run);
    SkipIsARound(TaskOf(r), s.table, ok, r.fetch.pos, r.sent);
  }

  lemma SendRefines(cfg: Config, s: State)
    requires s.phase.Running? && Enabled(cfg, s, Send) && FetchesAsLoop(s.phase.run)
    ensures FetchesAsLoop(Apply(cfg, s, Send).phase.run)
  {
    var r, w := s.phase.run, Apply(cfg, s, Send).phase.run;
    NothingInHand(w);
    assert w.sent == Fetched(r) && w.sent[..|w.sent| - 1] == r.sent;
  }

  lemma StopRefines(cfg: Config, s: State, step: Step)
    requires s.phase.Running? && (step.Prefetch? || step.FetchError? || step.ReachEnd?) && Enabled(cfg, s, step)
    requires FetchesAsLoop(s.phase.run)
    ensures FetchesAsLoop(Apply(cfg, s, step).phase.run)
  {
    var r, w := s.phase.run, Apply(cfg, s, step).phase.run;
    NothingInHand(r);
    NothingInHand(w);
    if step.Prefetch? {
      NoRoundYet(TaskOf(w));
    }
  }

  lemma FetcherRefines(cfg: Config, s: State, step: Step)
    requires s.phase.Running? && OfFetcher(step) && Enabled(cfg, s, step) && FetchesAsLoop(s.phase.run)
    ensures FetchesAsLoop(Apply(cfg, s, step).phase.run)
  {
    if step.Skip? {
      SkipRefines(cfg, s, step.countOk);
    } else if step.Fetch? {
      PageRefines(cfg, s, step.countOk, step.batch);
    } else if step.Send? {
      SendRefines(cfg, s);
    } else {
      StopRefines(cfg, s, step);
    }
  }

  /** Steps of the consumer and of others leave the fetcher as it is. */
  lemma OthersRefine(cfg: Config, s: State, step: Step)
    requires s.phase.Running? && FetchesAsLoop(s.phase.run)
    requires !OfFetcher(step) && Enabled(cfg, s, step) && Apply(cfg, s, step).phase.Running?
    ensures FetchesAsLoop(Apply(cfg, s, step).phase.run)
  {
    var r, w := s.phase.run, Apply(cfg, s, step).phase.run;
    assert w.fetch == r.fetch && w.sent == r.sent && TaskOf(w) == TaskOf(r);
  }

  lemma StepRefines(cfg: Config, s: State, step: Step)
    requires s.phase.Running? ==> FetchesAsLoop(s.phase.run)
    requires Enabled(cfg, s, step)
    ensures var v := Apply(cfg, s, step); v.phase.Running? ==> FetchesAsLoop(v.phase.run)
  {
    var v := Apply(cfg, s, step);
    if OfFetcher(step) {
      FetcherRefines(cfg, s, step);
    } else if s.phase.Running? {
      if v.phase.Running? {
        OthersRefine(cfg, s, step);
      }
    } else if v.phase.Running? {
      NothingInHand(v.phase.run);
      NoRoundYet(TaskOf(v.phase.run));
    }
  }

  /**
   In every behaviour, at every moment of a run, the fetcher is where the fetch loop would be: position and pages are
   those of a trail of the loop, with some answers to its requests, and it stops exactly after a page without more.
   */
  lemma {:induction false} FetcherIsTheLoop(cfg: Config, states: seq<State>, steps: seq<Step>, i: nat)
    requires Behaviour(cfg, states, steps) && i < |states| && states[i].phase.Running?
    ensures FetchesAsLoop(states[i].phase.run)
  {
    if states[i - 1].phase.Running? {
      FetcherIsTheLoop(cfg, states, steps, i - 1);
    }
    StepRefines(cfg, states[i - 1], steps[i - 1]);
  }

  /** The list that the fetcher works with is the answer of the gap query when it begins. */
  lemma PrefetchAsks(cfg: Config, s: State)
    requires Enabled(cfg, s, Prefetch(true)) && FetchesAsLoop(s.phase.run)
    ensures var r := Apply(cfg, s, Prefetch(true)).phase.run;
            forall h :: h in r.missing <==>
              HourOf(r.first.start) <= h < HourOf(r.end)
              && |Between(s.table, Max(r.first.start, HourStart(h)), HourStart(h + 1))| < 1000
  {
    MissingExact(s.table, s.phase.run.first.start, s.phase.run.end);
  }

  // -------------------------------------------------------- the consumer loop

  /** Nobody else writes, nothing is tried again, and nothing fails. */
  predicate Quiet(step: Step) {
    !step.OthersInsert? && !step.RetryInsert? && !step.PollRetry?
  }

  /** What the consumer loop computes from the batches handled so far, beginning with the table `t`. */
  function Computed(t: seq<Fill>, s: State): Progress
    requires s.phase.Running? && s.phase.run.before <= |s.handled|
  {
    ConsumeAll(Progress(t, s.phase.run.loaded, s.phase.run.loaded.records), s.handled[s.phase.run.before..])
  }

  /** Table, checkpoint and total are the computed ones, but for the part of the batch in hand that is committed. */
  ghost predicate ConsumesAsLoop(t: seq<Fill>, s: State)
    requires s.phase.Running? && s.phase.run.before <= |s.handled|
  {
    var r, c := s.phase.run, Computed(t, s);
    && r.checkpoint == c.checkpoint && r.total == c.total
    && if !r.consume.Inserting? then s.table == c.table
       else
         && r.consume.done <= |FillsIn(r.consume.batch)|
         && s.table == InsertAll(c.table, FillsIn(r.consume.batch)[..r.consume.done])
         && r.consume.counted == |s.table| - |c.table|
  }

  lemma CommitConsumes(cfg: Config, t: seq<Fill>, s: State, upTo: nat)
    requires s.phase.Running? && s.phase.run.before <= |s.handled| && ConsumesAsLoop(t, s)
    requires Enabled(cfg, s, CommitPart(upTo))
    ensures ConsumesAsLoop(t, Apply(cfg, s, CommitPart(upTo)))
  {
    var r := s.phase.run;
    InsertSlice(Computed(t, s).table, FillsIn(r.consume.batch), r.consume.done, upTo);
  }

  lemma FinishConsumes(cfg: Config, t: seq<Fill>, s: State, save: bool)
    requires s.phase.Running? && s.phase.run.before <= |s.handled| && ConsumesAsLoop(t, s)
    requires Enabled(cfg, s, Finish(save))
    ensures ConsumesAsLoop(t, Apply(cfg, s, Finish(save)))
  {
    var r := s.phase.run;
    ComputedNext(t, r, s.handled, r.consume.batch);
    assert FillsIn(r.consume.batch)[..|FillsIn(r.consume.batch)|] == FillsIn(r.consume.batch);
  }

  lemma ComputedNext(t: seq<Fill>, r: Run, handled: seq<Batch>, b: Batch)
    requires r.before <= |handled|
    ensures var start := Progress(t, r.loaded, r.loaded.records);
            ConsumeAll(start, (handled + [b])[r.before..]) == ConsumeOne(ConsumeAll(start, handled[r.before..]), b)
  {
    assert (handled + [b])[r.before..] == handled[r.before..] + [b];
    ConsumeSnoc(Progress(t, r.loaded, r.loaded.records), handled[r.before..], b);
  }

  lemma OtherStepConsumes(cfg: Config, t: seq<Fill>, s: State, step: Step)
    requires s.phase.Running? && s.phase.run.before <= |s.handled| && ConsumesAsLoop(t, s)
    requires Enabled(cfg, s, step) && Quiet(step) && !step.CommitPart? && !step.Finish?
    requires Apply(cfg, s, step).phase.Running?
    ensures ConsumesAsLoop(t, Apply(cfg, s, step))
  {
    if step.Receive? {
      assert FillsIn(s.phase.run.queue[0])[..0] == [];
    }
  }

  lemma StepConsumes(cfg: Config, t: seq<Fill>, s: State, step: Step)
    requires s.phase.Running? && s.phase.run.before <= |s.handled| && ConsumesAsLoop(t, s)
    requires Enabled(cfg, s, step) && Quiet(step)
    ensures var v := Apply(cfg, s, step); v.phase.Running? ==> v.phase.run.before <= |v.handled| && ConsumesAsLoop(t, v)
  {
    if step.CommitPart? {
      CommitConsumes(cfg, t, s, step.upTo);
    } else if step.Finish? {
      FinishConsumes(cfg, t, s, step.save);
    } else if Apply(cfg, s, step).phase.Running? {
      OtherStepConsumes(cfg, t, s, step);
    }
  }

  /**
   A run with nobody else writing and no attempt repeated, from its beginning at moment `i` to moment `j`: whatever the
   sizes of the transactions and however fetching and inserting interleave, table, checkpoint and count are those that
   the consumer loop computes from the batches handled.
   */
  lemma {:induction false} ConsumerIsTheLoop(cfg: Config, states: seq<State>, steps: seq<Step>, i: nat, j: nat)
    requires Behaviour(cfg, states, steps) && i < j < |states|
    requires steps[i].Begin? && forall k :: i < k < j ==> Quiet(steps[k])
    requires forall k :: i < k <= j ==> states[k].phase.Running?
    ensures var s := states[j];
            s.phase.Running? && s.phase.run.before <= |s.handled| && ConsumesAsLoop(states[i + 1].table, s)
  {
    if j > i + 1 {
      ConsumerIsTheLoop(cfg, states, steps, i, j - 1);
      StepConsumes(cfg, states[i + 1].table, states[j - 1], steps[j - 1]);
    } else {
      assert Enabled(cfg, states[i], steps[i]) && states[i + 1] == Apply(cfg, states[i], steps[i]);
      assert states[i + 1].phase.Running?;
      BegunConsumes(cfg, states[i], steps[i]);
    }
  }

  lemma BegunConsumes(cfg: Config, s: State, step: Step)
    requires Enabled(cfg, s, step) && step.Begin? && Apply(cfg, s, step).phase.Running?
    ensures var v := Apply(cfg, s, step); v.phase.run.before <= |v.handled| && ConsumesAsLoop(v.table, v)
  {
    var v := Apply(cfg, s, step);
    assert v.handled[v.phase.run.before..] == [];
  }

  /** A repeated attempt starts over: the whole batch is to be inserted, and only its own rows will count. */
  lemma RetryStartsOver(cfg: Config, s: State)
    requires Enabled(cfg, s, RetryInsert)
    ensures var r, w := s.phase.run, Apply(cfg, s, RetryInsert).phase.run;
            && w.consume.Inserting? && w.consume.batch == r.consume.batch && w.consume.attempt == r.consume.attempt + 1
            && (FillsIn(r.consume.batch) != [] ==> !Enabled(cfg, Apply(cfg, s, RetryInsert), Finish(true)))
            && (forall upTo: nat :: Enabled(cfg, Apply(cfg, s, RetryInsert), CommitPart(upTo)) ==>
                  var v := Apply(cfg, Apply(cfg, s, RetryInsert), CommitPart(upTo));
                  v.table == InsertAll(s.table, FillsIn(r.consume.batch)[..upTo])
                  && v.phase.run.consume.counted == |v.table| - |s.table|)
  {
    var r, again := s.phase.run, Apply(cfg, s, RetryInsert);
    forall upTo: nat | Enabled(cfg, again, CommitPart(upTo))
      ensures FillsIn(r.consume.batch)[0..upTo] == FillsIn(r.consume.batch)[..upTo]
    {
    }
  }

  // ----------------------------------------------------------------- failures

  /** The run has failed, or will when it returns. */
  predicate Fails(s: State) {
    || (s.phase.Returned? && s.phase.how == Failed)
    || (s.phase.Running? && s.phase.run.fetch.Ended? && s.phase.run.fetch.why == FetchFailed)
  }

  lemma FailsAnew(cfg: Config, s: State, step: Step)
    requires Enabled(cfg, s, step) && Fails(Apply(cfg, s, step)) && !Fails(s)
    ensures step.FetchError? || step.Fail?
  {
  }

  /** A run returns an error only if a page could not be fetched or a statement failed. */
  lemma {:induction false} OnlyFailuresFail(cfg: Config, states: seq<State>, steps: seq<Step>, i: nat) returns (j: nat)
    requires Behaviour(cfg, states, steps) && i < |states| && Fails(states[i])
    ensures j < i && (steps[j].FetchError? || steps[j].Fail?)
  {
    if Fails(states[i - 1]) {
      j := OnlyFailuresFail(cfg, states, steps, i - 1);
    } else {
      FailsAnew(cfg, states[i - 1], steps[i - 1]);
      j := i - 1;
    }
  }

  // ----------------------------------------------------------------- sessions

  /**
   A run begins with the checkpoint that a process started right after it would load, and fetches from there, or from
   the start of its range if that is later.
   */
  lemma BegunAsSaved(cfg: Config, s: State, step: Step)
    requires Inv(cfg, s) && Enabled(cfg, s, step) && step.Begin? && Apply(cfg, s, step).phase.Running?
    ensures var v := Apply(cfg, s, step);
            var r, c := v.phase.run, Loaded(v);
            && r.loaded == c == r.checkpoint && r.total == c.records
            && r.begin == step.start && r.end == step.end && r.fetch == Launched(r.first)
            && r.first == if c.lastTs.Some? && step.start < c.lastTs.value then Pos(c.lastTs.value, c.cursor)
                          else Pos(step.start, None)
  {
    QueriesGrow(s.table, step.between);
    ResumeIsStartOrCheckpoint(s.saved, step.start, step.end, QueriesFrom(s.table, step.between));
  }

  /** So does a session: it stands where the saved row says, if there is one. */
  lemma SessionBegunAsSaved(cfg: Config, s: State, step: Step)
    requires Enabled(cfg, s, step) && step.BeginPoll?
    ensures var v := Apply(cfg, s, step);
            && v.phase.poll.total == Loaded(v).records && v.phase.poll.pos.cursor == Loaded(v).cursor
            && (Loaded(v).lastTs.Some? ==> v.phase.poll.pos.start == Loaded(v).lastTs.value)
  {
  }

  /** The session stands where the saved row says, if there is one, and its total is the row's count. */
  ghost predicate AtRow(s: State) {
    s.phase.Ingesting? ==>
      var p, c := s.phase.poll, Loaded(s);
      p.total == c.records && (c.lastTs.Some? ==> p.pos == Pos(c.lastTs.value, c.cursor))
  }

  lemma StepStaysAtRow(cfg: Config, s: State, step: Step)
    requires AtRow(s) && Enabled(cfg, s, step)
    ensures AtRow(Apply(cfg, s, step))
  {
    if step.BeginPoll? {
      SessionBegunAsSaved(cfg, s, step);
    }
  }

  /** At every moment of a session a process started anew would go on from the same position, with the same count. */
  lemma {:induction false} SessionStandsAtRow(cfg: Config, states: seq<State>, steps: seq<Step>, i: nat)
    requires Behaviour(cfg, states, steps) && i < |states|
    ensures AtRow(states[i])
  {
    if i > 0 {
      SessionStandsAtRow(cfg, states, steps, i - 1);
      StepStaysAtRow(cfg, states[i - 1], steps[i - 1]);
    }
  }

  /** The rows that a session has counted since the table `t`, with the total `total`. */
  ghost predicate Counts(t: seq<Fill>, total: int, s: State) {
    s.phase.Ingesting? ==>
      var p := s.phase.poll;
      p.total + (if p.polling.Storing? then p.polling.counted else 0) == total + |s.table| - |t|
  }

  /** In a session with nobody else writing and no attempt repeated, the total follows the rows exactly. */
  lemma {:induction false} SessionCounts(cfg: Config, states: seq<State>, steps: seq<Step>, i: nat, j: nat)
    requires Behaviour(cfg, states, steps) && i < j < |states|
    requires steps[i].BeginPoll? && forall k :: i < k < j ==> Quiet(steps[k])
    requires forall k :: i < k <= j ==> states[k].phase.Ingesting?
    ensures Counts(states[i + 1].table, Loaded(states[i + 1]).records, states[j])
  {
    if j > i + 1 {
      SessionCounts(cfg, states, steps, i, j - 1);
    } else {
      SessionBegunAsSaved(cfg, states[i], steps[i]);
    }
  }
}
