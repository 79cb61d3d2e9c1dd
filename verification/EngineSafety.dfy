/** Every step of the engine keeps its invariant; what that means for runs, crashes and restarts. */
module EngineSafety {
  import opened Wrappers
  import opened Hours
  import opened Fills
  import opened Gaps
  import opened Pages
  import opened Retry
  import opened Stores
  import opened Fetcher
  import opened Planner
  import opened Backfill
  import opened Continuous
  import opened Engine

  // ------------------------------------------------------------ growing facts

  lemma KeysGrow(t: seq<Fill>, u: seq<Fill>)
    requires t <= u
    ensures Keys(t) <= Keys(u)
  {
  }

  lemma KnownGrows(t: seq<Fill>, u: seq<Fill>, bs: seq<Batch>, more: seq<Batch>, from: int, to: int)
    requires t <= u && KnownBetween(t, bs, from, to)
    ensures KnownBetween(u, bs + more, from, to)
  {
    var all := bs + more;
    forall h | from <= h < to ensures Known(u, all, h) {
      assert Known(t, bs, h);
      if Full(t, h) {
        FullStays(t, u, h);
      } else {
        RequestedBefore(bs, more, h);
      }
    }
  }

  lemma KnownMore(t: seq<Fill>, u: seq<Fill>, bs: seq<Batch>, from: int, to: int)
    requires t <= u && KnownBetween(t, bs, from, to)
    ensures KnownBetween(u, bs, from, to)
  {
    KnownGrows(t, u, bs, [], from, to);
    assert bs + [] == bs;
  }

  lemma NothingLostGrows(start: int, t: seq<Fill>, u: seq<Fill>, bs: seq<Batch>, more: seq<Batch>, c: Checkpoint)
    requires t <= u && NothingLost(start, t, bs, c)
    ensures NothingLost(start, u, bs + more, c)
  {
    if c.lastTs.Some? {
      KnownGrows(t, u, bs, more, HourOf(start), ResumeHour(c));
    }
  }

  lemma NothingLostMore(start: int, t: seq<Fill>, u: seq<Fill>, bs: seq<Batch>, c: Checkpoint)
    requires t <= u && NothingLost(start, t, bs, c)
    ensures NothingLost(start, u, bs, c)
  {
    NothingLostGrows(start, t, u, bs, [], c);
    assert bs + [] == bs;
  }

  lemma RunGrows(cfg: Config, s: State, u: seq<Fill>)
    requires s.phase.Running? && RunOk(cfg, s, s.phase.run) && s.table <= u
    ensures RunOk(cfg, s.(table := u), s.phase.run)
  {
    var r := s.phase.run;
    var v := s.(table := u);
    KeysGrow(s.table, u);
    NothingLostMore(s.start, s.table, u, s.handled, r.checkpoint);
    KnownMore(s.table, u, s.handled + InFlight(r), HourOf(s.start), Behind(r));
    assert MissingSound(u, r) by {
      forall h | Full(s.table, h) ensures Full(u, h) {
        FullStays(s.table, u, h);
      }
    }
    var flight := InFlight(r);
    forall i: nat | i < |flight| ensures CursorCovered(s.start, u, s.handled, flight, i) {
      assert CursorCovered(s.start, s.table, s.handled, flight, i);
      if flight[i].cursor.Some? {
        KnownMore(s.table, u, s.handled + flight[..i + 1], HourOf(s.start), flight[i].cursor.value);
      }
    }
  }

  lemma PollGrows(s: State, u: seq<Fill>)
    requires s.phase.Ingesting? && PollOk(s, s.phase.poll) && s.table <= u
    ensures PollOk(s.(table := u), s.phase.poll)
  {
    KeysGrow(s.table, u);
    KnownMore(s.table, u, s.handled, HourOf(s.start), s.phase.poll.top);
  }

  lemma OutcomeGrows(s: State, u: seq<Fill>, end: int, how: Outcome)
    requires OutcomeOk(s, end, how) && s.table <= u
    ensures OutcomeOk(s.(table := u), end, how)
  {
    match how {
      case Failed =>
      case Skipped(_) => KnownMore(s.table, u, s.handled, HourOf(s.start), HourOf(end));
      case Finished(why, pos) =>
        KnownMore(s.table, u, s.handled, HourOf(s.start), if why == ReachedEnd then HourOf(end) else PageHour(pos));
    }
  }

  lemma CommittedGrows(t: seq<Fill>, u: seq<Fill>, bs: seq<Batch>)
    requires t <= u && forall i :: 0 <= i < |bs| ==> Committed(t, bs[i])
    ensures forall i :: 0 <= i < |bs| ==> Committed(u, bs[i])
  {
    KeysGrow(t, u);
    forall i | 0 <= i < |bs| ensures Committed(u, bs[i]) {
      assert Committed(t, bs[i]);
    }
  }

  lemma PersistentGrows(cfg: Config, s: State, u: seq<Fill>)
    requires Inv(cfg, s) && s.table <= u
    ensures forall i :: 0 <= i < |s.handled| ==> Committed(u, s.handled[i])
    ensures s.saved.Some? ==> NothingLost(s.start, u, s.handled, s.saved.value)
  {
    CommittedGrows(s.table, u, s.handled);
    if s.saved.Some? {
      NothingLostMore(s.start, s.table, u, s.handled, s.saved.value);
    }
  }

  lemma OthersKeep(cfg: Config, s: State, fills: seq<Fill>)
    requires Inv(cfg, s)
    ensures Inv(cfg, Apply(cfg, s, OthersInsert(fills)))
  {
    var u := InsertAll(s.table, fills);
    InsertAllExtends(s.table, fills);
    InsertAllUnique(s.table, fills);
    PersistentGrows(cfg, s, u);
    match s.phase {
      case Idle =>
      case Running(r) => RunGrows(cfg, s, u);
      case Ingesting(p) => PollGrows(s, u);
      case Returned(_, end, how) => OutcomeGrows(s, u, end, how);
    }
  }

  // --------------------------------------------------------------- the planner

  lemma QueriesGrow(t: seq<Fill>, between: seq<seq<Fill>>)
    requires |between| == 3
    ensures var q := QueriesFrom(t, between);
            q.atReset == t && Growing(q) && t <= q.atGaps && (UniqueKeys(t) ==> UniqueKeys(q.atGaps))
  {
    var t1 := InsertAll(t, between[0]);
    var t2 := InsertAll(t1, between[1]);
    InsertAllExtends(t, between[0]);
    InsertAllExtends(t1, between[1]);
    InsertAllExtends(t2, between[2]);
    if UniqueKeys(t) {
      InsertAllUnique(t, between[0]);
      InsertAllUnique(t1, between[1]);
      InsertAllUnique(t2, between[2]);
    }
  }

  /** The row is reset, or has lost nothing from this start on. */
  ghost predicate ReadyFrom(start: int, t: seq<Fill>, bs: seq<Batch>, saved: Option<Checkpoint>, end: int) {
    saved.Some? ==>
      var c := saved.value;
      CursorAhead(c) && c.records <= |t| && (AutoRefresh(c, start, end, t).1 || NothingLost(start, t, bs, c))
  }

  /** Wherever a run may start, the planner makes the row ready. */
  lemma MayStartIsReady(s: State, start: int, end: int)
    requires s.saved.Some? ==> NothingLost(s.start, s.table, s.handled, s.saved.value)
    requires MayStartAt(s, start, end)
    ensures ReadyFrom(start, s.table, s.handled, s.saved, end)
  {
    if s.saved.Some? && s.saved.value.lastTs.Some? {
      var c := s.saved.value;
      var until := Min(c.lastTs.value, end);
      var gaps := MissingHours(s.table, start, until);
      if gaps == [] && HourOf(s.start) <= HourOf(until) {
        forall h | HourOf(start) <= h < ResumeHour(c) ensures Known(s.table, s.handled, h) {
          if h < HourOf(until) {
            ReportedOrFull(s.table, start, until, h);
          }
        }
      } else if s.start <= start {
        HourMonotone(s.start, start);
      }
    }
  }

  /** The planned checkpoint loses nothing, whether it was reset or not. */
  lemma PlannedLosesNothing(start: int, t: seq<Fill>, bs: seq<Batch>, saved: Option<Checkpoint>, end: int, q: Queries)
    requires ReadyFrom(start, t, bs, saved, end)
    requires q.atReset == t && Growing(q)
    ensures NothingLost(start, q.atGaps, bs, PlanBackfill(saved, start, end, q).checkpoint)
  {
    var loaded := if saved.Some? then saved.value else FreshCheckpoint();
    var c := PlanBackfill(saved, start, end, q).checkpoint;
    RefreshEffect(loaded, start, end, t);
    if AutoRefresh(loaded, start, end, t).1 {
      ResetHoursStayFull(t, q.atGaps, start, ResumeHour(c));
    } else if saved.Some? {
      NothingLostMore(start, t, q.atGaps, bs, loaded);
    }
  }

  /** A run that returns at once leaves no hour of the range unknown. */
  lemma SkippedIsKnown(start: int, t: seq<Fill>, bs: seq<Batch>, saved: Option<Checkpoint>, end: int, q: Queries)
    requires ReadyFrom(start, t, bs, saved, end)
    requires q.atReset == t && Growing(q)
    requires !PlanBackfill(saved, start, end, q).plan.Resume?
    ensures KnownBetween(q.atGaps, bs, HourOf(start), HourOf(end))
  {
    var p := PlanBackfill(saved, start, end, q);
    PlannedLosesNothing(start, t, bs, saved, end, q);
    if p.plan.Complete? {
      forall h | HourOf(start) <= h < HourOf(end) ensures Known(q.atGaps, bs, h) {
        ReportedOrFull(q.atComplete, start, end, h);
        FullStays(q.atComplete, q.atGaps, h);
      }
    } else {
      HourMonotone(end, p.checkpoint.lastTs.value);
    }
  }

  /** A run that resumes has nothing unknown before its first page hour. */
  lemma ResumedIsKnown(start: int, t: seq<Fill>, bs: seq<Batch>, saved: Option<Checkpoint>, end: int, q: Queries)
    requires ReadyFrom(start, t, bs, saved, end)
    requires q.atReset == t && Growing(q)
    requires PlanBackfill(saved, start, end, q).plan.Resume?
    ensures var pos := PlanBackfill(saved, start, end, q).plan.pos;
            Ordered(pos) && KnownBetween(q.atGaps, bs, HourOf(start), PageHour(pos))
  {
    PlannedLosesNothing(start, t, bs, saved, end, q);
    ResumeIsStartOrCheckpoint(saved, start, end, q);
    PlannerGuarantee(saved, start, end, q);
  }

  /** What begins at `start` is also right for an earlier start, if the hours in between are known. */
  lemma EarlierIsKnown(cfg: Config, v: State, from: int)
    requires Inv(cfg, v) && KnownBetween(v.table, v.handled, HourOf(from), HourOf(v.start))
    requires from <= v.start
    requires v.phase.Returned? || (v.phase.Running? && InFlight(v.phase.run) == [])
    ensures Inv(cfg, v.(start := from))
  {
    if v.phase.Running? {
      assert v.handled + [] == v.handled;
    }
  }

  lemma BeginKeeps(cfg: Config, s: State, start: int, end: int, between: seq<seq<Fill>>)
    requires Inv(cfg, s) && Enabled(cfg, s, Begin(start, end, between))
    ensures Inv(cfg, Apply(cfg, s, Begin(start, end, between)))
  {
    var v := PlanRun(s, start, end, QueriesFrom(s.table, between));
    PlanRunKeeps(cfg, s, start, end, between);
    QueriesGrow(s.table, between);
    if CoveredFrom(s, start) != start {
      KnownMore(s.table, v.table, s.handled, HourOf(s.start), HourOf(start));
    }
    EarlierIsKnown(cfg, v, CoveredFrom(s, start));
  }

  lemma PlanRunKeeps(cfg: Config, s: State, start: int, end: int, between: seq<seq<Fill>>)
    requires Inv(cfg, s) && Enabled(cfg, s, Begin(start, end, between))
    ensures Inv(cfg, PlanRun(s, start, end, QueriesFrom(s.table, between)))
  {
    var q := QueriesFrom(s.table, between);
    var p := PlanBackfill(s.saved, start, end, q);
    QueriesGrow(s.table, between);
    MayStartIsReady(s, start, end);
    CommittedGrows(s.table, q.atGaps, s.handled);
    PlannedLosesNothing(start, s.table, s.handled, s.saved, end, q);
    if p.plan.Resume? {
      ResumedIsKnown(start, s.table, s.handled, s.saved, end, q);
      var v := PlanRun(s, start, end, q);
      assert InFlight(v.phase.run) == [];
      assert v.handled + [] == v.handled;
    } else {
      SkippedIsKnown(start, s.table, s.handled, s.saved, end, q);
    }
  }

  // --------------------------------------------------------------- the fetcher

  lemma PrefetchKeeps(cfg: Config, s: State, ok: bool)
    requires Inv(cfg, s) && Enabled(cfg, s, Prefetch(ok))
    ensures Inv(cfg, Apply(cfg, s, Prefetch(ok)))
  {
    var r := s.phase.run;
    var v := Apply(cfg, s, Prefetch(ok));
    assert InFlight(v.phase.run) == InFlight(r);
    forall h | HourOf(r.first.start) <= h < HourOf(r.end) && ok
      ensures h in v.phase.run.missing || Full(s.table, h)
    {
      ReportedOrFull(s.table, r.first.start, r.end, h);
    }
  }

  lemma SkipKeeps(cfg: Config, s: State, ok: bool)
    requires Inv(cfg, s) && Enabled(cfg, s, Skip(ok))
    ensures Inv(cfg, Apply(cfg, s, Skip(ok)))
  {
    var r := s.phase.run;
    var v := Apply(cfg, s, Skip(ok));
    var p, next := r.fetch.pos, v.phase.run.fetch.pos;
    assert InFlight(v.phase.run) == InFlight(r);
    SkipProgress(p, r.end);
    var here := HourOf(p.start);
    HourOfStart(here + 1);
    if next.start < r.end {
      HourMonotone(next.start, r.end);
    }
    var bs := s.handled + InFlight(r);
    forall h | HourOf(s.start) <= h < Behind(v.phase.run) ensures Known(s.table, bs, h) {
      if h == here {
        assert Full(s.table, h);
      }
    }
  }

  lemma FetchKeeps(cfg: Config, s: State, ok: bool, b: Batch)
    requires Inv(cfg, s) && Enabled(cfg, s, Fetch(ok, b))
    ensures Inv(cfg, Apply(cfg, s, Fetch(ok, b)))
  {
    var r := s.phase.run;
    var v := Apply(cfg, s, Fetch(ok, b));
    var p, flight := r.fetch.pos, InFlight(r);
    PageProgress(p, b, r.end);
    assert InFlight(v.phase.run) == flight + [b];
    var sofar, all := s.handled + flight, s.handled + (flight + [b]);
    assert all == sofar + [b];
    var from, n := PageHour(p), |b.requests|;
    forall h | HourOf(s.start) <= h < from + n ensures Known(s.table, all, h) {
      if h < from {
        assert Known(s.table, sofar, h);
        if RequestedIn(sofar, h) {
          RequestedBefore(sofar, [b], h);
        }
      } else {
        PageHasHours(b, from, h);
        RequestedLast(sofar, b, h);
      }
    }
    forall i: nat | i < |flight| + 1 ensures CursorCovered(s.start, s.table, s.handled, flight + [b], i) {
      if i < |flight| {
        assert CursorCovered(s.start, s.table, s.handled, flight, i);
        assert (flight + [b])[..i + 1] == flight[..i + 1];
      } else {
        assert (flight + [b])[..i + 1] == flight + [b];
      }
    }
  }

  lemma StopKeeps(cfg: Config, s: State, step: Step)
    requires Inv(cfg, s) && Enabled(cfg, s, step) && (step.FetchError? || step.ReachEnd?)
    ensures Inv(cfg, Apply(cfg, s, step))
  {
    assert InFlight(Apply(cfg, s, step).phase.run) == InFlight(s.phase.run);
  }

  lemma SendKeeps(cfg: Config, s: State)
    requires Inv(cfg, s) && Enabled(cfg, s, Send)
    ensures Inv(cfg, Apply(cfg, s, Send))
  {
    assert InFlight(Apply(cfg, s, Send).phase.run) == InFlight(s.phase.run);
  }

  // -------------------------------------------------------------- the consumer

  lemma ReceiveKeeps(cfg: Config, s: State)
    requires Inv(cfg, s) && Enabled(cfg, s, Receive)
    ensures Inv(cfg, Apply(cfg, s, Receive))
  {
    var r := s.phase.run;
    var v := Apply(cfg, s, Receive);
    assert InFlight(v.phase.run) == InFlight(r);
    assert r.queue == [r.queue[0]] + r.queue[1..];
    assert r.received + r.queue == (r.received + [r.queue[0]]) + r.queue[1..];
    assert FillsIn(r.queue[0])[..0] == [];
  }

  lemma CommitKeeps(cfg: Config, s: State, upTo: nat)
    requires Inv(cfg, s) && Enabled(cfg, s, CommitPart(upTo))
    ensures Inv(cfg, Apply(cfg, s, CommitPart(upTo)))
  {
    var r := s.phase.run;
    var v := Apply(cfg, s, CommitPart(upTo));
    var fills, done := FillsIn(r.consume.batch), r.consume.done;
    InsertAllExtends(s.table, fills[done..upTo]);
    InsertAllUnique(s.table, fills[done..upTo]);
    PersistentGrows(cfg, s, v.table);
    RunGrows(cfg, s, v.table);
    assert InFlight(v.phase.run) == InFlight(r);
    assert fills[..upTo] == fills[..done] + fills[done..upTo];
    KeysAppend(fills[..done], fills[done..upTo]);
    InsertAllKeys(s.table, fills[done..upTo]);
    KeysGrow(s.table, v.table);
  }

  lemma RetryKeeps(cfg: Config, s: State)
    requires Inv(cfg, s) && Enabled(cfg, s, RetryInsert)
    ensures Inv(cfg, Apply(cfg, s, RetryInsert))
  {
    var v := Apply(cfg, s, RetryInsert);
    assert InFlight(v.phase.run) == InFlight(s.phase.run);
    assert FillsIn(s.phase.run.consume.batch)[..0] == [];
  }

  /** The checkpoint that follows a batch resumes at the batch's cursor, below which everything is known. */
  lemma AdvanceLosesNothing(cfg: Config, s: State, r: Run)
    requires RunOk(cfg, s, r) && r.consume.Inserting?
    ensures NothingLost(s.start, s.table, s.handled + [r.consume.batch],
                        Advance(r.checkpoint, r.consume.batch, r.total + r.consume.counted))
  {
    var b := r.consume.batch;
    var flight := InFlight(r);
    assert flight[0] == b && flight[..1] == [b];
    assert CursorCovered(s.start, s.table, s.handled, flight, 0);
    var h :| PageFrom(b, h);
    AdvanceKeeps(r.checkpoint, b, r.total + r.consume.counted, h);
    NothingLostGrows(s.start, s.table, s.table, s.handled, [b], r.checkpoint);
  }

  lemma FlightMovesOn(s: State, r: Run, rest: seq<Batch>)
    requires FlightOk(s, r) && r.consume.Inserting? && InFlight(r) == [r.consume.batch] + rest
    ensures forall i: nat :: i < |rest| ==> CursorCovered(s.start, s.table, s.handled + [r.consume.batch], rest, i)
  {
    var b, flight := r.consume.batch, InFlight(r);
    forall i: nat | i < |rest| ensures CursorCovered(s.start, s.table, s.handled + [b], rest, i) {
      assert CursorCovered(s.start, s.table, s.handled, flight, i + 1);
      assert flight[..i + 2] == [b] + rest[..i + 1];
      assert s.handled + ([b] + rest[..i + 1]) == s.handled + [b] + rest[..i + 1];
    }
  }

  lemma FinishRunKeeps(cfg: Config, s: State, save: bool)
    requires Inv(cfg, s) && Enabled(cfg, s, Finish(save))
    ensures var v := Apply(cfg, s, Finish(save)); RunOk(cfg, v, v.phase.run)
  {
    var r := s.phase.run;
    var v := Apply(cfg, s, Finish(save));
    var b, rest := r.consume.batch, InFlight(v.phase.run);
    assert InFlight(r) == [b] + rest;
    assert s.handled + ([b] + rest) == v.handled + rest;
    AdvanceLosesNothing(cfg, s, r);
    FlightMovesOn(s, r, rest);
  }

  lemma FinishKeeps(cfg: Config, s: State, save: bool)
    requires Inv(cfg, s) && Enabled(cfg, s, Finish(save))
    ensures Inv(cfg, Apply(cfg, s, Finish(save)))
  {
    var r := s.phase.run;
    var b := r.consume.batch;
    FinishRunKeeps(cfg, s, save);
    AdvanceLosesNothing(cfg, s, r);
    assert FillsIn(b)[..|FillsIn(b)|] == FillsIn(b);
    if s.saved.Some? {
      NothingLostGrows(s.start, s.table, s.table, s.handled, [b], s.saved.value);
    }
  }

  lemma CloseKeeps(cfg: Config, s: State)
    requires Inv(cfg, s) && Enabled(cfg, s, Close)
    ensures Inv(cfg, Apply(cfg, s, Close))
  {
    assert InFlight(Apply(cfg, s, Close).phase.run) == InFlight(s.phase.run);
  }

  lemma ReturnKeeps(cfg: Config, s: State)
    requires Inv(cfg, s) && Enabled(cfg, s, Return)
    ensures Inv(cfg, Apply(cfg, s, Return))
  {
    var r := s.phase.run;
    assert s.handled + InFlight(r) == s.handled;
    if r.fetch.why == ReachedEnd {
      HourMonotone(r.end, r.fetch.pos.start);
    }
  }

  // -------------------------------------------------------- continuous ingestion

  lemma BeginPollKeeps(cfg: Config, s: State, configStart: Option<int>, now: int)
    requires Inv(cfg, s) && Enabled(cfg, s, BeginPoll(configStart, now))
    ensures Inv(cfg, Apply(cfg, s, BeginPoll(configStart, now)))
  {
    var c := Loaded(s);
    ContinuousRefreshKeeps(c, now, s.table);
    if c.lastTs.Some? && ContinuousRefresh(c, now, s.table).1 {
      RecentPassesOverNothing(c, now, s.table);
      ResetLosesNothing(s.start, s.table, s.handled, c, now);
    }
  }

  /** A reset of a recent row may go forward, but then only past full hours. */
  lemma ResetLosesNothing(start: int, t: seq<Fill>, bs: seq<Batch>, c: Checkpoint, now: int)
    requires c.lastTs.Some? && NothingLost(start, t, bs, c) && PassesOverNothing(c, now, t)
    requires ContinuousRefresh(c, now, t).1
    ensures NothingLost(start, t, bs, ContinuousRefresh(c, now, t).0)
  {
    var d := ContinuousRefresh(c, now, t).0;
    ContinuousRefreshKeeps(c, now, t);
    forall h | HourOf(start) <= h < ResumeHour(d) ensures Known(t, bs, h) {
      if ResumeHour(c) <= h {
        assert Full(t, h);
      }
    }
  }

  lemma PollCommitKeeps(cfg: Config, s: State, upTo: nat)
    requires Inv(cfg, s) && s.phase.Ingesting? && PollEnabled(s.phase.poll, PollCommit(upTo))
    ensures Inv(cfg, AfterPollCommit(s, s.phase.poll, upTo))
  {
    var p := s.phase.poll;
    var v := AfterPollCommit(s, p, upTo);
    var fills, done := FillsIn(p.polling.batch), p.polling.done;
    InsertAllExtends(s.table, fills[done..upTo]);
    InsertAllUnique(s.table, fills[done..upTo]);
    PersistentGrows(cfg, s, v.table);
    PollGrows(s, v.table);
    assert fills[..upTo] == fills[..done] + fills[done..upTo];
    KeysAppend(fills[..done], fills[done..upTo]);
    InsertAllKeys(s.table, fills[done..upTo]);
    KeysGrow(s.table, v.table);
  }

  /** A stored page leaves no hour out below the new top, whether it has fills, is empty or drops the cursor. */
  lemma StoredPageKnown(s: State, p: Poll)
    requires PollOk(s, p) && p.polling.Storing?
    ensures var b := p.polling.batch;
            KnownBetween(s.table, s.handled + [b], HourOf(s.start), Max(p.top, PageHour(p.pos) + |b.requests|))
  {
    var b, from := p.polling.batch, PageHour(p.pos);
    var all := s.handled + [b];
    KnownGrows(s.table, s.table, s.handled, [b], HourOf(s.start), p.top);
    forall h | HourOf(s.start) <= h < Max(p.top, from + |b.requests|) ensures Known(s.table, all, h) {
      if p.top <= h {
        PageHasHours(b, from, h);
        RequestedLast(s.handled, b, h);
      }
    }
  }

  lemma PollSaveKeeps(cfg: Config, s: State, ok: bool)
    requires Inv(cfg, s) && s.phase.Ingesting? && PollEnabled(s.phase.poll, PollSave(ok))
    ensures Inv(cfg, AfterPollSave(s, s.phase.poll, ok))
  {
    var p := s.phase.poll;
    var b := p.polling.batch;
    StoredPageKnown(s, p);
    PollProgress(p.pos, b);
    assert FillsIn(b)[..|FillsIn(b)|] == FillsIn(b);
    if s.saved.Some? {
      NothingLostGrows(s.start, s.table, s.table, s.handled, [b], s.saved.value);
    }
  }

  lemma PollStepKeeps(cfg: Config, s: State, step: Step)
    requires Inv(cfg, s) && Enabled(cfg, s, step) && OfPoll(step)
    ensures Inv(cfg, Apply(cfg, s, step))
  {
    match step {
      case BeginPoll(configStart, now) => BeginPollKeeps(cfg, s, configStart, now);
      case PollPage(b) => assert FillsIn(b)[..0] == [];
      case PollCommit(upTo) => PollCommitKeeps(cfg, s, upTo);
      case PollRetry =>
      case PollSave(ok) => PollSaveKeeps(cfg, s, ok);
    }
  }

  // ------------------------------------------------------------------ history

  /** A step that can set the saved row, with the span of batches that stands behind it afterwards. */
  predicate SetsRow(s: State, step: Step, v: State) {
    match step
    case Begin(_, _, _) => v.savedBy == None
    case BeginPoll(_, _) => v.savedBy == None
    case Finish(_) => s.phase.Running? && v.savedBy == Some(Span(s.phase.run.before, |v.handled|))
    case Close => s.phase.Running? && v.savedBy == Some(Span(s.phase.run.before, s.phase.run.upTo))
    case PollSave(_) => s.phase.Ingesting? && v.savedBy == Some(Span(s.phase.poll.before, |v.handled|))
    case _ => false
  }

  /** The saved row and what is recorded about it change together, and only where a row is set. */
  lemma RowChanges(cfg: Config, s: State, step: Step)
    requires Enabled(cfg, s, step)
    ensures var v := Apply(cfg, s, step);
            (v.saved == s.saved && v.savedBy == s.savedBy) || SetsRow(s, step, v)
  {
  }

  lemma HistoryStays(s: State, v: State)
    requires HistoryOk(s) && v.saved == s.saved && v.savedBy == s.savedBy && v.handled == s.handled
    requires (v.phase.Running? && v.phase.run.dirty ==>
                s.phase.Running? && s.phase.run.dirty && v.phase.run.checkpoint == s.phase.run.checkpoint
                && v.phase.run.before == s.phase.run.before && v.phase.run.upTo == s.phase.run.upTo)
    requires v.phase.Ingesting? ==> v.phase.poll.before <= |v.handled|
    ensures HistoryOk(v)
  {
  }

  lemma SpanStays(c: Checkpoint, handled: seq<Batch>, b: Batch, span: Span)
    requires FollowsSpan(c, handled, span)
    ensures FollowsSpan(c, handled + [b], span)
  {
  }

  lemma NewSpan(c: Checkpoint, handled: seq<Batch>, b: Batch, from: nat)
    requires from <= |handled| && Follows(c, b)
    ensures FollowsSpan(c, handled + [b], Span(from, |handled| + 1))
  {
  }

  lemma AdvanceFollows(c: Checkpoint, b: Batch, total: int)
    requires ShouldAdvance(c, FillsIn(b))
    ensures Follows(Advance(c, b, total), b)
  {
  }

  lemma FinishHistory(cfg: Config, s: State, save: bool)
    requires HistoryOk(s) && Enabled(cfg, s, Finish(save)) && s.phase.run.before <= |s.handled|
    ensures HistoryOk(Apply(cfg, s, Finish(save)))
  {
    var r := s.phase.run;
    var b := r.consume.batch;
    if s.savedBy.Some? {
      SpanStays(s.saved.value, s.handled, b, s.savedBy.value);
    }
    if ShouldAdvance(r.checkpoint, FillsIn(b)) {
      var c := Advance(r.checkpoint, b, r.total + r.consume.counted);
      AdvanceFollows(r.checkpoint, b, r.total + r.consume.counted);
      NewSpan(c, s.handled, b, r.before);
    } else if r.dirty {
      SpanStays(r.checkpoint, s.handled, b, Span(r.before, r.upTo));
    }
  }

  lemma PollSaveHistory(cfg: Config, s: State, ok: bool)
    requires HistoryOk(s) && Enabled(cfg, s, PollSave(ok))
    ensures HistoryOk(Apply(cfg, s, PollSave(ok)))
  {
    var p := s.phase.poll;
    var b := p.polling.batch;
    if ok {
      NewSpan(PollCheckpoint(p.pos, b, p.total + p.polling.counted), s.handled, b, p.before);
    } else if s.savedBy.Some? {
      SpanStays(s.saved.value, s.handled, b, s.savedBy.value);
    }
  }

  lemma CloseHistory(cfg: Config, s: State)
    requires HistoryOk(s) && Enabled(cfg, s, Close)
    ensures HistoryOk(Apply(cfg, s, Close))
  {
  }

  lemma BeginHistory(cfg: Config, s: State, step: Step)
    requires HistoryOk(s) && (step.Begin? || step.BeginPoll?) && Enabled(cfg, s, step)
    ensures HistoryOk(Apply(cfg, s, step))
  {
  }

  /** Whichever step comes, the row follows the last of the batches recorded for it. */
  lemma HistoryKeeps(cfg: Config, s: State, step: Step)
    requires HistoryOk(s) && Enabled(cfg, s, step)
    requires s.phase.Running? ==> s.phase.run.before <= |s.handled|
    ensures HistoryOk(Apply(cfg, s, step))
  {
    match step {
      case Finish(save) => FinishHistory(cfg, s, save);
      case PollSave(ok) => PollSaveHistory(cfg, s, ok);
      case Close => CloseHistory(cfg, s);
      case Begin(_, _, _) => BeginHistory(cfg, s, step);
      case BeginPoll(_, _) => BeginHistory(cfg, s, step);
      case _ => HistoryStays(s, Apply(cfg, s, step));
    }
  }

  lemma SameRunSameLatest(s: State, v: State)
    requires LatestOk(s) && s.phase.Running? && v.phase.Running? && v.handled == s.handled
    requires var r, w := s.phase.run, v.phase.run;
             && w.loaded == r.loaded && w.checkpoint == r.checkpoint && w.dirty == r.dirty && w.before == r.before
             && (w.consume.Closing? && w.dirty ==> v.saved == Some(w.checkpoint))
    ensures LatestOk(v)
  {
  }

  lemma FinishLatest(cfg: Config, s: State, save: bool)
    requires LatestOk(s) && Enabled(cfg, s, Finish(save))
    ensures LatestOk(Apply(cfg, s, Finish(save)))
  {
    var r := s.phase.run;
    var b, total := r.consume.batch, r.total + r.consume.counted;
    var bs := s.handled[r.before..];
    assert (s.handled + [b])[r.before..] == bs + [b];
    AdvanceAtLatest(r.loaded, bs, r.checkpoint, b, total);
    if !ShouldAdvance(r.checkpoint, FillsIn(b)) {
      SameLatest(r.loaded, bs, r.checkpoint, b);
    }
  }

  lemma BeginLatest(cfg: Config, s: State, step: Step)
    requires step.Begin? && Enabled(cfg, s, step)
    ensures LatestOk(Apply(cfg, s, step))
  {
    var v := Apply(cfg, s, step);
    if v.phase.Running? {
      AtLatestOfNone(v.phase.run.loaded);
      assert v.handled[v.phase.run.before..] == [];
    }
  }

  /** Whichever step comes, a run's checkpoint stands at the latest of the batches that the run has handled. */
  lemma LatestKeeps(cfg: Config, s: State, step: Step)
    requires LatestOk(s) && Enabled(cfg, s, step)
    ensures LatestOk(Apply(cfg, s, step))
  {
    var v := Apply(cfg, s, step);
    match step {
      case Finish(save) => FinishLatest(cfg, s, save);
      case Begin(_, _, _) => BeginLatest(cfg, s, step);
      case _ =>
        if v.phase.Running? {
          SameRunSameLatest(s, v);
        }
    }
  }

  // ------------------------------------------------------------- all behaviours

  predicate OfFetcher(step: Step) {
    step.Prefetch? || step.Skip? || step.Fetch? || step.FetchError? || step.ReachEnd? || step.Send?
  }

  predicate OfConsumer(step: Step) {
    step.Receive? || step.CommitPart? || step.RetryInsert? || step.Finish? || step.Close? || step.Return?
  }

  predicate OfPoll(step: Step) {
    step.BeginPoll? || step.PollPage? || step.PollCommit? || step.PollRetry? || step.PollSave?
  }

  lemma FetcherStepKeeps(cfg: Config, s: State, step: Step)
    requires Inv(cfg, s) && Enabled(cfg, s, step) && OfFetcher(step)
    ensures Inv(cfg, Apply(cfg, s, step))
  {
    match step {
      case Prefetch(ok) => PrefetchKeeps(cfg, s, ok);
      case Skip(ok) => SkipKeeps(cfg, s, ok);
      case Fetch(ok, b) => FetchKeeps(cfg, s, ok, b);
      case FetchError(_) => StopKeeps(cfg, s, step);
      case ReachEnd => StopKeeps(cfg, s, step);
      case Send => SendKeeps(cfg, s);
    }
  }

  lemma ConsumerStepKeeps(cfg: Config, s: State, step: Step)
    requires Inv(cfg, s) && Enabled(cfg, s, step) && OfConsumer(step)
    ensures Inv(cfg, Apply(cfg, s, step))
  {
    match step {
      case Receive => ReceiveKeeps(cfg, s);
      case CommitPart(upTo) => CommitKeeps(cfg, s, upTo);
      case RetryInsert => RetryKeeps(cfg, s);
      case Finish(save) => FinishKeeps(cfg, s, save);
      case Close => CloseKeeps(cfg, s);
      case Return => ReturnKeeps(cfg, s);
    }
  }

  lemma OtherStepKeeps(cfg: Config, s: State, step: Step)
    requires Inv(cfg, s) && Enabled(cfg, s, step) && !OfFetcher(step) && !OfConsumer(step) && !OfPoll(step)
    ensures Inv(cfg, Apply(cfg, s, step))
  {
    match step {
      case OthersInsert(fills) => OthersKeep(cfg, s, fills);
      case Begin(start, end, between) => BeginKeeps(cfg, s, start, end, between);
      case Fail =>
      case Crash =>
    }
  }

  /** The safety core: no step, whatever the interleaving, breaks the invariant. */
  lemma StepKeeps(cfg: Config, s: State, step: Step)
    requires Inv(cfg, s) && Enabled(cfg, s, step)
    ensures Inv(cfg, Apply(cfg, s, step))
  {
    if OfFetcher(step) {
      FetcherStepKeeps(cfg, s, step);
    } else if OfConsumer(step) {
      ConsumerStepKeeps(cfg, s, step);
    } else if OfPoll(step) {
      PollStepKeeps(cfg, s, step);
    } else {
      OtherStepKeeps(cfg, s, step);
    }
  }
}
