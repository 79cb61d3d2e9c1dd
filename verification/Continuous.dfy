/** `run_continuous`: its checkpoint reset, and the poll loop that must not leave an hour out. */
module Continuous {
  import opened Wrappers
  import opened Hours
  import opened Fills
  import opened Gaps
  import opened Pages
  import opened Stores
  import opened Fetcher
  import opened Planner
  import opened Backfill

  /** Seven days before `now`. */
  function Lookback(now: int): int {
    now - 604_800_000
  }

  function GapDetectionStart(ts: int, now: int): int {
    if ts >= Lookback(now) then ts else Lookback(now)
  }

  /** The auto-refresh of continuous mode: more than six missing hours since the checkpoint, or in the last week. */
  function ContinuousRefresh(c: Checkpoint, now: int, t: seq<Fill>): (Checkpoint, bool) {
    if c.lastTs.None? then (c, false) else
    var missing := MissingHours(t, GapDetectionStart(c.lastTs.value, now), now);
    if |missing| > 6 then (ResetTo(c, missing[0]), true) else (c, false)
  }

  /** The reset passes over no hour that is not full. */
  ghost predicate PassesOverNothing(c: Checkpoint, now: int, t: seq<Fill>)
    requires c.lastTs.Some?
  {
    var (d, wasReset) := ContinuousRefresh(c, now, t);
    wasReset ==> d.lastTs.Some? && forall h :: ResumeHour(c) <= h < ResumeHour(d) ==> Full(t, h)
  }

  lemma ContinuousRefreshKeeps(c: Checkpoint, now: int, t: seq<Fill>)
    requires CursorAhead(c)
    ensures CursorAhead(ContinuousRefresh(c, now, t).0)
    ensures ContinuousRefresh(c, now, t).0.records == c.records
    ensures c.lastTs.Some? ==> ContinuousRefresh(c, now, t).0.lastTs.Some?
  {
  }

  /** The reset of continuous mode: when it happens, and that it goes to the first missing hour and changes no more. */
  lemma ContinuousRefreshEffect(c: Checkpoint, now: int, t: seq<Fill>)
    requires c.lastTs.Some?
    ensures var missing := MissingHours(t, Max(c.lastTs.value, now - 604_800_000), now);
            var (d, wasReset) := ContinuousRefresh(c, now, t);
            && (wasReset <==> |missing| > 6)
            && (!wasReset ==> d == c)
            && (wasReset ==>
                  d.lastTs.Some? && d.cursor.Some? && ResumeHour(d) in missing
                  && d.lastTs.value == HourStart(ResumeHour(d)) - 1
                  && d.lastBlock == c.lastBlock && d.records == c.records
                  && forall h :: HourOf(Max(c.lastTs.value, now - 604_800_000)) <= h < ResumeHour(d) ==> Full(t, h))
  {
    var from := Max(c.lastTs.value, now - 604_800_000);
    assert GapDetectionStart(c.lastTs.value, now) == from;
    if ContinuousRefresh(c, now, t).1 {
      NothingBeforeFirst(t, from, now);
    }
  }

  lemma {:induction false} AllMissingWhenEmpty(start: int, end: int, from: int)
    requires from <= HourOf(end)
    ensures |MissingFrom([], start, end, from)| == HourOf(end) - from
    ensures from < HourOf(end) ==> MissingFrom([], start, end, from)[0] == from
    decreases HourOf(end) - from
  {
    if from < HourOf(end) {
      AllMissingWhenEmpty(start, end, from + 1);
    }
  }

  /**
   The reset of continuous mode may also move the checkpoint forward. It passes over no unfilled hour, whatever is
   stored, exactly when the checkpoint's resume hour is not more than seven days old.
   */
  lemma ResetContiguousIffRecent(c: Checkpoint, now: int)
    requires c.lastTs.Some? && CursorAhead(c)
    ensures (forall t: seq<Fill> :: PassesOverNothing(c, now, t)) <==> HourOf(Lookback(now)) <= ResumeHour(c)
  {
    var ts := c.lastTs.value;
    var from := GapDetectionStart(ts, now);
    if HourOf(Lookback(now)) <= ResumeHour(c) {
      forall t: seq<Fill> ensures PassesOverNothing(c, now, t) {
        RecentPassesOverNothing(c, now, t);
      }
    } else {
      if Lookback(now) <= ts {
        HourMonotone(Lookback(now), ts);
      }
      AllMissingWhenEmpty(from, now, HourOf(from));
      HourOfStart(HourOf(from));
      assert !Full([], ResumeHour(c));
      assert !PassesOverNothing(c, now, []);
    }
  }

  lemma RecentPassesOverNothing(c: Checkpoint, now: int, t: seq<Fill>)
    requires c.lastTs.Some? && CursorAhead(c) && HourOf(Lookback(now)) <= ResumeHour(c)
    ensures PassesOverNothing(c, now, t)
  {
    var from := GapDetectionStart(c.lastTs.value, now);
    if ContinuousRefresh(c, now, t).1 {
      NothingBeforeFirst(t, from, now);
    }
  }

  /** Where the loop begins: at the checkpoint, else at the configured start, else seven days ago. */
  function PollStart(c: Checkpoint, configStart: Option<int>, now: int): Pos {
    Pos(if c.lastTs.Some? then c.lastTs.value
        else if configStart.Some? then configStart.value
        else Lookback(now),
        c.cursor)
  }

  /** With a row a session begins at its time and cursor; without one at the configured start, or seven days ago. */
  lemma PollStartIs(c: Checkpoint, configStart: Option<int>, now: int)
    ensures c.lastTs.Some? ==> PollStart(c, configStart, now) == Pos(c.lastTs.value, c.cursor)
    ensures c.lastTs.None? && configStart.Some? ==> PollStart(c, configStart, now).start == configStart.value
    ensures c.lastTs.None? && configStart.None? ==> PollStart(c, configStart, now).start == now - 7 * 86_400_000
  {
  }

  /** The positions after a page: an empty page leaves `current_start` where it is. */
  function AfterPoll(p: Pos, b: Batch): Pos {
    var fills := FillsIn(b);
    Pos(if fills != [] then fills[|fills| - 1].timestamp else p.start, b.cursor)
  }

  /** The checkpoint saved after a page. */
  function PollCheckpoint(p: Pos, b: Batch, total: int): Checkpoint {
    var fills := FillsIn(b);
    var q := AfterPoll(p, b);
    Checkpoint(q.cursor, Some(q.start), if fills != [] then fills[|fills| - 1].block else None, total)
  }

  lemma PollProgress(p: Pos, b: Batch)
    requires Ordered(p) && PageFrom(b, PageHour(p))
    ensures Ordered(AfterPoll(p, b))
    ensures AfterPoll(p, b).cursor == b.cursor
    ensures FillsIn(b) == [] ==> AfterPoll(p, b).start == p.start
    ensures forall total :: Follows(PollCheckpoint(p, b, total), b)
                            && PollCheckpoint(p, b, total).lastTs == Some(AfterPoll(p, b).start)
                            && PollCheckpoint(p, b, total).records == total
                            && (FillsIn(b) == [] ==> PollCheckpoint(p, b, total).lastBlock == None)
    ensures PageHour(AfterPoll(p, b)) <= PageHour(p) + |b.requests|
    ensures forall total :: CursorAhead(PollCheckpoint(p, b, total))
  {
    if FillsIn(b) != [] {
      LastFillHour(b.requests, PageHour(p));
    }
  }

  /** The hours requested and stored so far: all of them from the first page hour to the highest one reached. */
  ghost predicate Contiguous(first: int, handled: seq<Batch>, top: int) {
    forall h :: first <= h < top ==> RequestedIn(handled, h)
  }

  lemma PollKeepsContiguous(first: int, handled: seq<Batch>, top: int, p: Pos, b: Batch)
    requires Contiguous(first, handled, top) && PageHour(p) <= top && PageFrom(b, PageHour(p))
    ensures Contiguous(first, handled + [b], Max(top, PageHour(p) + |b.requests|))
  {
    var more, from := handled + [b], PageHour(p);
    forall h | first <= h < Max(top, from + |b.requests|) ensures RequestedIn(more, h) {
      if h < top {
        RequestedBefore(handled, [b], h);
      } else {
        PageHasHours(b, from, h);
        RequestedLast(handled, b, h);
      }
    }
  }

  ghost predicate AllCommitted(t: seq<Fill>, bs: seq<Batch>) {
    forall i :: 0 <= i < |bs| ==> Keys(FillsIn(bs[i])) <= Keys(t)
  }

  lemma AllCommittedGrows(t: seq<Fill>, u: seq<Fill>, bs: seq<Batch>)
    requires AllCommitted(t, bs) && t <= u
    ensures AllCommitted(u, bs)
  {
  }

  /** What every row and every position of a session satisfy, over the table `t`. */
  ghost predicate Steady(first: int, t: seq<Fill>, saved: Option<Checkpoint>, p: Pos, total: int,
                         handled: seq<Batch>, top: int)
  {
    && Ordered(p) && first <= top && PageHour(p) <= top
    && Contiguous(first, handled, top) && AllCommitted(t, handled)
    && total <= |t|
    && (saved.Some? ==> CursorAhead(saved.value) && saved.value.records <= |t|)
  }

  /** The saved row is the last page's. */
  predicate IsLast(saved: Option<Checkpoint>, p: Pos, total: int) {
    saved.Some? && saved.value.cursor == p.cursor && saved.value.lastTs == Some(p.start) && saved.value.records == total
  }

  lemma SteadyGrows(first: int, t: seq<Fill>, u: seq<Fill>, saved: Option<Checkpoint>, p: Pos, total: int,
                    handled: seq<Batch>, top: int)
    requires Steady(first, t, saved, p, total, handled, top) && t <= u
    ensures Steady(first, u, saved, p, total, handled, top)
  {
    AllCommittedGrows(t, u, handled);
  }

  /** A stored page keeps the session steady, with its own row saved or, if that fails, with the old one. */
  lemma SteadyNext(first: int, t: seq<Fill>, saved: Option<Checkpoint>, p: Pos, total: int,
                   handled: seq<Batch>, top: int, b: Batch, inserted: nat)
    requires Steady(first, t, saved, p, total, handled, top)
    requires PageFrom(b, PageHour(p)) && Keys(FillsIn(b)) <= Keys(t) && total + inserted <= |t|
    ensures var c := PollCheckpoint(p, b, total + inserted);
            var q, further := AfterPoll(p, b), Max(top, PageHour(p) + |b.requests|);
            && IsLast(Some(c), q, total + inserted)
            && Steady(first, t, Some(c), q, total + inserted, handled + [b], further)
            && Steady(first, t, saved, q, total + inserted, handled + [b], further)
  {
    PollProgress(p, b);
    PollKeepsContiguous(first, handled, top, p, b);
  }

  /** Every request of the round is answered with a page. */
  ghost predicate AlwaysAnswers(round: Round) {
    forall k: nat, p :: round.attempts(k)(p).Ok?
  }

  datatype Ending = Shutdown | FatalError | SaveFailed

  /** The head of continuous mode: reset if there are gaps, then the position to resume at. */
  method Resume(store: Store, configStart: Option<int>, now: int)
    returns (ok: bool, p: Pos, total: int)
    requires store.saved.Some? ==> CursorAhead(store.saved.value) && store.saved.value.records <= |store.fills|
    requires store.Valid()
    modifies store`saved, store`clock
    ensures store.Valid() && old(store.clock) <= store.clock && (!ok ==> store.Faulted(old(store.clock)))
    ensures store.saved.Some? ==> CursorAhead(store.saved.value) && store.saved.value.records <= |store.fills|
    ensures ok ==> Ordered(p) && total <= |store.fills|
    ensures ok ==>
              var loaded := if old(store.saved).Some? then old(store.saved).value else FreshCheckpoint();
              var (c, wasReset) := ContinuousRefresh(loaded, now, store.fills);
              && total == c.records && p == PollStart(c, configStart, now)
              && store.saved == if wasReset then Some(c) else old(store.saved)
  {
    var checkpoint := if store.saved.Some? then store.saved.value else FreshCheckpoint();
    ContinuousRefreshKeeps(checkpoint, now, store.fills);
    ok := true;
    if checkpoint.lastTs.Some? {
      var checkpointTs := checkpoint.lastTs.value;
      var missing := store.GetMissingHours(GapDetectionStart(checkpointTs, now), now);
      if |missing| > 6 {
        checkpoint := checkpoint.(cursor := Some(missing[0]), lastTs := Some(HourStart(missing[0]) - 1));
        ok := store.SaveCheckpoint(checkpoint);
      }
    }
    var start := if checkpoint.lastTs.Some? then checkpoint.lastTs.value
                 else if configStart.Some? then configStart.value else Lookback(now);
    p, total := Pos(start, checkpoint.cursor), checkpoint.records;
  }

  /**
   The poll loop for `rounds` rounds, or until an error that is not retryable. A retryable error changes nothing, an
   empty page keeps the start, and the end of the data drops the cursor; all the same, the hours whose pages were
   stored are every hour from the first page hour up to the highest page hour reached.
   */
  method Poll(store: Store, p0: Pos, total0: int, env: nat -> Round, rounds: nat, maxRetries: nat)
    returns (ending: Ending, p: Pos, total: int, ghost handled: seq<Batch>, ghost top: int)
    requires store.Valid() && Ordered(p0) && total0 <= |store.fills|
    requires store.saved.Some? ==> CursorAhead(store.saved.value) && store.saved.value.records <= |store.fills|
    requires forall i: nat :: HonestRound(env(i))
    modifies store
    ensures store.Valid() && old(store.fills) <= store.fills && old(store.clock) <= store.clock
    ensures (forall i: nat :: AlwaysAnswers(env(i))) && !store.Faulted(old(store.clock)) ==>
              ending == Shutdown && |handled| == rounds
    ensures Ordered(p) && PageHour(p0) <= top && PageHour(p) <= top
    ensures Contiguous(PageHour(p0), handled, top) && AllCommitted(store.fills, handled)
    ensures total <= |store.fills|
    ensures store.saved.Some? ==> CursorAhead(store.saved.value) && store.saved.value.records <= |store.fills|
    ensures ending == Shutdown && handled != [] ==>
              store.saved.Some? && store.saved.value.cursor == p.cursor && store.saved.value.lastTs == Some(p.start)
              && store.saved.value.records == total
    ensures handled == [] ==> p == p0 && total == total0 && store.saved == old(store.saved)
  {
    p, total, handled, top := p0, total0, [], PageHour(p0);
    for i := 0 to rounds
      invariant store.Valid() && old(store.fills) <= store.fills && old(store.clock) <= store.clock
      invariant (forall j: nat :: AlwaysAnswers(env(j))) && !store.Faulted(old(store.clock)) ==> |handled| == i
      invariant Steady(PageHour(p0), store.fills, store.saved, p, total, handled, top)
      invariant handled != [] ==> IsLast(store.saved, p, total)
      invariant handled == [] ==> p == p0 && total == total0 && store.saved == old(store.saved)
    {
      ghost var table := store.fills;
      var page, inserted := FetchAndProcess(store, p, env(i), maxRetries);
      SteadyGrows(PageHour(p0), table, store.fills, store.saved, p, total, handled, top);
      if page.Ok? {
        var batch := page.value;
        SteadyNext(PageHour(p0), store.fills, store.saved, p, total, handled, top, batch, inserted);
        top := Max(top, PageHour(p) + |batch.requests|);
        handled := handled + [batch];
        total := total + inserted;
        var checkpoint := PollCheckpoint(p, batch, total);
        p := AfterPoll(p, batch);
        var saved := store.SaveCheckpoint(checkpoint);
        if !saved {
          return SaveFailed, p, total, handled, top;
        }
      } else if page.error == Fatal {
        return FatalError, p, total, handled, top;
      }
    }
    ending := Shutdown;
  }

  /** `fetch_and_process_batch`: fetch with retries, then one insert. */
  method FetchAndProcess(store: Store, p: Pos, round: Round, maxRetries: nat)
    returns (r: Result<Batch>, inserted: nat)
    requires store.Valid() && HonestRound(round)
    modifies store`fills, store`clock
    ensures store.Valid() && old(store.fills) <= store.fills && old(store.clock) <= store.clock
    ensures r.Err? ==> store.Faulted(old(store.clock)) || exists k: nat :: round.attempts(k)(p) == r
    ensures r.Ok? ==> PageFrom(r.value, PageHour(p)) && store.fills == InsertAll(old(store.fills), FillsIn(r.value))
    ensures r.Ok? ==> Keys(FillsIn(r.value)) <= Keys(store.fills)
    ensures r.Ok? ==> |store.fills| == |old(store.fills)| + inserted
  {
    inserted := 0;
    r := FetchWithRetries(p, round, maxRetries);
    if r.Ok? {
      var fills := FillsIn(r.value);
      var result := store.InsertFills(fills);
      if result.Err? {
        return Err(result.error), 0;
      }
      InsertAllKeys(old(store.fills), fills);
      inserted := result.value;
    }
  }
}
