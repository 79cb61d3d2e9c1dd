/** The fetcher task of a backfill: two positions that drift apart, smart skips, and why it ends and misses nothing. */
module Fetcher {
  import opened Wrappers
  import opened Hours
  import opened Fills
  import opened Gaps
  import opened Pages
  import opened Retry

  /** `current_start` and `cursor` of the fetch loop. */
  datatype Pos = Pos(start: int, cursor: Option<int>)

  /** The hour that the next page is fetched at. */
  function PageHour(p: Pos): int {
    if p.cursor.Some? then p.cursor.value else HourOf(p.start)
  }

  /** `current_start` never runs ahead of the page hour. */
  predicate Ordered(p: Pos) {
    HourOf(p.start) <= PageHour(p)
  }

  lemma PageHourIsPosition(p: Pos)
    ensures PageHour(p) == HourOf(Position(p.start, p.cursor))
  {
  }

  /** A skip moves both positions to the hour after `current_start`, which may pull the cursor back. */
  function AfterSkip(p: Pos): Pos {
    var next := HourOf(p.start) + 1;
    Pos(HourStart(next), Some(next))
  }

  /** A page moves `current_start` to its last fill, or to the next hour when it is empty. */
  function AfterPage(p: Pos, b: Batch): Pos {
    var fills := FillsIn(b);
    Pos(if fills != [] then fills[|fills| - 1].timestamp else HourStart(HourOf(p.start) + 1), b.cursor)
  }

  /** The skip decision: by the pre-fetched list if it has entries, otherwise by a count that may be unavailable. */
  predicate ShouldSkip(p: Pos, missing: seq<int>, count: Option<int>) {
    if missing != [] then HourOf(p.start) !in missing
    else count.Some? && count.value > 0 && count.value >= SUFFICIENT
  }

  /**
   When an hour is skipped. With a list from the gap query: if it has at least 1000 rows from the first position on.
   Without one: if the whole hour has them, and the count could be read.
   */
  lemma SkipsFullHours(task: Task, t: seq<Fill>, round: Round, p: Pos)
    requires task.missing == [] || task.missing == MissingHours(t, task.first.start, task.end)
    requires HourOf(task.first.start) <= HourOf(p.start) < HourOf(task.end)
    ensures ShouldSkip(p, task.missing, CountOf(round, p)) <==>
            if task.missing != []
            then |Between(t, Max(task.first.start, HourStart(HourOf(p.start))), HourStart(HourOf(p.start) + 1))| >= 1000
            else round.table.Some? && Full(round.table.value, HourOf(p.start))
  {
    MissingExact(t, task.first.start, task.end);
  }

  /** An upper bound on the rounds that the fetch loop still makes. */
  function Rounds(p: Pos, end: int): int {
    2 * (CeilHour(end) - HourOf(p.start)) + (if PageHour(p) == HourOf(p.start) then 1 else 0)
  }

  lemma RoundsPositive(p: Pos, end: int)
    requires p.start < end
    ensures Rounds(p, end) >= 2
  {
  }

  lemma SkipProgress(p: Pos, end: int)
    requires Ordered(p)
    ensures Ordered(AfterSkip(p))
    ensures HourOf(p.start) < HourOf(AfterSkip(p).start) && PageHour(AfterSkip(p)) == HourOf(p.start) + 1
    ensures forall later :: HourOf(p.start) < HourOf(later) ==> AfterSkip(p).start <= later
    ensures Rounds(AfterSkip(p), end) < Rounds(p, end)
  {
    forall later | HourOf(p.start) < HourOf(later) ensures AfterSkip(p).start <= later {
      HourBounds(later);
    }
  }

  /** Every page lowers the bound, also a non-empty one that stays in the same hour. */
  lemma PageProgress(p: Pos, b: Batch, end: int)
    requires Ordered(p) && PageFrom(b, PageHour(p))
    ensures Ordered(AfterPage(p, b))
    ensures HourOf(p.start) <= HourOf(AfterPage(p, b).start)
    ensures b.cursor.Some? ==> PageHour(AfterPage(p, b)) == PageHour(p) + |b.requests|
    ensures b.cursor.None? ==> PageHour(AfterPage(p, b)) <= PageHour(p) + 1
    ensures AfterPage(p, b).cursor == b.cursor
    ensures AfterPage(p, b).start ==
            if FillsIn(b) != [] then FillsIn(b)[|FillsIn(b)| - 1].timestamp else AfterSkip(p).start
    ensures Rounds(AfterPage(p, b), end) < Rounds(p, end)
  {
    if FillsIn(b) != [] {
      LastFillHour(b.requests, PageHour(p));
    } else {
      HourOfStart(HourOf(p.start) + 1);
    }
  }

  /** A batch with fills names a cursor hour after its last fill. */
  lemma BatchCursorAhead(b: Batch, h: int)
    requires PageFrom(b, h) && FillsIn(b) != []
    ensures b.cursor.Some?
    ensures HourOf(FillsIn(b)[|FillsIn(b)| - 1].timestamp) < b.cursor.value
  {
    LastFillHour(b.requests, h);
  }

  ghost predicate IsPage(b: Batch) {
    exists h :: PageFrom(b, h)
  }

  ghost predicate FromSource(bs: seq<Batch>) {
    forall i :: 0 <= i < |bs| ==> IsPage(bs[i])
  }

  // ----------------------------------------------------------------- coverage

  ghost predicate HasHour(rs: seq<Request>, h: int) {
    exists k :: 0 <= k < |rs| && rs[k].hour == h
  }

  ghost predicate RequestedIn(bs: seq<Batch>, h: int) {
    exists i :: 0 <= i < |bs| && HasHour(bs[i].requests, h)
  }

  lemma RequestedBefore(bs: seq<Batch>, more: seq<Batch>, h: int)
    requires RequestedIn(bs, h)
    ensures RequestedIn(bs + more, h)
  {
    var i :| 0 <= i < |bs| && HasHour(bs[i].requests, h);
    assert (bs + more)[i] == bs[i];
  }

  lemma RequestedLast(bs: seq<Batch>, b: Batch, h: int)
    requires HasHour(b.requests, h)
    ensures RequestedIn(bs + [b], h)
  {
    assert (bs + [b])[|bs|] == b;
  }

  lemma PageHasHours(b: Batch, from: int, h: int)
    requires PageFrom(b, from) && from <= h < from + |b.requests|
    ensures HasHour(b.requests, h)
  {
    assert b.requests[h - from].hour == h;
  }

  /** `dyn IngestSource` at one moment: what it answers to a request for the page at a position. */
  type PageSource = Pos -> Result<Batch>

  /** What the engine relies on: pages of whole consecutive hours from the page hour on. */
  ghost predicate KeepsContract(source: PageSource) {
    forall p :: source(p).Ok? ==> PageFrom(source(p).value, PageHour(p))
  }

  /** The S3 source, with the answers of the archive and two readings of the clock. */
  function S3Page(net: Archive, now1: int, now2: int): PageSource {
    (p: Pos) => FetchPage(net, p.start, p.cursor, now1, now2)
  }

  lemma S3KeepsContract(net: Archive, now1: int, now2: int)
    requires Honest(net)
    ensures KeepsContract(S3Page(net, now1, now2))
  {
    var source := S3Page(net, now1, now2);
    forall p | source(p).Ok? ensures PageFrom(source(p).value, PageHour(p)) {
      PageShape(net, p.start, p.cursor, now1, now2);
      PageHourIsPosition(p);
    }
  }

  /** What the fetcher meets in one round: the table (if the query succeeds), the attempts, and the channel. */
  datatype Round = Round(table: Option<seq<Fill>>, attempts: nat -> PageSource, exhausted: nat -> bool, closed: bool)

  ghost predicate HonestRound(round: Round) {
    forall k: nat :: KeepsContract(round.attempts(k))
  }

  /** One of the allowed attempts fails. */
  ghost predicate FailsOnce(p: Pos, round: Round, maxRetries: nat) {
    exists k: nat :: k < AttemptLimit(maxRetries) && round.attempts(k)(p).Err?
  }

  /** `fetch_page` under `retry_with_backoff`. */
  method FetchWithRetries(p: Pos, round: Round, maxRetries: nat) returns (r: Result<Batch>)
    requires HonestRound(round)
    ensures r.Ok? ==> PageFrom(r.value, PageHour(p)) && IsAttempt(p, round, maxRetries, r.value)
    ensures r.Err? ==> FailsOnce(p, round, maxRetries)
    ensures r.Err? ==> exists k: nat :: k < AttemptLimit(maxRetries) && round.attempts(k)(p) == r
  {
    var attempts;
    r, attempts := RetryWithBackoff((k: nat) => round.attempts(k)(p), round.exhausted, maxRetries);
    assert round.attempts(attempts - 1)(p) == r && KeepsContract(round.attempts(attempts - 1));
  }

  datatype Stop = ReachedEnd | NoMoreData | ChannelClosed | FetchFailed

  ghost predicate SeenFull(round: Round, h: int) {
    round.table.Some? && Full(round.table.value, h)
  }

  ghost predicate SeenFullBefore(env: nat -> Round, n: nat, h: int) {
    exists i: nat :: i < n && SeenFull(env(i), h)
  }

  /** Not one of the batches reports the end of the data. */
  ghost predicate AllHaveMore(bs: seq<Batch>) {
    forall i :: 0 <= i < |bs| ==> bs[i].hasMore
  }

  lemma MoreAgain(bs: seq<Batch>, b: Batch)
    requires AllHaveMore(bs) && b.hasMore
    ensures AllHaveMore(bs + [b])
  {
  }

  /** What is fixed while the loop runs: where it began, where it ends, and the pre-fetched list. */
  datatype Task = Task(first: Pos, end: int, missing: seq<int>)

  /** Hour `h` was passed over in one of the first `n` rounds. */
  ghost predicate PassedOver(task: Task, env: nat -> Round, n: nat, h: int) {
    if task.missing != [] then h !in task.missing && HourOf(task.first.start) <= h < HourOf(task.end)
    else SeenFullBefore(env, n, h)
  }

  /** If the list came from the gap query, an hour that was passed over held at least 1000 rows. */
  lemma PassedOverIsFull(task: Task, t: seq<Fill>, env: nat -> Round, n: nat, h: int)
    requires task.missing == MissingHours(t, task.first.start, task.end)
    requires PassedOver(task, env, n, h)
    ensures Full(t, h) || SeenFullBefore(env, n, h)
  {
    if task.missing != [] {
      ReportedOrFull(t, task.first.start, task.end, h);
    }
  }

  ghost predicate Covered(task: Task, sent: seq<Batch>, env: nat -> Round, n: nat, h: int) {
    RequestedIn(sent, h) || PassedOver(task, env, n, h)
  }

  /** All hours from the first page hour to the present one are covered; while the loop runs, also those after `end`. */
  ghost predicate CoveredUpTo(task: Task, p: Pos, sent: seq<Batch>, env: nat -> Round, n: nat) {
    forall h :: PageHour(task.first) <= h < PageHour(p) && (p.start < task.end || h < HourOf(task.end)) ==>
                  Covered(task, sent, env, n, h)
  }

  /** One finished round: where it stood, and the page it fetched unless it skipped. */
  datatype Visit = Visit(pos: Pos, page: Option<Batch>)

  ghost predicate IsAttempt(p: Pos, round: Round, maxRetries: nat, b: Batch) {
    exists k: nat :: k < AttemptLimit(maxRetries) && round.attempts(k)(p) == Ok(b)
  }

  /** The rounds of `trail` lead from the first position to `p` and send `sent`: a page exactly when not skipping. */
  ghost predicate Trail(task: Task, env: nat -> Round, maxRetries: nat, trail: seq<Visit>, p: Pos, sent: seq<Batch>)
    decreases |trail|
  {
    if trail == [] then p == task.first && sent == []
    else
      var n := |trail| - 1;
      var v := trail[n];
      v.pos.start < task.end &&
      if ShouldSkip(v.pos, task.missing, CountOf(env(n), v.pos)) then
        v.page == None && p == AfterSkip(v.pos) && Trail(task, env, maxRetries, trail[..n], v.pos, sent)
      else
        v.page.Some? && IsAttempt(v.pos, env(n), maxRetries, v.page.value) && p == AfterPage(v.pos, v.page.value) &&
        sent != [] && sent[|sent| - 1] == v.page.value &&
        Trail(task, env, maxRetries, trail[..n], v.pos, sent[..|sent| - 1])
  }

  /** The hour was not to be skipped, and a request for its page failed. */
  ghost predicate GaveUp(task: Task, p: Pos, round: Round, maxRetries: nat) {
    && p.start < task.end
    && !ShouldSkip(p, task.missing, CountOf(round, p))
    && FailsOnce(p, round, maxRetries)
  }

  lemma TrailSkips(task: Task, env: nat -> Round, maxRetries: nat, trail: seq<Visit>, p: Pos, sent: seq<Batch>)
    requires Trail(task, env, maxRetries, trail, p, sent) && p.start < task.end
    requires ShouldSkip(p, task.missing, CountOf(env(|trail|), p))
    ensures Trail(task, env, maxRetries, trail + [Visit(p, None)], AfterSkip(p), sent)
  {
  }

  lemma TrailFetches(task: Task, env: nat -> Round, maxRetries: nat, trail: seq<Visit>,
                     p: Pos, sent: seq<Batch>, b: Batch)
    requires Trail(task, env, maxRetries, trail, p, sent) && p.start < task.end
    requires !ShouldSkip(p, task.missing, CountOf(env(|trail|), p))
    requires IsAttempt(p, env(|trail|), maxRetries, b)
    ensures Trail(task, env, maxRetries, trail + [Visit(p, Some(b))], AfterPage(p, b), sent + [b])
  {
  }

  /**
   The fetch loop. It ends within the bound of Rounds, and every hour between the first page hour and the last
   one was requested or passed over. `missing` is the answer of the gap query, empty if the query failed.
   */
  method RunFetcher(task: Task, env: nat -> Round, maxRetries: nat)
    returns (why: Stop, p: Pos, sent: seq<Batch>, rounds: nat, ghost trail: seq<Visit>)
    requires Ordered(task.first)
    requires forall i: nat :: HonestRound(env(i))
    ensures Ends(task, env, maxRetries, p, sent, rounds, why)
    ensures why != ChannelClosed ==> Trail(task, env, maxRetries, trail, p, sent)
  {
    p, sent, rounds, trail := task.first, [], 0, [];
    while p.start < task.end
      invariant rounds == |trail| && OnTrack(task, env, maxRetries, trail, p, sent)
      invariant AllHaveMore(sent)
      decreases Rounds(p, task.end)
    {
      RoundsPositive(p, task.end);
      var round := env(rounds);
      var count := CountOf(round, p);
      if ShouldSkip(p, task.missing, count) {
        SkipKeepsTrack(task, env, maxRetries, trail, p, sent);
        trail := trail + [Visit(p, None)];
        p := AfterSkip(p);
        rounds := rounds + 1;
        continue;
      }
      var stop;
      stop, p, sent, trail := FetchAndSend(task, env, maxRetries, trail, p, sent, round);
      rounds := rounds + 1;
      if stop.Some? {
        return stop.value, p, sent, rounds, trail;
      }
    }
    TrackEnds(task, env, maxRetries, trail, p, sent);
    why := ReachedEnd;
  }

  lemma TrackEnds(task: Task, env: nat -> Round, maxRetries: nat, trail: seq<Visit>, p: Pos, sent: seq<Batch>)
    requires OnTrack(task, env, maxRetries, trail, p, sent) && AllHaveMore(sent) && task.end <= p.start
    ensures Ends(task, env, maxRetries, p, sent, |trail|, ReachedEnd)
  {
    HourMonotone(task.end, p.start);
  }

  /**
   How the loop ends: within the bound, with positions in order, for a reason that holds, all pages but a last one
   having more, and every hour up to the last page hour covered.
   */
  ghost predicate Ends(task: Task, env: nat -> Round, maxRetries: nat, p: Pos, sent: seq<Batch>, rounds: nat, why: Stop)
  {
    && (rounds == 0 || rounds < Rounds(task.first, task.end))
    && Ordered(p) && HourOf(task.first.start) <= HourOf(p.start) && FromSource(sent)
    && (why == ReachedEnd ==> task.end <= p.start && HourOf(task.end) <= PageHour(p))
    && (why == FetchFailed ==> rounds > 0 && GaveUp(task, p, env(rounds - 1), maxRetries))
    && (why == ChannelClosed ==> rounds > 0 && env(rounds - 1).closed)
    && (why == NoMoreData ==> sent != [] && !sent[|sent| - 1].hasMore)
    && AllHaveMore(if why == NoMoreData && sent != [] then sent[..|sent| - 1] else sent)
    && (why != ChannelClosed ==> CoveredUpTo(task, p, sent, env, rounds))
  }

  /** A round that does not skip: the download, the positions after it, and the send. */
  method FetchAndSend(task: Task, env: nat -> Round, maxRetries: nat, ghost trail: seq<Visit>,
                      p: Pos, sent: seq<Batch>, round: Round)
    returns (stop: Option<Stop>, q: Pos, more: seq<Batch>, ghost further: seq<Visit>)
    requires round == env(|trail|) && AllHaveMore(sent)
    requires OnTrack(task, env, maxRetries, trail, p, sent) && p.start < task.end && HonestRound(round)
    requires !ShouldSkip(p, task.missing, CountOf(round, p))
    ensures stop.None? ==> AllHaveMore(more) && Rounds(q, task.end) < Rounds(p, task.end)
    ensures stop == Some(ChannelClosed) <==> round.closed && stop != Some(FetchFailed)
    ensures stop.None? ==> OnTrack(task, env, maxRetries, further, q, more) && |further| == |trail| + 1
    ensures stop.Some? ==>
              && Ends(task, env, maxRetries, q, more, |trail| + 1, stop.value)
              && (stop.value != ChannelClosed ==> Trail(task, env, maxRetries, further, q, more))
  {
    stop, q, more, further := None, p, sent, trail;
    var page := FetchRound(task, env, maxRetries, trail, p, sent, round);
    if page.Err? {
      return Some(FetchFailed), p, sent, trail;
    }
    var batch := page.value;
    further := trail + [Visit(p, Some(batch))];
    q := AfterPage(p, batch);
    if round.closed {
      stop := Some(ChannelClosed);
      return;
    }
    more := sent + [batch];
    if !batch.hasMore {
      stop := Some(NoMoreData);
      assert more[..|more| - 1] == sent;
      return;
    }
    MoreAgain(sent, batch);
  }

  /** The download of a round that does not skip. */
  method FetchRound(task: Task, env: nat -> Round, maxRetries: nat, ghost trail: seq<Visit>,
                    p: Pos, sent: seq<Batch>, round: Round)
    returns (page: Result<Batch>)
    requires round == env(|trail|)
    requires OnTrack(task, env, maxRetries, trail, p, sent) && p.start < task.end && HonestRound(round)
    requires !ShouldSkip(p, task.missing, CountOf(round, p))
    ensures page.Ok? ==>
              var b := page.value;
              && OnTrack(task, env, maxRetries, trail + [Visit(p, Some(b))], AfterPage(p, b), sent + [b])
              && Rounds(AfterPage(p, b), task.end) < Rounds(p, task.end)
    ensures page.Err? ==>
              GaveUp(task, p, round, maxRetries)
              && CoveredUpTo(task, p, sent, env, |trail| + 1) && |trail| + 1 < Rounds(task.first, task.end)
  {
    page := FetchWithRetries(p, round, maxRetries);
    if page.Ok? {
      PageKeepsTrack(task, env, maxRetries, trail, p, sent, page.value);
    } else {
      FailureKeepsTrack(task, env, maxRetries, trail, p, sent);
    }
  }

  /** The invariant of the fetch loop. */
  ghost predicate OnTrack(task: Task, env: nat -> Round, maxRetries: nat, trail: seq<Visit>, p: Pos, sent: seq<Batch>) {
    var bound := Rounds(task.first, task.end);
    && Ordered(p)
    && HourOf(task.first.start) <= HourOf(p.start)
    && (if trail == [] then p == task.first else |trail| < bound && |trail| + Rounds(p, task.end) <= bound)
    && FromSource(sent)
    && CoveredUpTo(task, p, sent, env, |trail|)
    && Trail(task, env, maxRetries, trail, p, sent)
  }

  lemma SkipKeepsTrack(task: Task, env: nat -> Round, maxRetries: nat, trail: seq<Visit>, p: Pos, sent: seq<Batch>)
    requires OnTrack(task, env, maxRetries, trail, p, sent) && p.start < task.end
    requires ShouldSkip(p, task.missing, CountOf(env(|trail|), p))
    ensures OnTrack(task, env, maxRetries, trail + [Visit(p, None)], AfterSkip(p), sent)
    ensures Rounds(AfterSkip(p), task.end) < Rounds(p, task.end)
  {
    RoundsPositive(p, task.end);
    SkipCovers(task, p, sent, env, |trail|);
    SkipProgress(p, task.end);
    TrailSkips(task, env, maxRetries, trail, p, sent);
  }

  lemma PageKeepsTrack(task: Task, env: nat -> Round, maxRetries: nat, trail: seq<Visit>,
                       p: Pos, sent: seq<Batch>, b: Batch)
    requires OnTrack(task, env, maxRetries, trail, p, sent) && p.start < task.end && PageFrom(b, PageHour(p))
    requires !ShouldSkip(p, task.missing, CountOf(env(|trail|), p)) && IsAttempt(p, env(|trail|), maxRetries, b)
    ensures OnTrack(task, env, maxRetries, trail + [Visit(p, Some(b))], AfterPage(p, b), sent + [b])
    ensures Rounds(AfterPage(p, b), task.end) < Rounds(p, task.end)
  {
    RoundsPositive(p, task.end);
    PageCovers(task, p, b, sent, env, |trail|);
    PageProgress(p, b, task.end);
    TrailFetches(task, env, maxRetries, trail, p, sent, b);
  }

  lemma FailureKeepsTrack(task: Task, env: nat -> Round, maxRetries: nat, trail: seq<Visit>, p: Pos, sent: seq<Batch>)
    requires OnTrack(task, env, maxRetries, trail, p, sent) && p.start < task.end
    ensures CoveredUpTo(task, p, sent, env, |trail| + 1)
    ensures |trail| + 1 < Rounds(task.first, task.end)
  {
    RoundsPositive(p, task.end);
    KeepsCovered(task, p, sent, env, |trail|);
  }

  /** The count of the hour of `current_start`, None if the query failed. */
  function CountOf(round: Round, p: Pos): Option<int> {
    var here := HourOf(p.start);
    if round.table.None? then None
    else Some(CountIn(round.table.value, HourStart(here), HourStart(here + 1)))
  }

  lemma KeepsCovered(task: Task, p: Pos, sent: seq<Batch>, env: nat -> Round, n: nat)
    requires CoveredUpTo(task, p, sent, env, n)
    ensures CoveredUpTo(task, p, sent, env, n + 1)
  {
    var m := n + 1;
    forall h | Covered(task, sent, env, n, h) ensures Covered(task, sent, env, m, h) {
      if SeenFullBefore(env, n, h) {
        var i: nat :| i < n && SeenFull(env(i), h);
        assert SeenFullBefore(env, m, h);
      }
    }
  }

  lemma SkipCovers(task: Task, p: Pos, sent: seq<Batch>, env: nat -> Round, n: nat)
    requires Ordered(p) && p.start < task.end && HourOf(task.first.start) <= HourOf(p.start)
    requires CoveredUpTo(task, p, sent, env, n)
    requires ShouldSkip(p, task.missing, CountOf(env(n), p))
    ensures CoveredUpTo(task, AfterSkip(p), sent, env, n + 1)
  {
    var here, q, m := HourOf(p.start), AfterSkip(p), n + 1;
    KeepsCovered(task, p, sent, env, n);
    HourOfStart(here + 1);
    if q.start < task.end {
      HourMonotone(q.start, task.end);
    }
    if q.start < task.end || here < HourOf(task.end) {
      assert PassedOver(task, env, m, here) by {
        if task.missing == [] {
          assert SeenFull(env(n), here);
        }
      }
    }
    forall h | PageHour(task.first) <= h < PageHour(q) && (q.start < task.end || h < HourOf(task.end))
      ensures Covered(task, sent, env, m, h)
    {
    }
  }

  lemma PageCovers(task: Task, p: Pos, b: Batch, sent: seq<Batch>, env: nat -> Round, n: nat)
    requires Ordered(p) && p.start < task.end && PageFrom(b, PageHour(p))
    requires CoveredUpTo(task, p, sent, env, n)
    ensures CoveredUpTo(task, AfterPage(p, b), sent + [b], env, n + 1)
  {
    var q, m, all := AfterPage(p, b), n + 1, sent + [b];
    KeepsCovered(task, p, sent, env, n);
    PageProgress(p, b, task.end);
    forall h | PageHour(task.first) <= h < PageHour(q)
      ensures Covered(task, all, env, m, h)
    {
      if h < PageHour(p) {
        assert Covered(task, sent, env, m, h);
        if RequestedIn(sent, h) {
          RequestedBefore(sent, [b], h);
        }
      } else {
        PageHasHours(b, PageHour(p), h);
        RequestedLast(sent, b, h);
      }
    }
  }
}
