/** The fetch loop over the S3 source comes to its end, if the files are there and the clock is past them. */
module Reach {
  import opened Wrappers
  import opened Hours
  import opened Fills
  import opened Gaps
  import opened Pages
  import opened Retry
  import opened Fetcher

  /** What one request meets: the archive, and the two readings of the clock. */
  datatype Reading = Reading(net: Archive, now1: int, now2: int)

  /** Attempt `k` of round `i` is answered by the S3 source with reading `readings(i, k)`. */
  ghost predicate FromS3(env: nat -> Round, readings: (nat, nat) -> Reading) {
    forall i: nat, k: nat, p: Pos ::
      env(i).attempts(k)(p) ==
      FetchPage(readings(i, k).net, p.start, p.cursor, readings(i, k).now1, readings(i, k).now2)
  }

  /** The file of every hour in `[from, until)` can be read, and holds only fills of that hour. */
  ghost predicate Readable(net: Archive, from: int, until: int) {
    Honest(net) && forall date: int :: from <= HourOf(date) < until ==> FetchHour(net, date).fills.Some?
  }

  /** Every request finds the files of `[from, until)`, at a time at least a day after the last of them. */
  ghost predicate InTheOpen(readings: (nat, nat) -> Reading, from: int, until: int) {
    forall i: nat, k: nat :: Readable(readings(i, k).net, from, until) && HourStart(until + 24) <= readings(i, k).now2
  }

  /** A page before `until` is there and has more, also at 23h. */
  lemma PageGoesOn(x: Reading, p: Pos, from: int, until: int)
    requires Readable(x.net, from, until) && from <= PageHour(p) < until && HourStart(until + 24) <= x.now2
    ensures var r := FetchPage(x.net, p.start, p.cursor, x.now1, x.now2);
            r.Ok? && r.value.hasMore && |r.value.requests| <= 8 && PageFrom(r.value, PageHour(p))
  {
    var current := Position(p.start, p.cursor);
    PageHourIsPosition(p);
    HourBounds(current);
    assert FetchHour(x.net, current).fills.Some?;
    ParallelPageHidesFailures(x.net, p.start, p.cursor, x.now1, x.now2);
    PageShape(x.net, p.start, p.cursor, x.now1, x.now2);
  }

  lemma AttemptGoesOn(env: nat -> Round, readings: (nat, nat) -> Reading, n: nat, maxRetries: nat, p: Pos, b: Batch,
                      from: int, until: int)
    requires FromS3(env, readings) && InTheOpen(readings, from, until)
    requires from <= PageHour(p) < until && IsAttempt(p, env(n), maxRetries, b)
    ensures b.hasMore && |b.requests| <= 8 && PageFrom(b, PageHour(p))
  {
    var k: nat :| k < AttemptLimit(maxRetries) && env(n).attempts(k)(p) == Ok(b);
    PageGoesOn(readings(n, k), p, from, until);
  }

  /**
   Where a position can be after `n` rounds. A page moves the cursor on by up to eight hours, but the start by one if it
   is empty; with a fill in every file the cursor is never more than an hour ahead of the start.
   */
  ghost predicate Near(task: Task, filled: bool, n: nat, p: Pos) {
    && Ordered(p) && HourOf(task.first.start) <= HourOf(p.start)
    && n + Rounds(p, task.end) <= Rounds(task.first, task.end)
    && PageHour(p) <= (if filled then Max(PageHour(task.first), HourOf(p.start) + 1) else PageHour(task.first) + 8 * n)
  }

  /** The hour below which all pages are requested. */
  function Horizon(task: Task, filled: bool): int {
    if filled then Max(PageHour(task.first), CeilHour(task.end)) + 1
    else PageHour(task.first) + 8 * Max(Rounds(task.first, task.end), 0)
  }

  /** The files are there as far as pages can reach, with a fill in each if `filled`, and the clock is past them. */
  ghost predicate Supplied(task: Task, filled: bool, readings: (nat, nat) -> Reading) {
    var from, until := HourOf(task.first.start), Horizon(task, filled);
    && InTheOpen(readings, from, until)
    && (filled ==> forall i: nat, k: nat :: Filled(readings(i, k).net, from, until + 8))
  }

  ghost predicate Filled(net: Archive, from: int, until: int) {
    forall date: int :: from <= HourOf(date) < until ==>
                          FetchHour(net, date).fills.Some? && FetchHour(net, date).fills.value != []
  }

  lemma NearIsBelowHorizon(task: Task, filled: bool, n: nat, p: Pos)
    requires Near(task, filled, n, p) && p.start < task.end
    ensures HourOf(task.first.start) <= PageHour(p) < Horizon(task, filled)
  {
    RoundsPositive(p, task.end);
    HourBounds(task.end + 3_600_000 - 1);
    HourBounds(p.start);
  }

  lemma SkipStaysNear(task: Task, filled: bool, n: nat, p: Pos)
    requires Near(task, filled, n, p)
    ensures Near(task, filled, n + 1, AfterSkip(p))
  {
    SkipProgress(p, task.end);
  }

  /** If every file of it holds a fill, the last fill of a page is in its last hour. */
  lemma FilledPageEnds(x: Reading, p: Pos, from: int, until: int)
    requires Honest(x.net) && Filled(x.net, from, until + 8) && from <= PageHour(p) < until
    requires FetchPage(x.net, p.start, p.cursor, x.now1, x.now2).Ok?
    ensures var b := FetchPage(x.net, p.start, p.cursor, x.now1, x.now2).value;
            HourOf(AfterPage(p, b).start) == PageHour(p) + |b.requests| - 1
  {
    var current := Position(p.start, p.cursor);
    var b := FetchPage(x.net, p.start, p.cursor, x.now1, x.now2).value;
    PageHourIsPosition(p);
    PageShape(x.net, p.start, p.cursor, x.now1, x.now2);
    LastRequestIs(x, p);
    var m := |b.requests| - 1;
    HourShift(current, m);
    assert FetchHour(x.net, HoursLater(current, m)).fills.value != [];
    LastFillIsLast(b.requests, PageHour(p));
  }

  lemma LastRequestIs(x: Reading, p: Pos)
    requires Honest(x.net) && FetchPage(x.net, p.start, p.cursor, x.now1, x.now2).Ok?
    requires FetchHour(x.net, Position(p.start, p.cursor)).fills.Some?
    ensures var b := FetchPage(x.net, p.start, p.cursor, x.now1, x.now2).value;
            var m := |b.requests| - 1;
            m >= 0 && b.requests[m] == FetchHour(x.net, HoursLater(Position(p.start, p.cursor), m))
  {
    var current := Position(p.start, p.cursor);
    FetchHoursShape(x.net, current, HoursUntilNow(x.now1, current));
    assert HoursLater(current, 0) == current;
  }

  lemma LastFillIsLast(rs: seq<Request>, h: int)
    requires RequestsFrom(rs, h) && Got(rs[|rs| - 1]) != []
    ensures var fs := Flatten(rs); fs != [] && HourOf(fs[|fs| - 1].timestamp) == h + |rs| - 1
  {
    var own := Got(rs[|rs| - 1]);
    assert own[|own| - 1] in own;
    assert StampedInHour(rs[|rs| - 1]);
  }

  lemma PageStaysNear(task: Task, filled: bool, readings: (nat, nat) -> Reading, env: nat -> Round, maxRetries: nat,
                      n: nat, p: Pos, b: Batch)
    requires Near(task, filled, n, p) && p.start < task.end
    requires FromS3(env, readings) && Supplied(task, filled, readings) && IsAttempt(p, env(n), maxRetries, b)
    ensures Near(task, filled, n + 1, AfterPage(p, b)) && b.hasMore
  {
    var from, until := HourOf(task.first.start), Horizon(task, filled);
    NearIsBelowHorizon(task, filled, n, p);
    AttemptGoesOn(env, readings, n, maxRetries, p, b, from, until);
    PageProgress(p, b, task.end);
    if filled {
      var k: nat :| k < AttemptLimit(maxRetries) && env(n).attempts(k)(p) == Ok(b);
      FilledPageEnds(readings(n, k), p, from, until);
    }
  }

  /** Along the trail the positions stay near, and every page has more. */
  lemma {:induction false} TrailGoesOn(task: Task, filled: bool, env: nat -> Round, readings: (nat, nat) -> Reading,
                                       maxRetries: nat, trail: seq<Visit>, p: Pos, sent: seq<Batch>)
    requires Ordered(task.first) && Trail(task, env, maxRetries, trail, p, sent)
    requires FromS3(env, readings) && Supplied(task, filled, readings)
    ensures Near(task, filled, |trail|, p)
    ensures AllHaveMore(sent)
    decreases |trail|
  {
    if trail != [] {
      var n := |trail| - 1;
      var q, front := LastVisit(task, env, maxRetries, trail, p, sent);
      TrailGoesOn(task, filled, env, readings, maxRetries, trail[..n], q, front);
      if front == sent {
        SkipStaysNear(task, filled, n, q);
      } else {
        var b := sent[|sent| - 1];
        PageStaysNear(task, filled, readings, env, maxRetries, n, q, b);
        assert sent == front + [b];
        MoreAgain(front, b);
      }
    }
  }

  /** Where the last round of a trail began, and what had been sent by then. */
  lemma LastVisit(task: Task, env: nat -> Round, maxRetries: nat, trail: seq<Visit>, p: Pos, sent: seq<Batch>)
    returns (q: Pos, front: seq<Batch>)
    requires trail != [] && Trail(task, env, maxRetries, trail, p, sent)
    ensures Trail(task, env, maxRetries, trail[..|trail| - 1], q, front) && q.start < task.end
    ensures front == sent ==> p == AfterSkip(q)
    ensures front != sent ==>
              sent != [] && front == sent[..|sent| - 1]
              && p == AfterPage(q, sent[|sent| - 1])
              && IsAttempt(q, env(|trail| - 1), maxRetries, sent[|sent| - 1])
  {
    var v := trail[|trail| - 1];
    q, front := v.pos, sent;
    if !ShouldSkip(v.pos, task.missing, CountOf(env(|trail| - 1), v.pos)) {
      front := sent[..|sent| - 1];
    }
  }

  /**
   The fetch loop over the S3 source: if all rounds find the files, at a time past them, and the channel stays open, it
   comes to the end of its range. It does not stop early and no page fails. If every file holds a fill, files and clock
   need to reach no further than a day and some hours past the end; otherwise as far as empty pages can carry it.
   */
  method FetchToTheEnd(task: Task, env: nat -> Round, maxRetries: nat, ghost filled: bool,
                       ghost readings: (nat, nat) -> Reading)
    returns (why: Stop, p: Pos, sent: seq<Batch>, rounds: nat, ghost trail: seq<Visit>)
    requires Ordered(task.first) && forall i: nat :: HonestRound(env(i)) && !env(i).closed
    requires FromS3(env, readings) && Supplied(task, filled, readings)
    ensures why == ReachedEnd && task.end <= p.start
    ensures CoveredUpTo(task, p, sent, env, rounds) && HourOf(task.end) <= PageHour(p)
  {
    why, p, sent, rounds, trail := RunFetcher(task, env, maxRetries);
    GoesToTheEnd(task, filled, env, readings, maxRetries, trail, p, sent, rounds);
  }

  /** The trail of a run over a supplied source is not that of a run that stopped early or gave up. */
  lemma GoesToTheEnd(task: Task, filled: bool, env: nat -> Round, readings: (nat, nat) -> Reading, maxRetries: nat,
                     trail: seq<Visit>, p: Pos, sent: seq<Batch>, rounds: nat)
    requires Ordered(task.first) && Trail(task, env, maxRetries, trail, p, sent)
    requires FromS3(env, readings) && Supplied(task, filled, readings)
    ensures AllHaveMore(sent)
    ensures rounds > 0 ==> !GaveUp(task, p, env(rounds - 1), maxRetries)
  {
    TrailGoesOn(task, filled, env, readings, maxRetries, trail, p, sent);
    if rounds > 0 && p.start < task.end {
      NoAttemptFails(task, filled, env, readings, |trail|, rounds - 1, maxRetries, p);
    }
  }

  lemma NoAttemptFails(task: Task, filled: bool, env: nat -> Round, readings: (nat, nat) -> Reading, n: nat, i: nat,
                       maxRetries: nat, p: Pos)
    requires FromS3(env, readings) && Supplied(task, filled, readings)
    requires Near(task, filled, n, p) && p.start < task.end
    ensures !FailsOnce(p, env(i), maxRetries)
  {
    NearIsBelowHorizon(task, filled, n, p);
    forall k: nat | k < AttemptLimit(maxRetries) ensures env(i).attempts(k)(p).Ok? {
      PageGoesOn(readings(i, k), p, HourOf(task.first.start), Horizon(task, filled));
    }
  }
}
