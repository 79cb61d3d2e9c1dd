/** The head of `run_backfill`: gap detection, checkpoint reset, early returns and the resume point. */
module Planner {
  import opened Wrappers
  import opened Hours
  import opened Fills
  import opened Gaps
  import opened Stores
  import opened Fetcher

  /** The table as each of the planner's queries finds it; rows may be added in between. */
  datatype Queries = Queries(atReset: seq<Fill>, atExists: seq<Fill>, atComplete: seq<Fill>, atGaps: seq<Fill>)

  ghost predicate Growing(q: Queries) {
    q.atReset <= q.atExists <= q.atComplete <= q.atGaps
  }

  datatype Plan =
    | Complete          // every hour of the range is full: return
    | PastEnd           // the checkpoint is not before the end: return
    | Resume(pos: Pos)  // fetch from here

  datatype Planned = Planned(plan: Plan, checkpoint: Checkpoint, wasReset: bool)

  function FreshCheckpoint(): Checkpoint {
    Checkpoint(None, None, None, 0)
  }

  /** A checkpoint moved to the start of an hour: one millisecond before it, with that hour as the cursor. */
  function ResetTo(c: Checkpoint, hour: int): Checkpoint {
    c.(cursor := Some(hour), lastTs := Some(HourStart(hour) - 1))
  }

  /** Auto-refresh: more than twelve missing hours before the checkpoint send it back to the first of them. */
  function AutoRefresh(c: Checkpoint, start: int, end: int, t: seq<Fill>): (Checkpoint, bool) {
    if c.lastTs.None? then (c, false) else
    var missing := MissingHours(t, start, Min(c.lastTs.value, end));
    if |missing| > 12 then (ResetTo(c, missing[0]), true) else (c, false)
  }

  function NotBefore(hours: seq<int>, start: int): seq<int> {
    if hours == [] then [] else
    (if HourStart(hours[0]) >= start then [hours[0]] else []) + NotBefore(hours[1..], start)
  }

  function ResumePoint(c: Checkpoint, start: int, end: int, t: seq<Fill>): Plan {
    if c.lastTs.None? then Resume(Pos(start, None)) else
    var ts := c.lastTs.value;
    if ts >= end then PastEnd
    else if ts > start then
      var gaps := NotBefore(MissingHours(t, start, ts), start);
      if |gaps| > 24 then Resume(Pos(HourStart(gaps[0]), Some(gaps[0])))
      else Resume(Pos(ts, c.cursor))
    else Resume(Pos(start, None))
  }

  function PlanBackfill(saved: Option<Checkpoint>, start: int, end: int, q: Queries): Planned {
    var loaded := if saved.Some? then saved.value else FreshCheckpoint();
    var (c, wasReset) := AutoRefresh(loaded, start, end, q.atReset);
    if CountIn(q.atExists, start, end) > 0 && MissingHours(q.atComplete, start, end) == []
    then Planned(Complete, c, wasReset)
    else Planned(ResumePoint(c, start, end, q.atGaps), c, wasReset)
  }

  // ------------------------------------------------------------------ lemmas

  lemma {:induction false} NotBeforeShorter(hours: seq<int>, start: int)
    ensures |NotBefore(hours, start)| <= |hours|
    decreases |hours|
  {
    if hours != [] {
      NotBeforeShorter(hours[1..], start);
    }
  }

  /** What the auto-refresh does: it moves the checkpoint back to a missing hour below which all hours are full. */
  lemma RefreshEffect(c: Checkpoint, start: int, end: int, t: seq<Fill>)
    requires CursorAhead(c)
    ensures CursorAhead(AutoRefresh(c, start, end, t).0)
    ensures AutoRefresh(c, start, end, t).0.records == c.records
    ensures AutoRefresh(c, start, end, t).1 <==>
              c.lastTs.Some? && |MissingHours(t, start, Min(c.lastTs.value, end))| > 12
    ensures !AutoRefresh(c, start, end, t).1 ==> AutoRefresh(c, start, end, t).0 == c
    ensures AutoRefresh(c, start, end, t).1 ==>
              var back := AutoRefresh(c, start, end, t).0;
              c.lastTs.Some? && back.lastTs.Some? && back.cursor.Some?
              && back.lastTs.value < c.lastTs.value && back.lastTs.value < end
              && ResumeHour(back) in MissingHours(t, start, Min(c.lastTs.value, end))
              && back.lastTs.value == HourStart(ResumeHour(back)) - 1 && back.lastBlock == c.lastBlock
              && HourOf(start) <= ResumeHour(back) < ResumeHour(c)
              && MissingHours(t, start, back.lastTs.value) == []
              && forall h :: HourOf(start) <= h < ResumeHour(back) ==> Full(t, h)
  {
    if AutoRefresh(c, start, end, t).1 {
      var until := Min(c.lastTs.value, end);
      NothingBeforeFirst(t, start, until);
      var first := MissingHours(t, start, until)[0];
      HourOfStart(first);
      HourBounds(until);
      HourMonotone(until, c.lastTs.value);
      HourMonotone(until, end);
    }
  }

  /** At most twelve gaps before the checkpoint are left when the resume point is chosen. */
  lemma FewGapsLeft(saved: Option<Checkpoint>, start: int, end: int, q: Queries)
    requires Growing(q) && (saved.Some? ==> CursorAhead(saved.value))
    ensures var c := PlanBackfill(saved, start, end, q).checkpoint;
            c.lastTs.Some? ==> |MissingHours(q.atGaps, start, Min(c.lastTs.value, end))| <= 12
    ensures var p := PlanBackfill(saved, start, end, q);
            p.wasReset ==> p.checkpoint.lastTs.Some? && MissingHours(q.atGaps, start, p.checkpoint.lastTs.value) == []
  {
    var loaded := if saved.Some? then saved.value else FreshCheckpoint();
    RefreshEffect(loaded, start, end, q.atReset);
    var c := AutoRefresh(loaded, start, end, q.atReset).0;
    if c.lastTs.Some? {
      MissingShrinks(q.atReset, q.atGaps, start, Min(c.lastTs.value, end));
    }
  }

  /**
   The branch for more than 24 gaps is never taken: the resume point is the start or the checkpoint itself. A run
   returns at once exactly if rows and no missing hour are found, or else if the checkpoint is not before the end.
   */
  lemma ResumeIsStartOrCheckpoint(saved: Option<Checkpoint>, start: int, end: int, q: Queries)
    requires Growing(q) && (saved.Some? ==> CursorAhead(saved.value))
    ensures var p := PlanBackfill(saved, start, end, q);
            && (p.plan.Complete? <==>
                  Between(q.atExists, start, end) != {} && MissingHours(q.atComplete, start, end) == [])
            && (p.plan.PastEnd? <==>
                  !p.plan.Complete? && p.checkpoint.lastTs.Some? && end <= p.checkpoint.lastTs.value)
            && (saved.None? ==> p.checkpoint == Checkpoint(None, None, None, 0))
    ensures var p := PlanBackfill(saved, start, end, q);
            p.plan.Resume? ==>
              p.plan.pos == if p.checkpoint.lastTs.Some? && p.checkpoint.lastTs.value > start
                            then Pos(p.checkpoint.lastTs.value, p.checkpoint.cursor)
                            else Pos(start, None)
  {
    FewGapsLeft(saved, start, end, q);
    CountIsBetween(q.atExists, start, end);
    var p := PlanBackfill(saved, start, end, q);
    if p.checkpoint.lastTs.Some? {
      NotBeforeShorter(MissingHours(q.atGaps, start, p.checkpoint.lastTs.value), start);
    }
  }

  /**
   The planner's guarantee, though rows may be added between its queries. Returning without fetching leaves at most
   twelve missing hours in the range; resuming from a checkpoint leaves at most twelve before it, and none before
   the resume hour if the checkpoint was reset; a reset only moves the checkpoint back.
   */
  lemma PlannerGuarantee(saved: Option<Checkpoint>, start: int, end: int, q: Queries)
    requires Growing(q) && (saved.Some? ==> CursorAhead(saved.value))
    ensures var p := PlanBackfill(saved, start, end, q);
            && CursorAhead(p.checkpoint)
            && (p.plan.Complete? ==> |MissingHours(q.atGaps, start, end)| == 0)
            && (p.plan.PastEnd? ==> !p.wasReset && |MissingHours(q.atGaps, start, end)| <= 12)
            && (p.plan.Resume? ==> Ordered(p.plan.pos))
            && (p.plan.Resume? && p.plan.pos.start != start ==>
                  |MissingHours(q.atGaps, start, p.plan.pos.start)| <= 12)
            && (p.wasReset && p.plan.Resume? ==>
                  forall h :: HourOf(start) <= h < PageHour(p.plan.pos) ==> Full(q.atGaps, h))
            && (p.wasReset ==>
                  saved.Some? && saved.value.lastTs.Some? && p.checkpoint.lastTs.Some?
                  && p.checkpoint.lastTs.value < saved.value.lastTs.value
                  && ResumeHour(p.checkpoint) < ResumeHour(saved.value))
  {
    var p := PlanBackfill(saved, start, end, q);
    var loaded := if saved.Some? then saved.value else FreshCheckpoint();
    RefreshEffect(loaded, start, end, q.atReset);
    FewGapsLeft(saved, start, end, q);
    ResumeIsStartOrCheckpoint(saved, start, end, q);
    MissingShrinks(q.atComplete, q.atGaps, start, end);
    if p.wasReset {
      ResetHoursStayFull(q.atReset, q.atGaps, start, ResumeHour(p.checkpoint));
    }
  }

  /** The run will request the hour, unless it finds it full. */
  predicate Reaches(plan: Plan, h: int) {
    plan.Resume? && PageHour(plan.pos) <= h
  }

  /**
   Exactly when a run leaves a gap behind it. Of the gaps before the checkpoint (and before the end) the run never
   reaches one if there are one to twelve of them, and reaches all of them otherwise.
   */
  lemma LeavesGapsIffFew(c: Checkpoint, start: int, end: int, t: seq<Fill>)
    requires CursorAhead(c) && c.lastTs.Some?
    ensures var plan := PlanBackfill(Some(c), start, end, Queries(t, t, t, t)).plan;
            var gaps := MissingHours(t, start, Min(c.lastTs.value, end));
            && ((exists h :: h in gaps && !Reaches(plan, h)) <==> 1 <= |gaps| <= 12)
            && (forall h :: h in gaps ==> (Reaches(plan, h) <==> |gaps| > 12))
  {
    var gaps := MissingHours(t, start, Min(c.lastTs.value, end));
    if 1 <= |gaps| <= 12 {
      FewGapsAreLeft(c, start, end, t);
      assert gaps[0] in gaps && !Reaches(PlanBackfill(Some(c), start, end, Queries(t, t, t, t)).plan, gaps[0]);
    } else if gaps != [] {
      ManyGapsAreReached(c, start, end, t);
    }
  }

  /** A gap before an earlier end is a gap. */
  lemma GapsAreNotComplete(t: seq<Fill>, start: int, until: int, end: int)
    requires until <= end && MissingHours(t, start, until) != []
    ensures MissingHours(t, start, end) != []
  {
    MissingExact(t, start, until);
    MissingExact(t, start, end);
    var h := MissingHours(t, start, until)[0];
    assert h in MissingHours(t, start, until);
    HourBounds(until);
    SameCountBefore(t, h, start, until, end);
    HourMonotone(until, end);
    assert h in MissingHours(t, start, end);
  }

  lemma FewGapsAreLeft(c: Checkpoint, start: int, end: int, t: seq<Fill>)
    requires CursorAhead(c) && c.lastTs.Some?
    requires 1 <= |MissingHours(t, start, Min(c.lastTs.value, end))| <= 12
    ensures forall h :: h in MissingHours(t, start, Min(c.lastTs.value, end)) ==>
                          !Reaches(PlanBackfill(Some(c), start, end, Queries(t, t, t, t)).plan, h)
  {
    var q, until := Queries(t, t, t, t), Min(c.lastTs.value, end);
    GapsAreNotComplete(t, start, until, end);
    MissingExact(t, start, until);
    ResumeIsStartOrCheckpoint(Some(c), start, end, q);
    assert MissingHours(t, start, until)[0] in MissingHours(t, start, until);
    if c.lastTs.value <= start {
      HourMonotone(until, start);
    }
  }

  lemma ManyGapsAreReached(c: Checkpoint, start: int, end: int, t: seq<Fill>)
    requires CursorAhead(c) && c.lastTs.Some?
    requires |MissingHours(t, start, Min(c.lastTs.value, end))| > 12
    ensures forall h :: h in MissingHours(t, start, Min(c.lastTs.value, end)) ==>
                          Reaches(PlanBackfill(Some(c), start, end, Queries(t, t, t, t)).plan, h)
  {
    var q, until := Queries(t, t, t, t), Min(c.lastTs.value, end);
    GapsAreNotComplete(t, start, until, end);
    MissingExact(t, start, until);
    RefreshEffect(c, start, end, t);
    ResumeIsStartOrCheckpoint(Some(c), start, end, q);
    NothingBeforeFirst(t, start, until);
    var gaps := MissingHours(t, start, until);
    forall h | h in gaps ensures gaps[0] <= h {
      var i :| 0 <= i < |gaps| && gaps[i] == h;
    }
  }

  lemma ResetHoursStayFull(t: seq<Fill>, u: seq<Fill>, start: int, to: int)
    requires t <= u && forall h :: HourOf(start) <= h < to ==> Full(t, h)
    ensures forall h :: HourOf(start) <= h < to ==> Full(u, h)
  {
    forall h | HourOf(start) <= h < to ensures Full(u, h) {
      FullStays(t, u, h);
    }
  }
}
