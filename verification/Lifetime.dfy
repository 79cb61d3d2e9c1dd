/** Whole runs in one process after another: backfills and continuous ingestion on the same store. */
module Lifetime {
  import opened Wrappers
  import opened Hours
  import opened Fills
  import opened Gaps
  import opened Pages
  import opened Stores
  import opened Fetcher
  import opened Planner
  import opened Backfill
  import opened Continuous

  /** The saved checkpoint, whatever wrote it: its cursor is ahead of its last record, its count covered by rows. */
  ghost predicate Sound(store: Store)
    reads store
  {
    store.Valid() && (store.saved.Some? ==> SavedSoundly(store.saved, store.fills))
  }

  /** The hour is full in the table, was seen full by the fetcher, or was requested and its fills are stored. */
  ghost predicate Accounted(t: seq<Fill>, sent: seq<Batch>, env: nat -> Round, h: int) {
    || Full(t, h)
    || (exists n: nat :: SeenFullBefore(env, n, h))
    || (RequestedIn(sent, h) && Keys(AllFills(sent)) <= Keys(t))
  }

  /**
   One backfill, with the fetcher running ahead of the consumer as far as it can. If it returns without an error
   having reached the end, every hour from the resume hour to the end is accounted for. The pages are those of the
   fetch loop with the list that the gap query gives at its start, all their fills are inserted, and the saved row
   stands at the latest of them. `record` says what the run has met on its way.
   */
  method RunBackfill(pipeline: Pipeline, end: int, others: nat -> seq<Fill>, listOk: bool, env: nat -> Round)
    returns (ok: bool, plan: Plan, why: Stop, ghost sent: seq<Batch>, ghost record: Record)
    requires Sound(pipeline.store)
    requires forall i: nat :: HonestRound(env(i)) && !env(i).closed
    modifies pipeline.store
    ensures Sound(pipeline.store) && old(pipeline.store.fills) <= pipeline.store.fills
    ensures !ok ==> why == FetchFailed || pipeline.store.Faulted(old(pipeline.store.clock))
    ensures ok && plan.Complete? ==> MissingHours(pipeline.store.fills, pipeline.startFrom, end) == []
    ensures ok && plan.Resume? && why == ReachedEnd ==>
              forall h :: PageHour(plan.pos) <= h < HourOf(end) ==> Accounted(pipeline.store.fills, sent, env, h)
    ensures ok ==>
              var planned := PlanBackfill(old(pipeline.store.saved), pipeline.startFrom, end, record.found);
              && record.found.atReset == old(pipeline.store.fills) && Growing(record.found)
              && plan == planned.plan && record.planned == planned.checkpoint
              && record.savedFirst ==
                 (if planned.wasReset then Some(planned.checkpoint) else old(pipeline.store.saved))
              && (!plan.Resume? ==> pipeline.store.saved == record.savedFirst)
    ensures ok && plan.Resume? ==>
              FollowsPlan(record, plan, end, listOk, env, pipeline.maxRetries, sent)
              && pipeline.store.fills == InsertAll(record.listed, AllFills(sent))
              && AtLatest(record.planned, sent, record.reached)
              && (pipeline.store.saved == Some(record.reached)
                  || (record.reached == record.planned && pipeline.store.saved == record.savedFirst))
  {
    var store := pipeline.store;
    ghost var saved := store.saved;
    why, sent := FetchFailed, [];
    var prepared, checkpoint, q := pipeline.Prepare(end, others);
    record := Record(q, checkpoint, store.saved, store.fills, Task(Pos(0, None), end, []), Pos(0, None), [],
                     checkpoint);
    if prepared.Err? {
      return false, Complete, ReachedEnd, sent, record;
    }
    plan := prepared.value;
    PlannerGuarantee(saved, pipeline.startFrom, end, q);
    PlannedCount(saved, pipeline.startFrom, end, q);
    if plan.Complete? {
      MissingShrinks(q.atGaps, store.fills, pipeline.startFrom, end);
    }
    if !plan.Resume? {
      return true, plan, why, sent, record;
    }
    var p, batches, rounds;
    ghost var task, trail;
    why, p, batches, rounds, task, trail := FetchAll(store, plan.pos, end, listOk, env, pipeline.maxRetries);
    sent := batches;
    record := record.(listed := store.fills, task := task, last := p, trail := trail);
    var done, total;
    ghost var clean;
    ok, checkpoint, total, done, clean := pipeline.Consume(checkpoint, batches);
    record := record.(reached := checkpoint);
    if ok {
      assert sent[..done] == sent;
      EverythingAccounted(record, store.fills, sent, env, rounds, why);
    }
    ok := ok && why != FetchFailed;
  }

  /** The fetcher task: the list, if the query succeeds, and then the fetch loop. */
  method FetchAll(store: Store, first: Pos, end: int, listOk: bool, env: nat -> Round, maxRetries: nat)
    returns (why: Stop, p: Pos, sent: seq<Batch>, rounds: nat, ghost task: Task, ghost trail: seq<Visit>)
    requires Ordered(first) && forall i: nat :: HonestRound(env(i)) && !env(i).closed
    ensures task == Task(first, end, if listOk then MissingHours(store.fills, first.start, end) else [])
    ensures FromSource(sent) && Trail(task, env, maxRetries, trail, p, sent)
    ensures why != ChannelClosed && CoveredUpTo(task, p, sent, env, rounds)
    ensures why == ReachedEnd ==> HourOf(end) <= PageHour(p)
  {
    var missing := [];
    if listOk {
      missing := store.GetMissingHours(first.start, end);
    }
    task := Task(first, end, missing);
    why, p, sent, rounds, trail := RunFetcher(Task(first, end, missing), env, maxRetries);
  }

  lemma EverythingAccounted(r: Record, t: seq<Fill>, sent: seq<Batch>, env: nat -> Round, rounds: nat, why: Stop)
    requires CoveredUpTo(r.task, r.last, sent, env, rounds) && t == InsertAll(r.listed, AllFills(sent))
    requires why == ReachedEnd ==> HourOf(r.task.end) <= PageHour(r.last)
    requires r.task.missing == [] || r.task.missing == MissingHours(r.listed, r.task.first.start, r.task.end)
    ensures why == ReachedEnd ==>
              forall h :: PageHour(r.task.first) <= h < HourOf(r.task.end) ==> Accounted(t, sent, env, h)
  {
    if why == ReachedEnd {
      InsertAllExtends(r.listed, AllFills(sent));
      InsertAllKeys(r.listed, AllFills(sent));
      AccountForAll(r.task, r.listed, t, sent, env, rounds, r.last);
    }
  }

  /**
   What a run has met: the table at the planner's queries, the checkpoint that was planned and the row then saved, the
   table that the list came from, the fetch loop's task, end and trail, and the checkpoint that was reached.
   */
  datatype Record = Record(found: Queries, planned: Checkpoint, savedFirst: Option<Checkpoint>, listed: seq<Fill>,
                           task: Task, last: Pos, trail: seq<Visit>, reached: Checkpoint)

  /** The fetch loop began at the planned position, with the answer of the gap query if there was one. */
  ghost predicate FollowsPlan(r: Record, plan: Plan, end: int, listOk: bool, env: nat -> Round, maxRetries: nat,
                              sent: seq<Batch>)
    requires plan.Resume?
  {
    && r.task == Task(plan.pos, end, if listOk then MissingHours(r.listed, plan.pos.start, end) else [])
    && Trail(r.task, env, maxRetries, r.trail, r.last, sent)
  }

  /** The planned checkpoint counts as many records as the saved one. */
  lemma PlannedCount(saved: Option<Checkpoint>, start: int, end: int, q: Queries)
    ensures PlanBackfill(saved, start, end, q).checkpoint.records == if saved.Some? then saved.value.records else 0
  {
  }

  lemma AccountForAll(task: Task, listed: seq<Fill>, t: seq<Fill>, sent: seq<Batch>,
                      env: nat -> Round, rounds: nat, p: Pos)
    requires CoveredUpTo(task, p, sent, env, rounds) && HourOf(task.end) <= PageHour(p)
    requires task.missing == [] || task.missing == MissingHours(listed, task.first.start, task.end)
    requires listed <= t && Keys(AllFills(sent)) <= Keys(t)
    ensures forall h :: PageHour(task.first) <= h < HourOf(task.end) ==> Accounted(t, sent, env, h)
  {
    forall h | PageHour(task.first) <= h < HourOf(task.end) ensures Accounted(t, sent, env, h) {
      assert Covered(task, sent, env, rounds, h);
      if !RequestedIn(sent, h) && task.missing != [] {
        PassedOverIsFull(task, listed, env, rounds, h);
        if Full(listed, h) {
          FullStays(listed, t, h);
        }
      }
    }
  }

  /** A process: a backfill, or continuous ingestion for some rounds. */
  datatype Job =
    | BackfillJob(startFrom: int, end: int, others: nat -> seq<Fill>, listOk: bool, env: nat -> Round)
    | ContinuousJob(configStart: Option<int>, now: int, env: nat -> Round, rounds: nat)

  ghost predicate HonestJob(job: Job) {
    forall i: nat :: HonestRound(job.env(i)) && (job.BackfillJob? ==> !job.env(i).closed)
  }

  /** Any sequence of processes, whether they fail or not, keeps the saved checkpoint sound and loses no row. */
  method Live(store: Store, jobs: seq<Job>, maxRetries: nat)
    requires Sound(store)
    requires forall j :: 0 <= j < |jobs| ==> HonestJob(jobs[j])
    modifies store
    ensures Sound(store) && old(store.fills) <= store.fills
  {
    for j := 0 to |jobs|
      invariant Sound(store) && old(store.fills) <= store.fills
    {
      assert HonestJob(jobs[j]);
      match jobs[j] {
        case BackfillJob(startFrom, end, others, listOk, env) =>
          var pipeline := new Pipeline(store, startFrom, maxRetries);
          var ok, plan, why;
          ghost var sent, record;
          ok, plan, why, sent, record := RunBackfill(pipeline, end, others, listOk, env);
        case ContinuousJob(configStart, now, env, rounds) =>
          var ok, p, total := Continuous.Resume(store, configStart, now);
          if ok {
            var ending, q, newTotal;
            ghost var handled, top;
            ending, q, newTotal, handled, top := Poll(store, p, total, env, rounds, maxRetries);
          }
      }
    }
  }
}
