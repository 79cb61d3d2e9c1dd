/** `run_backfill` step by step: the planning head on the live store, and the consumer of the fetched batches. */
module Backfill {
  import opened Wrappers
  import opened Hours
  import opened Fills
  import opened Gaps
  import opened Pages
  import opened Fetcher
  import opened Stores
  import opened Planner

  predicate ShouldAdvance(c: Checkpoint, fills: seq<Fill>) {
    fills != [] && (c.lastTs.Some? ==> fills[|fills| - 1].timestamp >= c.lastTs.value)
  }

  /** The in-memory checkpoint after a batch: it follows the batch only when that moves forward in time. */
  function Advance(c: Checkpoint, b: Batch, total: int): Checkpoint {
    var fills := FillsIn(b);
    if !ShouldAdvance(c, fills) then c
    else
      var last := fills[|fills| - 1];
      Checkpoint(b.cursor, Some(last.timestamp), last.block, total)
  }

  function LastTime(b: Batch): int
    requires FillsIn(b) != []
  {
    FillsIn(b)[|FillsIn(b)| - 1].timestamp
  }

  /** The row has the batch's cursor, and the time and block of its last fill if it has any. */
  predicate Follows(c: Checkpoint, b: Batch) {
    var fills := FillsIn(b);
    c.cursor == b.cursor
    && (fills != [] ==> c.lastTs == Some(fills[|fills| - 1].timestamp) && c.lastBlock == fills[|fills| - 1].block)
  }

  predicate EndsNoEarlier(c: Checkpoint, b: Batch) {
    FillsIn(b) != [] && (c.lastTs.Some? ==> c.lastTs.value <= LastTime(b))
  }

  /** Of the batches that end no earlier than the checkpoint, `bs[j]` ends last; of several such, it is the last. */
  ghost predicate Latest(c: Checkpoint, bs: seq<Batch>, j: int) {
    && 0 <= j < |bs| && EndsNoEarlier(c, bs[j])
    && forall i :: 0 <= i < |bs| && FillsIn(bs[i]) != [] ==>
         if i <= j then LastTime(bs[i]) <= LastTime(bs[j]) else LastTime(bs[i]) < LastTime(bs[j])
  }

  /** The checkpoint after the batches: that of the latest one, or the old one; its time is the maximum of all. */
  ghost predicate AtLatest(c: Checkpoint, bs: seq<Batch>, d: Checkpoint) {
    && (forall j :: Latest(c, bs, j) ==> Follows(d, bs[j]))
    && ((forall j :: !Latest(c, bs, j)) ==> d == c)
    && NotEarlier(c, d)
    && forall i :: 0 <= i < |bs| && FillsIn(bs[i]) != [] ==> d.lastTs.Some? && LastTime(bs[i]) <= d.lastTs.value
  }

  lemma AtLatestOfNone(c: Checkpoint)
    ensures AtLatest(c, [], c)
  {
  }

  /** A batch that ends no earlier is the latest one. */
  lemma NewLatest(c: Checkpoint, bs: seq<Batch>, d: Checkpoint, b: Batch)
    requires AtLatest(c, bs, d) && FillsIn(b) != [] && (d.lastTs.Some? ==> d.lastTs.value <= LastTime(b))
    ensures forall j :: Latest(c, bs + [b], j) <==> j == |bs|
  {
    var all := bs + [b];
    assert all[|bs|] == b;
    assert Latest(c, all, |bs|);
  }

  lemma LatestIsNotEarlier(c: Checkpoint, bs: seq<Batch>, d: Checkpoint, b: Batch)
    requires AtLatest(c, bs, d) && Latest(c, bs + [b], |bs|)
    ensures d.lastTs.Some? ==> d.lastTs.value <= LastTime(b)
  {
    var all := bs + [b];
    assert all[|bs|] == b;
    if k :| Latest(c, bs, k) {
      assert all[k] == bs[k] && Follows(d, bs[k]);
    }
  }

  /** A batch that is empty or ends earlier changes nothing. */
  lemma SameLatest(c: Checkpoint, bs: seq<Batch>, d: Checkpoint, b: Batch)
    requires AtLatest(c, bs, d)
    requires FillsIn(b) != [] ==> d.lastTs.Some? && LastTime(b) < d.lastTs.value
    ensures forall j :: Latest(c, bs + [b], j) <==> Latest(c, bs, j)
  {
    var all := bs + [b];
    assert all[|bs|] == b && forall i :: 0 <= i < |bs| ==> all[i] == bs[i];
    if Latest(c, all, |bs|) {
      LatestIsNotEarlier(c, bs, d, b);
    }
    forall j ensures Latest(c, all, j) <==> Latest(c, bs, j) {
      if Latest(c, bs, j) {
        assert Follows(d, bs[j]);
        assert Latest(c, all, j);
      }
    }
  }

  lemma ToTheLatest(c: Checkpoint, bs: seq<Batch>, d: Checkpoint, b: Batch, total: int)
    requires AtLatest(c, bs, d) && EndsNoEarlier(d, b)
    ensures AtLatest(c, bs + [b], Advance(d, b, total))
  {
    var all, e := bs + [b], Advance(d, b, total);
    NewLatest(c, bs, d, b);
    assert all[|bs|] == b;
    assert Latest(c, all, |bs|);
    assert Follows(e, b);
    forall i | 0 <= i < |all| && FillsIn(all[i]) != [] ensures LastTime(all[i]) <= e.lastTs.value {
      assert i < |bs| ==> all[i] == bs[i];
    }
  }

  lemma StaysAtLatest(c: Checkpoint, bs: seq<Batch>, d: Checkpoint, b: Batch)
    requires AtLatest(c, bs, d) && !EndsNoEarlier(d, b)
    ensures AtLatest(c, bs + [b], d)
  {
    var all := bs + [b];
    SameLatest(c, bs, d, b);
    forall j | Latest(c, all, j) ensures Follows(d, all[j]) {
      assert Latest(c, bs, j) && all[j] == bs[j];
    }
    forall i | 0 <= i < |all| && FillsIn(all[i]) != [] ensures d.lastTs.Some? && LastTime(all[i]) <= d.lastTs.value {
      assert i < |bs| ==> all[i] == bs[i];
    }
  }

  /** Advance keeps the checkpoint at the latest batch. */
  lemma AdvanceAtLatest(c: Checkpoint, bs: seq<Batch>, d: Checkpoint, b: Batch, total: int)
    requires AtLatest(c, bs, d)
    ensures AtLatest(c, bs + [b], Advance(d, b, total))
  {
    if EndsNoEarlier(d, b) {
      ToTheLatest(c, bs, d, b, total);
    } else {
      StaysAtLatest(c, bs, d, b);
    }
  }

  predicate NotEarlier(c: Checkpoint, d: Checkpoint) {
    c.lastTs.Some? ==> d.lastTs.Some? && c.lastTs.value <= d.lastTs.value
  }

  lemma AdvanceKeeps(c: Checkpoint, b: Batch, total: int, h: int)
    requires CursorAhead(c) && PageFrom(b, h)
    ensures CursorAhead(Advance(c, b, total))
    ensures Advance(c, b, total) != c ==> Advance(c, b, total).cursor == b.cursor && b.cursor.Some?
    ensures NotEarlier(c, Advance(c, b, total))
    ensures if EndsNoEarlier(c, b) then Follows(Advance(c, b, total), b) && Advance(c, b, total).records == total
            else Advance(c, b, total) == c
  {
    if FillsIn(b) != [] {
      BatchCursorAhead(b, h);
    }
  }

  /** Table, in-memory checkpoint and row count of a consumer that meets no failure. */
  datatype Progress = Progress(table: seq<Fill>, checkpoint: Checkpoint, total: int)

  function ConsumeOne(s: Progress, b: Batch): Progress {
    var table := InsertAll(s.table, FillsIn(b));
    var total := s.total + |table| - |s.table|;
    Progress(table, Advance(s.checkpoint, b, total), total)
  }

  function ConsumeAll(s: Progress, bs: seq<Batch>): Progress {
    if bs == [] then s else ConsumeOne(ConsumeAll(s, bs[..|bs| - 1]), bs[|bs| - 1])
  }

  /** Of the batches, the last one after which the checkpoint moved; 0 if none did. */
  function LastAdvance(s: Progress, bs: seq<Batch>): nat {
    if bs == [] then 0
    else if ShouldAdvance(ConsumeAll(s, bs[..|bs| - 1]).checkpoint, FillsIn(bs[|bs| - 1])) then |bs|
    else LastAdvance(s, bs[..|bs| - 1])
  }

  /**
   The books of a failure-free run: the total is the initial one plus all rows added, and the checkpoint's count is
   the initial total plus the rows added up to the last batch that advanced it.
   */
  lemma {:induction false} CleanBooks(s: Progress, bs: seq<Batch>)
    ensures var end := ConsumeAll(s, bs); end.total == s.total + |end.table| - |s.table|
    ensures var k := LastAdvance(s, bs);
            k <= |bs| &&
            ConsumeAll(s, bs).checkpoint.records ==
            if k == 0 then s.checkpoint.records
            else s.total + |ConsumeAll(s, bs[..k]).table| - |s.table|
    decreases |bs|
  {
    if bs != [] {
      var front := bs[..|bs| - 1];
      CleanBooks(s, front);
      var k := LastAdvance(s, front);
      assert front[..k] == bs[..k];
      assert bs[..|bs|] == bs;
    }
  }

  lemma {:induction false} ConsumedAtLatest(s: Progress, bs: seq<Batch>)
    ensures AtLatest(s.checkpoint, bs, ConsumeAll(s, bs).checkpoint)
    decreases |bs|
  {
    if bs == [] {
      AtLatestOfNone(s.checkpoint);
    } else {
      var n := |bs| - 1;
      ConsumedAtLatest(s, bs[..n]);
      assert bs[..n] + [bs[n]] == bs;
      AdvanceAtLatest(s.checkpoint, bs[..n], ConsumeAll(s, bs[..n]).checkpoint, bs[n], ConsumeAll(s, bs).total);
    }
  }

  lemma ConsumeSnoc(s: Progress, front: seq<Batch>, b: Batch)
    ensures ConsumeAll(s, front + [b]) == ConsumeOne(ConsumeAll(s, front), b)
  {
    assert (front + [b])[..|front|] == front;
  }

  /** With one more batch: either it is the latest, and the count is the total so far, or nothing changes. */
  lemma OneMoreBatch(s: Progress, front: seq<Batch>, b: Batch)
    ensures var bs := front + [b];
            || (Latest(s.checkpoint, bs, |front|) && (forall j :: Latest(s.checkpoint, bs, j) ==> j == |front|)
                && ConsumeAll(s, bs).checkpoint.records == ConsumeAll(s, bs).total)
            || ((forall j :: Latest(s.checkpoint, bs, j) <==> Latest(s.checkpoint, front, j))
                && ConsumeAll(s, bs).checkpoint == ConsumeAll(s, front).checkpoint
                && (EndsNoEarlier(s.checkpoint, b) ==> exists j :: Latest(s.checkpoint, front, j)))
  {
    var before := ConsumeAll(s, front).checkpoint;
    ConsumedAtLatest(s, front);
    ConsumeSnoc(s, front, b);
    if EndsNoEarlier(before, b) {
      NewLatest(s.checkpoint, front, before, b);
    } else {
      SameLatest(s.checkpoint, front, before, b);
    }
  }

  lemma {:induction false} RecordsUpToLatest(s: Progress, bs: seq<Batch>, j: nat)
    requires Latest(s.checkpoint, bs, j)
    ensures ConsumeAll(s, bs).checkpoint.records == ConsumeAll(s, bs[..j + 1]).total
    decreases |bs|
  {
    var n := |bs| - 1;
    assert bs[..n] + [bs[n]] == bs;
    OneMoreBatch(s, bs[..n], bs[n]);
    if j == n {
      assert bs[..j + 1] == bs;
    }
    if Latest(s.checkpoint, bs[..n], j) {
      RecordsUpToLatest(s, bs[..n], j);
      assert bs[..n][..j + 1] == bs[..j + 1];
    }
  }

  /**
   The checkpoint after a failure-free run, said without replaying it: the latest batch gives its cursor, time and
   block, and its count is the initial one plus the rows that the batches up to that one have added. There is a latest
   batch exactly if some batch ends no earlier than the initial checkpoint.
   */
  lemma CheckpointIsLatest(s: Progress, bs: seq<Batch>)
    ensures AtLatest(s.checkpoint, bs, ConsumeAll(s, bs).checkpoint)
    ensures forall j :: Latest(s.checkpoint, bs, j) ==>
                          ConsumeAll(s, bs).checkpoint.records ==
                          s.total + |InsertAll(s.table, AllFills(bs[..j + 1]))| - |s.table|
    ensures (exists j :: Latest(s.checkpoint, bs, j)) <==>
            exists i :: 0 <= i < |bs| && EndsNoEarlier(s.checkpoint, bs[i])
  {
    ConsumedAtLatest(s, bs);
    forall j | Latest(s.checkpoint, bs, j)
      ensures ConsumeAll(s, bs).checkpoint.records ==
              s.total + |InsertAll(s.table, AllFills(bs[..j + 1]))| - |s.table|
    {
      RecordsUpToLatest(s, bs, j);
      CleanBooks(s, bs[..j + 1]);
      ConsumedTable(s, bs[..j + 1]);
    }
    if j :| Latest(s.checkpoint, bs, j) {
      assert EndsNoEarlier(s.checkpoint, bs[j]);
    }
    if i :| 0 <= i < |bs| && EndsNoEarlier(s.checkpoint, bs[i]) {
      LatestFound(s, bs, i);
    }
  }

  lemma {:induction false} LatestFound(s: Progress, bs: seq<Batch>, i: nat)
    requires i < |bs| && EndsNoEarlier(s.checkpoint, bs[i])
    ensures exists j :: Latest(s.checkpoint, bs, j)
    decreases |bs|
  {
    var n := |bs| - 1;
    assert bs[..n] + [bs[n]] == bs;
    OneMoreBatch(s, bs[..n], bs[n]);
    if i < n {
      LatestFound(s, bs[..n], i);
    }
  }

  /** What the batches leave in the table is what inserting all their fills in order leaves. */
  lemma {:induction false} ConsumedTable(s: Progress, bs: seq<Batch>)
    ensures ConsumeAll(s, bs).table == InsertAll(s.table, AllFills(bs))
    decreases |bs|
  {
    if bs != [] {
      var front := bs[..|bs| - 1];
      ConsumedTable(s, front);
      InsertAllAppend(s.table, AllFills(front), FillsIn(bs[|bs| - 1]));
    }
  }

  function AllFills(bs: seq<Batch>): seq<Fill> {
    if bs == [] then [] else AllFills(bs[..|bs| - 1]) + FillsIn(bs[|bs| - 1])
  }

  class Pipeline {
    const store: Store
    const startFrom: int
    const maxRetries: nat

    constructor (store: Store, startFrom: int, maxRetries: nat)
      ensures this.store == store && this.startFrom == startFrom && this.maxRetries == maxRetries
    {
      this.store := store;
      this.startFrom := startFrom;
      this.maxRetries := maxRetries;
    }

    /** The auto-refresh: a reset is saved at once, and a failing save ends the run. */
    method Refresh(loaded: Checkpoint, end: int) returns (ok: bool, checkpoint: Checkpoint)
      modifies store`saved, store`clock
      ensures ok ==> var (c, wasReset) := AutoRefresh(loaded, startFrom, end, store.fills);
                     checkpoint == c && store.saved == if wasReset then Some(c) else old(store.saved)
      ensures !ok ==> store.saved == old(store.saved) && store.Faulted(old(store.clock))
      ensures old(store.clock) <= store.clock
    {
      checkpoint := loaded;
      if checkpoint.lastTs.Some? {
        var checkpointTs := checkpoint.lastTs.value;
        var recentMissing := store.GetMissingHours(startFrom, Min(checkpointTs, end));
        if |recentMissing| > 12 {
          var earliestGap := recentMissing[0];
          checkpoint := checkpoint.(cursor := Some(earliestGap));
          checkpoint := checkpoint.(lastTs := Some(HourStart(earliestGap) - 1));
          ok := store.SaveCheckpoint(checkpoint);
          return;
        }
      }
      return true, checkpoint;
    }

    /** The smart restart. */
    method ChooseResume(checkpoint: Checkpoint, end: int) returns (plan: Plan)
      ensures plan == ResumePoint(checkpoint, startFrom, end, store.fills)
    {
      if checkpoint.lastTs.None? {
        return Resume(Pos(startFrom, None));
      }
      var ts := checkpoint.lastTs.value;
      if ts >= end {
        return PastEnd;
      }
      if ts <= startFrom {
        return Resume(Pos(startFrom, None));
      }
      var gaps := store.GetMissingHours(startFrom, ts);
      var gapsAfterStart := FilterNotBefore(gaps, startFrom);
      if |gapsAfterStart| > 24 {
        var firstGap := gapsAfterStart[0];
        return Resume(Pos(HourStart(firstGap), Some(firstGap)));
      }
      return Resume(Pos(ts, checkpoint.cursor));
    }

    /** Whether the whole range is there already; others may write between the two queries. */
    method AlreadyComplete(end: int, others: seq<Fill>) returns (complete: bool, ghost atExists: seq<Fill>)
      requires store.Valid()
      modifies store`fills, store`clock
      ensures store.Valid() && atExists == old(store.fills) <= store.fills && store.clock == old(store.clock)
      ensures complete <==> CountIn(atExists, startFrom, end) > 0 && MissingHours(store.fills, startFrom, end) == []
    {
      atExists := store.fills;
      var hasData, _ := store.CheckTimeRangeExists(startFrom, end);
      store.OtherWriters(others);
      complete := false;
      if hasData {
        var missing := store.GetMissingHours(startFrom, end);
        complete := missing == [];
      }
    }

    /**
     The head of `run_backfill`. Other processes write between its queries (`others`). It does what PlanBackfill
     says about the table at each query; only a reset is saved, and a failing save ends the run.
     */
    method Prepare(end: int, others: nat -> seq<Fill>)
      returns (r: Result<Plan>, checkpoint: Checkpoint, ghost q: Queries)
      requires store.Valid()
      modifies store
      ensures store.Valid() && old(store.fills) <= store.fills
      ensures r.Ok? ==>
                var p := PlanBackfill(old(store.saved), startFrom, end, q);
                && q.atReset == old(store.fills) && Growing(q) && q.atGaps <= store.fills
                && r.value == p.plan && checkpoint == p.checkpoint
                && store.saved == if p.wasReset then Some(p.checkpoint) else old(store.saved)
      ensures r.Err? ==> store.saved == old(store.saved) && store.Faulted(old(store.clock))
      ensures old(store.clock) <= store.clock
    {
      checkpoint := if store.saved.Some? then store.saved.value else FreshCheckpoint();
      q := Queries(store.fills, store.fills, store.fills, store.fills);
      var ok;
      ok, checkpoint := Refresh(checkpoint, end);
      if !ok {
        return Err(Retryable), checkpoint, q;
      }
      store.OtherWriters(others(0));
      var complete;
      ghost var atExists;
      complete, atExists := AlreadyComplete(end, others(1));
      q := Queries(q.atReset, atExists, store.fills, store.fills);
      if complete {
        return Ok(Complete), checkpoint, q;
      }
      store.OtherWriters(others(2));
      q := q.(atGaps := store.fills);
      var plan := ChooseResume(checkpoint, end);
      return Ok(plan), checkpoint, q;
    }

    method FilterNotBefore(hours: seq<int>, start: int) returns (kept: seq<int>)
      ensures kept == NotBefore(hours, start)
    {
      kept := [];
      for i := 0 to |hours|
        invariant kept + NotBefore(hours[i..], start) == NotBefore(hours, start)
      {
        if HourStart(hours[i]) >= start {
          kept := kept + [hours[i]];
        }
      }
    }

    /** One batch: insert with retries, then the in-memory checkpoint. */
    method ProcessBatch(c: Checkpoint, batch: Batch, total: int)
      returns (ok: bool, checkpoint: Checkpoint, newTotal: int, advanced: bool, ghost clean: bool)
      requires store.Valid() && CursorAhead(c) && IsPage(batch)
      modifies store`fills, store`clock
      ensures store.Valid() && old(store.fills) <= store.fills && old(store.clock) <= store.clock
      ensures !ok ==> store.Faulted(old(store.clock))
      ensures CursorAhead(checkpoint) && NotEarlier(c, checkpoint)
      ensures ok ==> store.fills == InsertAll(old(store.fills), FillsIn(batch))
      ensures ok ==> checkpoint == Advance(c, batch, newTotal) && advanced == ShouldAdvance(c, FillsIn(batch))
      ensures ok ==> if EndsNoEarlier(c, batch) then Follows(checkpoint, batch) && checkpoint.records == newTotal
                     else checkpoint == c
      ensures ok ==> total <= newTotal <= total + |store.fills| - |old(store.fills)|
      ensures ok && clean ==> newTotal == total + |store.fills| - |old(store.fills)|
      ensures !ok ==> checkpoint == c && newTotal == total && !clean
      ensures !ok ==> PrefixInserted(old(store.fills), FillsIn(batch), store.fills)
    {
      ghost var h :| PageFrom(batch, h);
      var fills := FillsIn(batch);
      var exhausted: nat -> bool := *;
      var inserted, attempts := store.InsertWithRetries(fills, maxRetries, exhausted);
      if inserted.Err? {
        return false, c, total, false, false;
      }
      newTotal := total + inserted.value;
      AdvanceKeeps(c, batch, newTotal, h);
      checkpoint := c;
      advanced := ShouldAdvance(c, fills);
      if advanced {
        var last := fills[|fills| - 1];
        checkpoint := checkpoint.(lastTs := Some(last.timestamp), lastBlock := last.block);
        checkpoint := checkpoint.(cursor := batch.cursor, records := newTotal);
      }
      return true, checkpoint, newTotal, advanced, attempts == 1;
    }

    /**
     The consumer loop over the batches it receives, then the final save. `done` batches were inserted completely;
     of the next one a failure leaves a prefix, and nothing of any later one. `clean` means no attempt failed.
     */
    method Consume(loaded: Checkpoint, batches: seq<Batch>)
      returns (ok: bool, checkpoint: Checkpoint, total: int, done: nat, ghost clean: bool)
      requires store.Valid() && CursorAhead(loaded) && FromSource(batches)
      requires loaded.records <= |store.fills|
      modifies store
      ensures store.Valid() && old(store.fills) <= store.fills
      ensures done <= |batches| && (ok ==> done == |batches|)
      ensures old(store.clock) <= store.clock && (!ok ==> store.Faulted(old(store.clock)))
      ensures LeftBehind(old(store.fills), batches, done, store.fills)
      ensures CursorAhead(checkpoint) && NotEarlier(loaded, checkpoint) && checkpoint.records <= total <= |store.fills|
      ensures store.saved == old(store.saved) || SavedSoundly(store.saved, store.fills)
      ensures ok ==> store.saved == Some(checkpoint) || (checkpoint == loaded && store.saved == old(store.saved))
      ensures AtLatest(loaded, batches[..done], checkpoint)
      ensures store.saved == old(store.saved) || SavedOnTheWay(loaded, batches, done, store.saved)
      ensures ok && clean ==>
                Progress(store.fills, checkpoint, total) ==
                ConsumeAll(Progress(old(store.fills), loaded, loaded.records), batches)
    {
      checkpoint, total, done, clean := loaded, loaded.records, 0, true;
      var anyUpdates := false;
      ghost var start := Start(Progress(store.fills, loaded, loaded.records), store.saved, batches);
      RunningAtFirst(start);
      ok := true;
      while done < |batches|
        invariant store.Valid() && old(store.clock) <= store.clock
        invariant Running(start, done, store.fills, store.saved, checkpoint, total, anyUpdates, clean)
      {
        ok, checkpoint, total, done, anyUpdates, clean :=
          ConsumeOneBatch(batches, checkpoint, total, done, anyUpdates, start, clean);
        if !ok {
          return;
        }
      }
      RunningStops(start, done, store.fills, store.saved, checkpoint, total, anyUpdates, clean);
      assert batches[..done] == batches;
      if anyUpdates {
        SavesOnTheWay(start, done, store.fills, store.saved, checkpoint, total, anyUpdates, clean);
        ok := store.SaveCheckpoint(checkpoint);
      }
    }

    /** One round of the consumer loop: the batch, then perhaps a periodic save. */
    method ConsumeOneBatch(batches: seq<Batch>, c: Checkpoint, t: int, k: nat, updates: bool,
                           ghost start: Start, ghost wasClean: bool)
      returns (ok: bool, checkpoint: Checkpoint, total: int, done: nat, anyUpdates: bool, ghost clean: bool)
      requires store.Valid() && FromSource(batches) && k < |batches| && batches == start.batches
      requires Running(start, k, store.fills, store.saved, c, t, updates, wasClean)
      modifies store
      ensures store.Valid() && old(store.clock) <= store.clock && (!ok ==> store.Faulted(old(store.clock)))
      ensures ok ==> done == k + 1
                     && Running(start, done, store.fills, store.saved, checkpoint, total, anyUpdates, clean)
      ensures !ok ==> Stopped(start, done, store.fills, store.saved, checkpoint, total)
    {
      ghost var table, saved := store.fills, store.saved;
      var advanced;
      ok, checkpoint, total, advanced, clean := ProcessBatch(c, batches[k], t);
      done, anyUpdates := k, updates;
      if !ok {
        BatchFails(start, k, table, saved, c, t, updates, wasClean, store.fills);
        return;
      }
      RunningNext(start, k, table, saved, c, t, updates, wasClean, checkpoint, total, clean);
      clean := wasClean && clean;
      anyUpdates := updates || advanced;
      done := k + 1;
      RunningStops(start, done, store.fills, saved, checkpoint, total, anyUpdates, clean);
      var intervalPassed: bool := *;
      if advanced && intervalPassed {
        SavesOnTheWay(start, done, store.fills, saved, checkpoint, total, anyUpdates, clean);
        ok := store.SaveCheckpoint(checkpoint);
      }
    }
  }

  /** A saved row that respects the cursor rule and counts no more rows than there are. */
  ghost predicate SavedSoundly(saved: Option<Checkpoint>, table: seq<Fill>) {
    saved.Some? && CursorAhead(saved.value) && saved.value.records <= |table|
  }

  /** The row was saved after one of the first `k` batches, and stands at the latest one by then. */
  ghost predicate SavedOnTheWay(c: Checkpoint, batches: seq<Batch>, k: nat, saved: Option<Checkpoint>)
    requires k <= |batches|
  {
    saved.Some? && exists m :: 0 < m <= k && AtLatest(c, batches[..m], saved.value)
  }

  datatype Start = Start(progress: Progress, saved: Option<Checkpoint>, batches: seq<Batch>)

  /** The invariant of the consumer loop after `k` batches. */
  ghost predicate Running(start: Start, k: nat, table: seq<Fill>, saved: Option<Checkpoint>,
                          c: Checkpoint, total: int, anyUpdates: bool, clean: bool)
  {
    && k <= |start.batches|
    && start.progress.table <= table == ConsumeAll(start.progress, start.batches[..k]).table
    && CursorAhead(c) && NotEarlier(start.progress.checkpoint, c) && c.records <= total <= |table|
    && (saved == start.saved || SavedSoundly(saved, table))
    && Stands(start, k, saved, c)
    && (anyUpdates ==> k > 0)
    && (!anyUpdates ==> c == start.progress.checkpoint && saved == start.saved)
    && (clean ==> Progress(table, c, total) == ConsumeAll(start.progress, start.batches[..k]))
  }

  /** Wherever the loop stops, `done` batches are in, and checkpoint and row stand at the latest batch by then. */
  ghost predicate Stopped(start: Start, done: nat, table: seq<Fill>, saved: Option<Checkpoint>,
                          c: Checkpoint, total: int)
  {
    && done <= |start.batches|
    && start.progress.table <= table && LeftBehind(start.progress.table, start.batches, done, table)
    && CursorAhead(c) && NotEarlier(start.progress.checkpoint, c) && c.records <= total <= |table|
    && (saved == start.saved || SavedSoundly(saved, table))
    && Stands(start, done, saved, c)
  }

  /** Checkpoint and row stand at the latest of the first `k` batches. */
  ghost predicate Stands(start: Start, k: nat, saved: Option<Checkpoint>, c: Checkpoint)
    requires k <= |start.batches|
  {
    && AtLatest(start.progress.checkpoint, start.batches[..k], c)
    && (saved == start.saved || SavedOnTheWay(start.progress.checkpoint, start.batches, k, saved))
  }

  lemma StandsNext(start: Start, k: nat, saved: Option<Checkpoint>, c: Checkpoint, total: int)
    requires k < |start.batches| && Stands(start, k, saved, c)
    ensures Stands(start, k + 1, saved, Advance(c, start.batches[k], total))
  {
    assert start.batches[..k] + [start.batches[k]] == start.batches[..k + 1];
    AdvanceAtLatest(start.progress.checkpoint, start.batches[..k], c, start.batches[k], total);
  }

  lemma RunningAtFirst(start: Start)
    requires var s := start.progress;
             CursorAhead(s.checkpoint) && s.checkpoint.records == s.total <= |s.table|
    ensures var s := start.progress;
            Running(start, 0, s.table, start.saved, s.checkpoint, s.total, false, true)
  {
    AtLatestOfNone(start.progress.checkpoint);
    assert start.batches[..0] == [];
  }

  lemma RunningStops(start: Start, k: nat, table: seq<Fill>, saved: Option<Checkpoint>,
                     c: Checkpoint, total: int, anyUpdates: bool, clean: bool)
    requires Running(start, k, table, saved, c, total, anyUpdates, clean)
    ensures Stopped(start, k, table, saved, c, total)
  {
    NothingAfter(start.progress, start.batches, k);
  }

  /** A save puts the row where the checkpoint stands. */
  lemma SavesOnTheWay(start: Start, k: nat, table: seq<Fill>, saved: Option<Checkpoint>,
                      c: Checkpoint, total: int, anyUpdates: bool, clean: bool)
    requires Running(start, k, table, saved, c, total, anyUpdates, clean) && k > 0 && anyUpdates
    ensures SavedOnTheWay(start.progress.checkpoint, start.batches, k, Some(c))
    ensures Running(start, k, table, Some(c), c, total, anyUpdates, clean)
  {
    assert AtLatest(start.progress.checkpoint, start.batches[..k], Some(c).value);
  }

  /** A batch that fails leaves a part of its fills, and everything else as it was. */
  lemma BatchFails(start: Start, k: nat, table: seq<Fill>, saved: Option<Checkpoint>,
                   c: Checkpoint, total: int, anyUpdates: bool, clean: bool, u: seq<Fill>)
    requires Running(start, k, table, saved, c, total, anyUpdates, clean) && k < |start.batches|
    requires table <= u && PrefixInserted(table, FillsIn(start.batches[k]), u)
    ensures Stopped(start, k, u, saved, c, total)
  {
    FailureLeaves(start.progress, start.batches, k, u);
  }

  lemma RunningNext(start: Start, k: nat, table: seq<Fill>, saved: Option<Checkpoint>,
                    c: Checkpoint, total: int, anyUpdates: bool, clean: bool,
                    d: Checkpoint, newTotal: int, cleanly: bool)
    requires Running(start, k, table, saved, c, total, anyUpdates, clean) && k < |start.batches|
    requires var b := start.batches[k];
             var next := InsertAll(table, FillsIn(b));
             && d == Advance(c, b, newTotal) && CursorAhead(d) && NotEarlier(c, d)
             && total <= newTotal <= total + |next| - |table|
             && (cleanly ==> newTotal == total + |next| - |table|)
    ensures var b := start.batches[k];
            Running(start, k + 1, InsertAll(table, FillsIn(b)), saved, d, newTotal,
                    anyUpdates || ShouldAdvance(c, FillsIn(b)), clean && cleanly)
  {
    ConsumeNext(start.progress, start.batches, k);
    StandsNext(start, k, saved, c, newTotal);
    InsertAllExtends(table, FillsIn(start.batches[k]));
  }

  /** The table after `done` complete batches, and perhaps a part of the next one. */
  ghost predicate LeftBehind(t: seq<Fill>, batches: seq<Batch>, done: nat, u: seq<Fill>)
    requires done <= |batches|
  {
    var inserted := InsertAll(t, AllFills(batches[..done]));
    if done == |batches| then u == inserted else PrefixInserted(inserted, FillsIn(batches[done]), u)
  }

  lemma ConsumeNext(s: Progress, batches: seq<Batch>, k: nat)
    requires k < |batches|
    ensures ConsumeAll(s, batches[..k + 1]) == ConsumeOne(ConsumeAll(s, batches[..k]), batches[k])
  {
    assert batches[..k + 1][..k] == batches[..k];
  }

  lemma NothingAfter(s: Progress, batches: seq<Batch>, k: nat)
    requires k <= |batches|
    ensures LeftBehind(s.table, batches, k, ConsumeAll(s, batches[..k]).table)
  {
    ConsumedTable(s, batches[..k]);
    if k < |batches| {
      NothingYet(InsertAll(s.table, AllFills(batches[..k])), FillsIn(batches[k]));
    }
  }

  lemma FailureLeaves(s: Progress, batches: seq<Batch>, k: nat, u: seq<Fill>)
    requires k < |batches| && PrefixInserted(ConsumeAll(s, batches[..k]).table, FillsIn(batches[k]), u)
    ensures LeftBehind(s.table, batches, k, u)
  {
    ConsumedTable(s, batches[..k]);
  }

  lemma NothingYet(t: seq<Fill>, fs: seq<Fill>)
    ensures PrefixInserted(t, fs, t)
  {
    assert fs[..0] == [];
  }
}
