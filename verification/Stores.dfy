/** The store: chunked inserts with fallback and partial commits, retries, queries and the checkpoint row. */
module Stores {
  import opened Wrappers
  import opened Hours
  import opened Fills
  import opened Gaps
  import opened Retry

  /** A checkpoint; the cursor is the hour index that its text names. */
  datatype Checkpoint = Checkpoint(cursor: Option<int>, lastTs: Option<int>, lastBlock: Option<int>, records: int)

  /** The hour that a run continuing from the checkpoint fetches next. */
  function ResumeHour(c: Checkpoint): int
    requires c.lastTs.Some?
  {
    if c.cursor.Some? then c.cursor.value else HourOf(c.lastTs.value)
  }

  /** A saved cursor is absent, or names an hour after the one of the last record. */
  predicate CursorAhead(c: Checkpoint) {
    c.cursor.Some? ==> c.lastTs.Some? && HourOf(c.lastTs.value) < c.cursor.value
  }

  const CHUNK_SIZE: nat := 200_000
  const BATCH_SIZE: nat := 5_000

  /** The rows of one exchange and its checkpoint row. `faults` says which statements fail, `clock` counts them. */
  class Store {
    const faults: nat -> bool
    var clock: nat
    var fills: seq<Fill>
    var saved: Option<Checkpoint>

    ghost predicate Valid()
      reads this
    {
      UniqueKeys(fills)
    }

    constructor (faults: nat -> bool)
      ensures Valid() && fills == [] && saved == None && this.faults == faults && clock == 0
    {
      this.faults, clock, fills, saved := faults, 0, [], None;
    }

    /** One statement or transaction is sent; it succeeds unless it is one of the faulty ones. */
    method Execute() returns (ok: bool)
      modifies this`clock
      ensures clock == old(clock) + 1 && ok == !faults(old(clock))
    {
      ok := !faults(clock);
      clock := clock + 1;
    }

    /** Since `from`, a statement failed. */
    ghost predicate Faulted(from: nat)
      reads this
    {
      FaultIn(faults, from, clock)
    }

    /** COPY into a temporary table, then INSERT ... SELECT ... ON CONFLICT DO NOTHING, in one transaction. */
    method BulkInsertWithCopy(chunk: seq<Fill>) returns (r: Result<nat>)
      requires Valid()
      modifies this`fills, this`clock
      ensures Valid()
      ensures r.Ok? ==> fills == InsertAll(old(fills), chunk) && |fills| == |old(fills)| + r.value
      ensures r.Err? ==> fills == old(fills) && Faulted(old(clock))
      ensures old(clock) <= clock
    {
      var ok := Execute();
      if !ok {
        return Err(Retryable);
      }
      InsertAllExtends(fills, chunk);
      InsertAllUnique(fills, chunk);
      var before := |fills|;
      fills := InsertAll(fills, chunk);
      return Ok(|fills| - before);
    }

    /** Multi-row VALUES statements, one transaction per 5000 rows; the batches before a failure stay committed. */
    method BulkInsertWithValues(chunk: seq<Fill>) returns (r: Result<nat>)
      requires Valid()
      modifies this`fills, this`clock
      ensures Valid() && old(fills) <= fills
      ensures r.Ok? ==> fills == InsertAll(old(fills), chunk) && |fills| == |old(fills)| + r.value
      ensures r.Err? ==> PrefixInserted(old(fills), chunk, fills) && Faulted(old(clock))
      ensures r.Err? ==> WholeBatches(old(fills), chunk, fills)
      ensures old(clock) <= clock
    {
      var totalInserted: nat := 0;
      var i := 0;
      assert chunk[..0] == [];
      while i < |chunk|
        invariant 0 <= i <= |chunk| && Valid() && (i == |chunk| || i % 5_000 == 0)
        invariant fills == InsertAll(old(fills), chunk[..i]) && |fills| == |old(fills)| + totalInserted
        invariant old(clock) <= clock
      {
        var n := if i + BATCH_SIZE < |chunk| then i + BATCH_SIZE else |chunk|;
        var ok := Execute();
        if !ok {
          assert UpToBatch(old(fills), chunk, i, fills);
          InsertAllExtends(old(fills), chunk[..i]);
          return Err(Retryable);
        }
        var before := |fills|;
        InsertSlice(old(fills), chunk, i, n);
        InsertAllExtends(fills, chunk[i..n]);
        InsertAllUnique(fills, chunk[i..n]);
        fills := InsertAll(fills, chunk[i..n]);
        totalInserted := totalInserted + (|fills| - before);
        i := n;
      }
      assert chunk[..|chunk|] == chunk;
      InsertAllExtends(old(fills), chunk);
      return Ok(totalInserted);
    }

    method BulkInsertChunk(chunk: seq<Fill>) returns (r: Result<nat>)
      requires Valid()
      modifies this`fills, this`clock
      ensures Valid() && old(fills) <= fills
      ensures r.Ok? ==> fills == InsertAll(old(fills), chunk) && |fills| == |old(fills)| + r.value
      ensures r.Err? ==> PrefixInserted(old(fills), chunk, fills) && Faulted(old(clock))
      ensures r.Err? ==> WholeBatches(old(fills), chunk, fills)
      ensures old(clock) <= clock
    {
      InsertAllExtends(fills, chunk);
      r := BulkInsertWithCopy(chunk);
      if r.Err? {
        r := BulkInsertWithValues(chunk);
      }
    }

    /** `insert_fills`: chunks of 200000; a failure leaves exactly a prefix of the fills inserted. */
    method InsertFills(batch: seq<Fill>) returns (r: Result<nat>)
      requires Valid()
      modifies this`fills, this`clock
      ensures Valid() && old(fills) <= fills
      ensures r.Ok? ==> fills == InsertAll(old(fills), batch) && |fills| == |old(fills)| + r.value
      ensures r.Err? ==> PrefixInserted(old(fills), batch, fills) && Faulted(old(clock))
      ensures r.Err? ==> WholeBatches(old(fills), batch, fills)
      ensures old(clock) <= clock
    {
      if batch == [] {
        return Ok(0);
      }
      var totalInserted: nat := 0;
      var i := 0;
      assert batch[..0] == [];
      while i < |batch|
        invariant 0 <= i <= |batch| && Valid() && old(fills) <= fills && (i == |batch| || i % 5_000 == 0)
        invariant fills == InsertAll(old(fills), batch[..i]) && |fills| == |old(fills)| + totalInserted
        invariant old(clock) <= clock
      {
        var n := if i + CHUNK_SIZE < |batch| then i + CHUNK_SIZE else |batch|;
        InsertSlice(old(fills), batch, i, n);
        ghost var before := fills;
        var inserted := BulkInsertChunk(batch[i..n]);
        if inserted.Err? {
          PrefixOfSlice(old(fills), batch, i, n, fills);
          BatchesOfSlice(old(fills), batch, i, n, fills);
          return inserted;
        }
        totalInserted := totalInserted + inserted.value;
        i := n;
      }
      assert batch[..|batch|] == batch;
      return Ok(totalInserted);
    }

    /**
     `insert_fills` under `retry_with_backoff`. Whatever the failed attempts left behind, success ends in the table
     that inserts the fills one by one; the count is what the last attempt added, all of it if that was the first.
     */
    method InsertWithRetries(batch: seq<Fill>, maxRetries: nat, exhausted: nat -> bool)
      returns (r: Result<nat>, attempts: nat)
      requires Valid()
      modifies this`fills, this`clock
      ensures Valid() && old(fills) <= fills
      ensures 1 <= attempts <= AttemptLimit(maxRetries) && (attempts == 1 || attempts <= maxRetries)
      ensures r.Err? ==> attempts == AttemptLimit(maxRetries) || exhausted(attempts - 1)
      ensures r.Ok? ==> fills == InsertAll(old(fills), batch)
      ensures r.Ok? ==> |old(fills)| + r.value <= |fills|
      ensures r.Ok? && attempts == 1 ==> |old(fills)| + r.value == |fills|
      ensures r.Err? ==> PrefixInserted(old(fills), batch, fills) && Faulted(old(clock))
      ensures old(clock) <= clock
    {
      attempts := 0;
      assert batch[..0] == [];
      while true
        invariant attempts == 0 || attempts < maxRetries
        invariant Valid() && old(fills) <= fills
        invariant PrefixInserted(old(fills), batch, fills)
        invariant attempts == 0 ==> fills == old(fills)
        invariant old(clock) <= clock
        decreases AttemptLimit(maxRetries) - attempts
      {
        attempts := attempts + 1;
        ghost var before := fills;
        r := InsertFills(batch);
        PrefixThenAgain(old(fills), batch, before);
        if r.Ok? {
          return;
        }
        PrefixThenPrefix(old(fills), batch, before, fills);
        if attempts >= maxRetries {
          return;
        }
        if exhausted(attempts - 1) {
          return;
        }
      }
    }

    /** Other processes may add rows at any time; nothing deletes any. */
    method OtherWriters(others: seq<Fill>)
      requires Valid()
      modifies this`fills, this`clock
      ensures Valid() && fills == InsertAll(old(fills), others) && old(fills) <= fills && clock == old(clock)
    {
      InsertAllExtends(fills, others);
      InsertAllUnique(fills, others);
      fills := InsertAll(fills, others);
    }

    method SaveCheckpoint(c: Checkpoint) returns (ok: bool)
      modifies this`saved, this`clock
      ensures saved == if ok then Some(c) else old(saved)
      ensures clock == old(clock) + 1 && (!ok ==> Faulted(old(clock)))
    {
      ok := Execute();
      if ok {
        saved := Some(c);
      }
    }

    method CheckTimeRangeExists(start: int, end: int) returns (hasData: bool, count: nat)
      ensures count == CountIn(fills, start, end) && (hasData <==> count > 0)
      ensures count == |Between(fills, start, end)|
    {
      CountIsBetween(fills, start, end);
      count := 0;
      for i := 0 to |fills|
        invariant count == CountIn(fills[..i], start, end)
      {
        assert fills[..i + 1][..i] == fills[..i];
        if start <= fills[i].timestamp < end {
          count := count + 1;
        }
      }
      assert fills[..|fills|] == fills;
      hasData := count > 0;
    }

    /** The common table expression `hourly_counts`: the rows between `start` and `end`, grouped by hour. */
    method HourlyCounts(start: int, end: int) returns (counts: map<int, nat>)
      ensures forall h :: (if h in counts then counts[h] else 0) == HourCount(fills, h, start, end)
      ensures forall h :: (if h in counts then counts[h] else 0) ==
                          CountIn(fills, Max(start, HourStart(h)), Min(end, HourStart(h + 1)))
    {
      counts := map[];
      for i := 0 to |fills|
        invariant forall h :: (if h in counts then counts[h] else 0) == HourCount(fills[..i], h, start, end)
      {
        assert fills[..i + 1][..i] == fills[..i];
        var f := fills[i];
        if start <= f.timestamp < end {
          var h := HourOf(f.timestamp);
          counts := counts[h := (if h in counts then counts[h] else 0) + 1];
        }
      }
      assert fills[..|fills|] == fills;
      forall h ensures HourCount(fills, h, start, end) ==
                       CountIn(fills, Max(start, HourStart(h)), Min(end, HourStart(h + 1)))
      {
        HourCountIs(fills, h, start, end);
      }
    }

    /** The query of `get_missing_hours`: the series of hours, left-joined to the grouped counts. */
    method GetMissingHours(start: int, end: int) returns (missing: seq<int>)
      ensures missing == MissingHours(fills, start, end)
    {
      var counts := HourlyCounts(start, end);
      missing := [];
      var h := HourOf(start);
      while h < HourOf(end)
        invariant missing + MissingFrom(fills, start, end, h) == MissingHours(fills, start, end)
      {
        if h !in counts || counts[h] < SUFFICIENT {
          missing := missing + [h];
        }
        h := h + 1;
      }
    }
  }

  lemma InsertSlice(t: seq<Fill>, fs: seq<Fill>, i: nat, j: nat)
    requires i <= j <= |fs|
    ensures InsertAll(t, fs[..j]) == InsertAll(InsertAll(t, fs[..i]), fs[i..j])
  {
    assert fs[..j] == fs[..i] + fs[i..j];
    InsertAllAppend(t, fs[..i], fs[i..j]);
  }

  /** A number of whole batches of 5000 of `fs` is inserted, and nothing else. */
  ghost predicate WholeBatches(t: seq<Fill>, fs: seq<Fill>, u: seq<Fill>) {
    exists k: nat :: UpToBatch(t, fs, k, u)
  }

  ghost predicate UpToBatch(t: seq<Fill>, fs: seq<Fill>, k: nat, u: seq<Fill>) {
    k <= |fs| && k % 5_000 == 0 && u == InsertAll(t, fs[..k])
  }

  lemma BatchesOfSlice(t: seq<Fill>, fs: seq<Fill>, i: nat, j: nat, u: seq<Fill>)
    requires i <= j <= |fs| && i % 5_000 == 0 && WholeBatches(InsertAll(t, fs[..i]), fs[i..j], u)
    ensures WholeBatches(t, fs, u)
  {
    var k: nat :| UpToBatch(InsertAll(t, fs[..i]), fs[i..j], k, u);
    BatchOfSlice(t, fs, i, j, k, u);
  }

  lemma BatchOfSlice(t: seq<Fill>, fs: seq<Fill>, i: nat, j: nat, k: nat, u: seq<Fill>)
    requires i <= j <= |fs| && i % 5_000 == 0 && UpToBatch(InsertAll(t, fs[..i]), fs[i..j], k, u)
    ensures UpToBatch(t, fs, i + k, u)
  {
    InsertPartOfSlice(t, fs, i, j, k);
  }

  lemma InsertPartOfSlice(t: seq<Fill>, fs: seq<Fill>, i: nat, j: nat, k: nat)
    requires i <= j <= |fs| && k <= j - i
    ensures InsertAll(InsertAll(t, fs[..i]), fs[i..j][..k]) == InsertAll(t, fs[..i + k])
  {
    assert fs[i..j][..k] == fs[i..i + k];
    InsertSlice(t, fs, i, i + k);
  }

  lemma PrefixOfSlice(t: seq<Fill>, fs: seq<Fill>, i: nat, j: nat, u: seq<Fill>)
    requires i <= j <= |fs| && PrefixInserted(InsertAll(t, fs[..i]), fs[i..j], u)
    ensures PrefixInserted(t, fs, u)
  {
    var k :| 0 <= k <= |fs[i..j]| && u == InsertAll(InsertAll(t, fs[..i]), fs[i..j][..k]);
    InsertPartOfSlice(t, fs, i, j, k);
  }

  /** A complete insert after a partial one is the complete insert. */
  lemma PrefixThenAgain(t: seq<Fill>, fs: seq<Fill>, u: seq<Fill>)
    requires PrefixInserted(t, fs, u)
    ensures InsertAll(u, fs) == InsertAll(t, fs)
  {
    var k :| 0 <= k <= |fs| && u == InsertAll(t, fs[..k]);
    PrefixAbsorbed(t, fs, k, |fs|);
    assert fs[..|fs|] == fs;
  }

  /** A partial insert after a partial one is a partial insert. */
  lemma PrefixThenPrefix(t: seq<Fill>, fs: seq<Fill>, u: seq<Fill>, v: seq<Fill>)
    requires PrefixInserted(t, fs, u) && PrefixInserted(u, fs, v)
    ensures PrefixInserted(t, fs, v)
  {
    var i :| 0 <= i <= |fs| && u == InsertAll(t, fs[..i]);
    var j :| 0 <= j <= |fs| && v == InsertAll(u, fs[..j]);
    PrefixAbsorbed(t, fs, i, j);
  }
}
