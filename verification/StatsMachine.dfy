/** The statistics updater with everything running at once: ingestion, the bounded queue, and four hour updates. */
module StatsMachine {
  import opened Wrappers
  import opened Hours
  import opened Fills
  import opened StatsUpdater

  /** The worker: idle, about to ask for the affected hours, or updating; `flying` holds what statements have read. */
  datatype Worker =
    | Waiting
    | Asking(request: Range)
    | Updating(todo: set<int>, flying: map<int, map<int, Stats>>)

  /**
   `pending` are the requests of committed batches that have not reached the queue yet, `lost` those that were
   dropped or whose query failed, and `failed` the hours whose update failed.
   */
  datatype State = State(table: seq<Row>, stats: map<(int, int), Stats>, pending: seq<Range>, queue: seq<Range>,
                         worker: Worker, lost: set<Range>, failed: set<int>)

  datatype Step =
    | Ingest(added: seq<Row>, batch: seq<Row>)
    | TrySend
    | Take
    | Ask(ok: bool)
    | StartHour(hour: int)
    | EndHour(hour: int, ok: bool)
    | EndRequest

  /** The span of a batch, as QueueUpdateForFills computes it. */
  ghost predicate Spans(q: Range, batch: seq<Row>) {
    forall r :: r in batch ==> InRange(r, q)
  }

  function SpanOf(batch: seq<Row>): Range
    requires batch != []
  {
    var n := |batch| - 1;
    var ts := batch[n].fill.timestamp;
    if n == 0 then Range(ts, ts)
    else
      var q := SpanOf(batch[..n]);
      Range(if ts < q.start then ts else q.start, if ts > q.end then ts else q.end)
  }

  predicate Enabled(s: State, step: Step) {
    match step
    case Ingest(added, batch) => batch != [] && forall r :: r in added ==> r in batch
    case TrySend => s.pending != []
    case Take => s.worker.Waiting? && s.queue != []
    case Ask(_) => s.worker.Asking?
    case StartHour(h) => s.worker.Updating? && h in s.worker.todo && |s.worker.flying| < PARALLEL_HOURS
    case EndHour(h, _) => s.worker.Updating? && h in s.worker.flying
    case EndRequest => s.worker.Updating? && s.worker.todo == {} && s.worker.flying == map[]
  }

  function Apply(s: State, step: Step): State
    requires Enabled(s, step)
  {
    match step
    case Ingest(added, batch) => s.(table := s.table + added, pending := s.pending + [SpanOf(batch)])
    case TrySend =>
      if |s.queue| < QUEUE_SIZE then s.(pending := s.pending[1..], queue := s.queue + [s.pending[0]])
      else s.(pending := s.pending[1..], lost := s.lost + {s.pending[0]})
    case Take => s.(queue := s.queue[1..], worker := Asking(s.queue[0]))
    case Ask(ok) =>
      if ok then s.(worker := Updating(AffectedHours(s.table, s.worker.request), map[]))
      else s.(worker := Waiting, lost := s.lost + {s.worker.request})
    case StartHour(h) =>
      s.(worker := Updating(s.worker.todo - {h}, s.worker.flying[h := Snapshot(s.table, h)]))
    case EndHour(h, ok) =>
      var landed := Updating(s.worker.todo, s.worker.flying - {h});
      if ok then s.(stats := Upsert(s.stats, h, s.worker.flying[h]), worker := landed)
      else s.(failed := s.failed + {h}, worker := landed)
    case EndRequest => s.(worker := Waiting)
  }

  // --------------------------------------------------------------- invariant

  /** The request will make the worker, or would have made it, look at hour `h`. */
  predicate Covers(t: seq<Row>, q: Range, h: int) {
    h in AffectedHours(t, q)
  }

  ghost predicate Outstanding(s: State, h: int) {
    || (exists q :: q in s.pending && Covers(s.table, q, h))
    || (exists q :: q in s.queue && Covers(s.table, q, h))
    || (exists q :: q in s.lost && Covers(s.table, q, h))
    || (s.worker.Asking? && Covers(s.table, s.worker.request, h))
    || h in s.failed
  }

  /** The worker is about to read the hour, or has read its rows as they are now. */
  ghost predicate InProgress(s: State, h: int) {
    s.worker.Updating? &&
    (h in s.worker.todo || (h in s.worker.flying && s.worker.flying[h] == Snapshot(s.table, h)))
  }

  ghost predicate UpToDate(s: State, h: int) {
    forall e :: Lookup(s.stats, h, e) == Fresh(s.table, h, e)
  }

  ghost predicate Accounted(s: State, h: int) {
    UpToDate(s, h) || Outstanding(s, h) || InProgress(s, h)
  }

  ghost predicate Inv(s: State) {
    && (forall h: int :: Accounted(s, h))
    && (forall h, e :: (h, e) in s.stats ==> Group(s.table, h, e) != [])
    && |s.queue| <= QUEUE_SIZE
    && (s.worker.Updating? ==> FlyingOk(s))
  }

  /** A statement in flight has read the present rows, or a later request covers its hour. */
  ghost predicate FlyingOk(s: State)
    requires s.worker.Updating?
  {
    && |s.worker.flying| <= PARALLEL_HOURS
    && forall h :: h in s.worker.flying ==>
         (s.worker.flying[h] == Snapshot(s.table, h) || Outstanding(s, h))
         && (forall e :: e in s.worker.flying[h] ==> Group(s.table, h, e) != [])
  }

  // ------------------------------------------------------------ preservation

  lemma {:induction false} SpanOfSpans(batch: seq<Row>)
    requires batch != []
    ensures Spans(SpanOf(batch), batch)
    decreases |batch|
  {
    var n := |batch| - 1;
    assert batch == batch[..n] + [batch[n]];
    if n > 0 {
      SpanOfSpans(batch[..n]);
    }
  }

  /** The batch's span is the one that QueueUpdateForFills sends: it is the only one with these bounds. */
  lemma {:induction false} SpanIsTight(batch: seq<Row>, q: Range)
    requires batch != [] && Spans(q, batch)
    requires exists r :: r in batch && r.fill.timestamp == q.start
    requires exists r :: r in batch && r.fill.timestamp == q.end
    ensures q == SpanOf(batch)
  {
    SpanOfSpans(batch);
    SpanIsReached(batch);
    var a :| 0 <= a < |batch| && batch[a].fill.timestamp == SpanOf(batch).start;
    var z :| 0 <= z < |batch| && batch[z].fill.timestamp == SpanOf(batch).end;
    assert batch[a] in batch && batch[z] in batch;
  }

  lemma {:induction false} SpanIsReached(batch: seq<Row>)
    requires batch != []
    ensures exists i :: 0 <= i < |batch| && batch[i].fill.timestamp == SpanOf(batch).start
    ensures exists i :: 0 <= i < |batch| && batch[i].fill.timestamp == SpanOf(batch).end
    decreases |batch|
  {
    var n := |batch| - 1;
    if n == 0 {
      assert batch[0].fill.timestamp == SpanOf(batch).start;
    } else {
      SpanIsReached(batch[..n]);
      var a :| 0 <= a < n && batch[..n][a].fill.timestamp == SpanOf(batch[..n]).start;
      var z :| 0 <= z < n && batch[..n][z].fill.timestamp == SpanOf(batch[..n]).end;
      assert batch[a].fill.timestamp == SpanOf(batch).start || batch[n].fill.timestamp == SpanOf(batch).start;
      assert batch[z].fill.timestamp == SpanOf(batch).end || batch[n].fill.timestamp == SpanOf(batch).end;
    }
  }

  lemma CoversGrows(t: seq<Row>, added: seq<Row>, q: Range, h: int)
    requires Covers(t, q, h)
    ensures Covers(t + added, q, h)
  {
  }

  lemma OutstandingGrows(s: State, added: seq<Row>, more: seq<Range>, h: int)
    requires Outstanding(s, h)
    ensures Outstanding(s.(table := s.table + added, pending := s.pending + more), h)
  {
    forall q | Covers(s.table, q, h) ensures Covers(s.table + added, q, h) {
      CoversGrows(s.table, added, q, h);
    }
    assert forall q :: q in s.pending ==> q in s.pending + more;
  }

  lemma {:induction false} GroupAppend(t: seq<Row>, added: seq<Row>, h: int, e: int)
    ensures Group(t + added, h, e) == Group(t, h, e) + Group(added, h, e)
    decreases |added|
  {
    if added == [] {
      assert t + added == t;
    } else {
      var n := |added| - 1;
      assert (t + added)[..|t| + n] == t + added[..n];
      GroupAppend(t, added[..n], h, e);
    }
  }

  /** Adding rows of other hours changes nothing that is computed for an hour. */
  lemma OtherHoursKeep(t: seq<Row>, added: seq<Row>, h: int)
    requires forall r :: r in added ==> HourOf(r.fill.timestamp) != h
    ensures forall e :: Group(t + added, h, e) == Group(t, h, e)
    ensures Snapshot(t + added, h) == Snapshot(t, h)
  {
    forall e ensures Group(t + added, h, e) == Group(t, h, e) {
      GroupAppend(t, added, h, e);
      GroupMembers(added, h, e);
      if Group(added, h, e) != [] {
        assert Group(added, h, e)[0] in Group(added, h, e);
      }
    }
    var a, b := Snapshot(t, h), Snapshot(t + added, h);
    forall e ensures e in a <==> e in b {
      SnapshotIsFresh(t, h, e);
      SnapshotIsFresh(t + added, h, e);
    }
  }

  lemma IngestKeeps(s: State, added: seq<Row>, batch: seq<Row>)
    requires Inv(s) && Enabled(s, Ingest(added, batch))
    ensures Inv(Apply(s, Ingest(added, batch)))
  {
    var v := Apply(s, Ingest(added, batch));
    var q := SpanOf(batch);
    SpanOfSpans(batch);
    forall h: int
      ensures Accounted(v, h)
      ensures Outstanding(s, h) ==> Outstanding(v, h)
      ensures Outstanding(v, h) || Snapshot(v.table, h) == Snapshot(s.table, h)
    {
      assert Accounted(s, h);
      if Outstanding(s, h) {
        OutstandingGrows(s, added, [q], h);
      }
      if r :| r in added && HourOf(r.fill.timestamp) == h {
        assert r in v.table && InRange(r, q);
        assert q in v.pending && Covers(v.table, q, h);
      } else {
        OtherHoursKeep(s.table, added, h);
      }
    }
    forall h, e | Group(s.table, h, e) != [] ensures Group(v.table, h, e) != [] {
      GroupAppend(s.table, added, h, e);
    }
  }

  /** A step that moves requests along, without touching rows, statistics or what is in flight. */
  lemma SameHoursOutstanding(s: State, v: State)
    requires Inv(s) && v.table == s.table && v.stats == s.stats && |v.queue| <= QUEUE_SIZE
    requires v.worker == s.worker || (!s.worker.Updating? && !v.worker.Updating?)
    requires forall h :: Outstanding(s, h) ==> Outstanding(v, h)
    ensures Inv(v)
  {
    forall h: int ensures Accounted(v, h) {
      assert Accounted(s, h);
    }
  }

  lemma TrySendKeeps(s: State)
    requires Inv(s) && Enabled(s, TrySend)
    ensures Inv(Apply(s, TrySend))
  {
    var v := Apply(s, TrySend);
    forall h | Outstanding(s, h) ensures Outstanding(v, h) {
      assert s.pending == [s.pending[0]] + s.pending[1..];
      if q :| q in s.pending && Covers(s.table, q, h) {
        assert q == s.pending[0] || q in v.pending;
        assert q in v.pending || q in v.queue || q in v.lost;
      } else if q :| q in s.queue && Covers(s.table, q, h) {
        assert q in v.queue;
      }
    }
    SameHoursOutstanding(s, v);
  }

  lemma TakeKeeps(s: State)
    requires Inv(s) && Enabled(s, Take)
    ensures Inv(Apply(s, Take))
  {
    var v := Apply(s, Take);
    forall h | Outstanding(s, h) ensures Outstanding(v, h) {
      if q :| q in s.queue && Covers(s.table, q, h) {
        assert s.queue == [s.queue[0]] + s.queue[1..];
        assert q == s.queue[0] || q in v.queue;
      }
    }
    SameHoursOutstanding(s, v);
  }

  lemma AskKeeps(s: State, ok: bool)
    requires Inv(s) && Enabled(s, Ask(ok))
    ensures Inv(Apply(s, Ask(ok)))
  {
    var v := Apply(s, Ask(ok));
    if ok {
      forall h: int ensures Accounted(v, h) {
        assert Accounted(s, h);
      }
    } else {
      assert forall h :: Covers(s.table, s.worker.request, h) ==> s.worker.request in v.lost;
      SameHoursOutstanding(s, v);
    }
  }

  lemma StartHourKeeps(s: State, h: int)
    requires Inv(s) && Enabled(s, StartHour(h))
    ensures Inv(Apply(s, StartHour(h)))
  {
    var v := Apply(s, StartHour(h));
    forall g: int ensures Accounted(v, g) {
      assert Accounted(s, g);
      assert Outstanding(s, g) ==> Outstanding(v, g);
      assert UpToDate(s, g) ==> UpToDate(v, g);
    }
    forall g | g in s.worker.flying && Outstanding(s, g) ensures Outstanding(v, g) {
    }
    forall e | e in Snapshot(s.table, h) ensures Group(s.table, h, e) != [] {
    }
  }

  lemma EndHourKeeps(s: State, h: int, ok: bool)
    requires Inv(s) && Enabled(s, EndHour(h, ok))
    ensures Inv(Apply(s, EndHour(h, ok)))
  {
    var v := Apply(s, EndHour(h, ok));
    var read := s.worker.flying[h];
    assert |v.worker.flying| <= |s.worker.flying| by {
      MapShrinks(s.worker.flying, h);
    }
    forall g: int
      ensures Outstanding(s, g) ==> Outstanding(v, g)
      ensures Accounted(v, g)
    {
      assert Accounted(s, g);
      assert Outstanding(s, g) ==> Outstanding(v, g);
      if g != h {
        forall e ensures Lookup(v.stats, g, e) == Lookup(s.stats, g, e) {
          UpsertLookup(s.stats, h, read, g, e);
        }
        assert UpToDate(s, g) ==> UpToDate(v, g);
      } else if ok && read == Snapshot(s.table, h) {
        UpsertEffect(s.stats, s.table, h);
        assert UpToDate(v, h);
      }
    }
    forall g, e | (g, e) in v.stats ensures Group(s.table, g, e) != [] {
      if ok {
        UpsertLookup(s.stats, h, read, g, e);
        assert Lookup(v.stats, g, e).Some?;
      }
    }
  }

  lemma MapShrinks<K, V>(m: map<K, V>, k: K)
    ensures |m - {k}| <= |m|
  {
  }

  lemma EndRequestKeeps(s: State)
    requires Inv(s) && Enabled(s, EndRequest)
    ensures Inv(Apply(s, EndRequest))
  {
    var v := Apply(s, EndRequest);
    forall h: int ensures Accounted(v, h) {
      assert Accounted(s, h);
    }
  }

  lemma StepKeeps(s: State, step: Step)
    requires Inv(s) && Enabled(s, step)
    ensures Inv(Apply(s, step))
  {
    match step {
      case Ingest(added, batch) => IngestKeeps(s, added, batch);
      case TrySend => TrySendKeeps(s);
      case Take => TakeKeeps(s);
      case Ask(ok) => AskKeeps(s, ok);
      case StartHour(h) => StartHourKeeps(s, h);
      case EndHour(h, ok) => EndHourKeeps(s, h, ok);
      case EndRequest => EndRequestKeeps(s);
    }
  }

  // ------------------------------------------------------------- all behaviours

  /** The full `GROUP BY` of the table. */
  function FullGroupBy(t: seq<Row>): map<(int, int), Stats> {
    map k | k in (set r | r in t :: (HourOf(r.fill.timestamp), r.exchange)) && Group(t, k.0, k.1) != []
      :: Aggregate(Group(t, k.0, k.1))
  }

  ghost predicate Initial(s: State) {
    s.pending == [] && s.queue == [] && s.worker.Waiting? && s.lost == {} && s.failed == {} &&
    s.stats == FullGroupBy(s.table)
  }

  ghost predicate Behaviour(states: seq<State>, steps: seq<Step>) {
    && |states| == |steps| + 1
    && Initial(states[0])
    && forall i :: 0 <= i < |steps| ==> Enabled(states[i], steps[i]) && states[i + 1] == Apply(states[i], steps[i])
  }

  lemma FullGroupByLookup(t: seq<Row>, h: int, e: int)
    ensures Lookup(FullGroupBy(t), h, e) == Fresh(t, h, e)
  {
    GroupMembers(t, h, e);
    var g := Group(t, h, e);
    if g != [] {
      assert g[0] in g;
      assert Row(e, g[0]) in t;
    }
  }

  lemma {:induction false} AlwaysInv(states: seq<State>, steps: seq<Step>, i: nat)
    requires Behaviour(states, steps) && i < |states|
    ensures Inv(states[i])
  {
    if i == 0 {
      var s := states[0];
      forall h: int ensures Accounted(s, h) {
        forall e ensures Lookup(s.stats, h, e) == Fresh(s.table, h, e) {
          FullGroupByLookup(s.table, h, e);
        }
        assert UpToDate(s, h);
      }
    } else {
      AlwaysInv(states, steps, i - 1);
      StepKeeps(states[i - 1], steps[i - 1]);
    }
  }

  /**
   Agreement. In every behaviour, an hour with a statistics row that differs from the fresh aggregate is covered by a
   request that is not yet queued, queued, being processed, dropped or failed; the queue stays within its bound, and
   no more than four updates are in flight.
   */
  lemma StaleIsAccountedFor(states: seq<State>, steps: seq<Step>, i: nat, h: int, e: int)
    requires Behaviour(states, steps) && i < |states|
    requires Lookup(states[i].stats, h, e) != Fresh(states[i].table, h, e)
    ensures Outstanding(states[i], h) || InProgress(states[i], h)
    ensures |states[i].queue| <= 1000
    ensures states[i].worker.Updating? ==> |states[i].worker.flying| <= 4
  {
    AlwaysInv(states, steps, i);
    assert Accounted(states[i], h);
  }

  /** When nothing is outstanding the statistics are the full group-by, in whatever order the updates finished. */
  lemma QuietIsExact(states: seq<State>, steps: seq<Step>, i: nat)
    requires Behaviour(states, steps) && i < |states|
    requires var s := states[i]; s.pending == [] && s.queue == [] && s.worker.Waiting? && s.lost == {} && s.failed == {}
    ensures states[i].stats == FullGroupBy(states[i].table)
  {
    var s := states[i];
    var full := FullGroupBy(s.table);
    AlwaysInv(states, steps, i);
    forall k: (int, int)
      ensures k in s.stats <==> k in full
      ensures k in full ==> s.stats[k] == full[k]
    {
      assert Accounted(s, k.0);
      assert Lookup(s.stats, k.0, k.1) == Fresh(s.table, k.0, k.1);
      FullGroupByLookup(s.table, k.0, k.1);
      assert k == (k.0, k.1);
    }
  }

  /** The step loses nothing: a send finds room in the queue, and no query or update fails. */
  predicate Succeeds(s: State, step: Step) {
    match step
    case TrySend => |s.queue| < 1000
    case Ask(ok) => ok
    case EndHour(_, ok) => ok
    case _ => true
  }

  lemma {:induction false} NothingLost(states: seq<State>, steps: seq<Step>, i: nat)
    requires Behaviour(states, steps) && i < |states|
    requires forall j :: 0 <= j < i ==> Succeeds(states[j], steps[j])
    ensures states[i].lost == {} && states[i].failed == {}
  {
    if i > 0 {
      NothingLost(states, steps, i - 1);
    }
  }

  /** Requests are lost and hours fail only in steps that do: without those, once all is drained, all is exact. */
  lemma DrainedIsExact(states: seq<State>, steps: seq<Step>, i: nat)
    requires Behaviour(states, steps) && i < |states|
    requires forall j :: 0 <= j < i ==> Succeeds(states[j], steps[j])
    requires states[i].pending == [] && states[i].queue == [] && states[i].worker.Waiting?
    ensures states[i].stats == FullGroupBy(states[i].table)
  {
    NothingLost(states, steps, i);
    QuietIsExact(states, steps, i);
  }

  /** A send finds room below 1000 waiting requests, and an update can start while fewer than four are in flight. */
  lemma RoomForRequests(s: State, h: int)
    ensures s.pending != [] ==>
              (Apply(s, TrySend).queue == s.queue + [s.pending[0]] <==> |s.queue| < 1000)
    ensures s.worker.Updating? && h in s.worker.todo ==> (Enabled(s, StartHour(h)) <==> |s.worker.flying| < 4)
  {
  }
}
