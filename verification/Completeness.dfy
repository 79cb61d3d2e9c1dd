/** When an hour that a run vouches for holds all fills of its file: at most 1000 different ones are never cut short. */
module Completeness {
  import opened Wrappers
  import opened Hours
  import opened Fills
  import opened Gaps
  import opened Pages
  import opened Fetcher
  import opened Planner
  import opened Engine
  import opened EngineSafety
  import opened EngineTheorems

  // ---------------------------------------------------------------- the table

  /** The keys of the rows of hour `h`. */
  function HourKeys(t: seq<Fill>, h: int): set<Key> {
    set f | f in t && HourOf(f.timestamp) == h :: KeyOf(f)
  }

  lemma HourKeysAppend(a: seq<Fill>, b: seq<Fill>, h: int)
    ensures HourKeys(a + b, h) == HourKeys(a, h) + HourKeys(b, h)
  {
  }

  lemma LastRowIsNew(t: seq<Fill>)
    requires UniqueKeys(t) && t != []
    ensures var n := |t| - 1; UniqueKeys(t[..n]) && KeyOf(t[n]) !in Keys(t[..n])
  {
    var n := |t| - 1;
    forall f | f in t[..n] ensures KeyOf(f) != KeyOf(t[n]) {
      var i :| 0 <= i < n && t[i] == f;
    }
  }

  lemma HourKeysLast(t: seq<Fill>, h: int)
    requires t != []
    ensures var n := |t| - 1;
            HourKeys(t, h) == HourKeys(t[..n], h) + (if HourOf(t[n].timestamp) == h then {KeyOf(t[n])} else {})
  {
    var n := |t| - 1;
    assert t == t[..n] + [t[n]];
    HourKeysAppend(t[..n], [t[n]], h);
    assert t[n] in [t[n]];
  }

  /** Under the unique key, the count of an hour is the number of its keys. */
  lemma {:induction false} CountIsKeys(t: seq<Fill>, h: int)
    requires UniqueKeys(t)
    ensures CountIn(t, HourStart(h), HourStart(h + 1)) == |HourKeys(t, h)|
    decreases |t|
  {
    if t != [] {
      var n := |t| - 1;
      LastRowIsNew(t);
      CountIsKeys(t[..n], h);
      HourKeysLast(t, h);
      var ts := t[n].timestamp;
      HourBounds(ts);
      if HourStart(h) <= ts < HourStart(h + 1) {
        HourIs(ts, h);
        assert KeyOf(t[n]) !in HourKeys(t[..n], h);
      }
    }
  }

  lemma SameIfNotSmaller<K>(a: set<K>, b: set<K>)
    requires a <= b && |b| <= |a|
    ensures a == b
  {
    if a != b {
      var x :| x in b && x !in a;
      Smaller(a, b - {x});
    }
  }

  lemma {:induction false} Smaller<K>(a: set<K>, b: set<K>)
    requires a <= b
    ensures |a| <= |b|
    decreases |a|
  {
    if a != {} {
      var x :| x in a;
      Smaller(a - {x}, b - {x});
    }
  }

  /** The rows of hour `h` are rows of its file. */
  ghost predicate RowsOf(t: seq<Fill>, h: int, file: seq<Fill>) {
    forall f :: f in t && HourOf(f.timestamp) == h ==> KeyOf(f) in Keys(file)
  }

  /** A full hour, filled from a file with at most 1000 different keys, holds all of the file. */
  lemma FullHoldsFile(t: seq<Fill>, h: int, file: seq<Fill>)
    requires UniqueKeys(t) && Full(t, h) && RowsOf(t, h, file) && |Keys(file)| <= 1000
    ensures Keys(file) <= Keys(t)
  {
    CountIsKeys(t, h);
    SameIfNotSmaller(HourKeys(t, h), Keys(file));
  }

  lemma {:induction false} InsertKeepsRowsOf(t: seq<Fill>, fs: seq<Fill>, h: int, file: seq<Fill>)
    requires RowsOf(t, h, file) && RowsOf(fs, h, file)
    ensures RowsOf(InsertAll(t, fs), h, file)
    decreases |fs|
  {
    if fs != [] {
      var n := |fs| - 1;
      InsertKeepsRowsOf(t, fs[..n], h, file);
      assert fs[n] in fs;
    }
  }

  // --------------------------------------------- runs over an unchanging archive

  /** The file of one hour, and whether a read of it may come back without its fills. */
  datatype Archived = Archived(hour: int, file: seq<Fill>, mayFail: bool)

  ghost predicate ReadsFile(b: Batch, a: Archived) {
    forall k :: 0 <= k < |b.requests| && b.requests[k].hour == a.hour ==>
                  b.requests[k].fills == Some(a.file) || (a.mayFail && b.requests[k].fills == None)
  }

  ghost predicate AddsNone(fills: seq<Fill>, a: Archived) {
    RowsOf(fills, a.hour, a.file)
  }

  /** Every read of the hour finds the same file, and other writers add no row to the hour that is not in the file. */
  ghost predicate CleanStep(step: Step, a: Archived) {
    match step
    case OthersInsert(fills) => AddsNone(fills, a)
    case Begin(_, _, between) => forall i :: 0 <= i < |between| ==> AddsNone(between[i], a)
    case Fetch(_, b) => ReadsFile(b, a)
    case PollPage(b) => ReadsFile(b, a)
    case _ => true
  }

  ghost predicate CleanBehaviour(cfg: Config, states: seq<State>, steps: seq<Step>, a: Archived) {
    && Behaviour(cfg, states, steps)
    && RowsOf(states[0].table, a.hour, a.file)
    && forall i :: 0 <= i < |steps| ==> CleanStep(steps[i], a)
  }

  ghost predicate CleanBatch(b: Batch, a: Archived) {
    ReadsFile(b, a) && RowsOf(FillsIn(b), a.hour, a.file)
  }

  ghost predicate AllClean(bs: seq<Batch>, a: Archived) {
    forall i :: 0 <= i < |bs| ==> CleanBatch(bs[i], a)
  }

  /** The table, the handled batches and all batches on their way hold rows of the file only. */
  ghost predicate CleanState(s: State, a: Archived) {
    && RowsOf(s.table, a.hour, a.file)
    && AllClean(s.handled, a)
    && match s.phase
       case Running(r) =>
         && AllClean(r.queue, a)
         && (r.fetch.Sending? ==> CleanBatch(r.fetch.batch, a))
         && (r.consume.Inserting? ==> CleanBatch(r.consume.batch, a))
       case Ingesting(p) => p.polling.Storing? ==> CleanBatch(p.polling.batch, a)
       case _ => true
  }

  lemma {:induction false} FlattenOrigin(rs: seq<Request>, f: Fill)
    requires f in Flatten(rs)
    ensures exists k :: 0 <= k < |rs| && f in Got(rs[k])
    decreases |rs|
  {
    var n := |rs| - 1;
    if f in Flatten(rs[..n]) {
      FlattenOrigin(rs[..n], f);
      var k :| 0 <= k < n && f in Got(rs[..n][k]);
      assert f in Got(rs[k]);
    }
  }

  /** A page of whole hours that reads the file brings rows of the file only. */
  lemma PageIsClean(b: Batch, from: int, a: Archived)
    requires PageFrom(b, from) && ReadsFile(b, a)
    ensures CleanBatch(b, a)
  {
    forall f | f in FillsIn(b) && HourOf(f.timestamp) == a.hour ensures KeyOf(f) in Keys(a.file) {
      FlattenOrigin(b.requests, f);
      var k :| 0 <= k < |b.requests| && f in Got(b.requests[k]);
      assert StampedInHour(b.requests[k]);
    }
  }

  lemma QueriesKeepRowsOf(t: seq<Fill>, between: seq<seq<Fill>>, a: Archived)
    requires |between| == 3 && RowsOf(t, a.hour, a.file)
    requires forall i :: 0 <= i < |between| ==> AddsNone(between[i], a)
    ensures RowsOf(QueriesFrom(t, between).atGaps, a.hour, a.file)
  {
    var t1 := InsertAll(t, between[0]);
    var t2 := InsertAll(t1, between[1]);
    assert AddsNone(between[0], a) && AddsNone(between[1], a) && AddsNone(between[2], a);
    InsertKeepsRowsOf(t, between[0], a.hour, a.file);
    InsertKeepsRowsOf(t1, between[1], a.hour, a.file);
    InsertKeepsRowsOf(t2, between[2], a.hour, a.file);
  }

  lemma CommitIsClean(t: seq<Fill>, b: Batch, from: nat, upTo: nat, a: Archived)
    requires RowsOf(t, a.hour, a.file) && CleanBatch(b, a) && from <= upTo <= |FillsIn(b)|
    ensures RowsOf(InsertAll(t, FillsIn(b)[from..upTo]), a.hour, a.file)
  {
    var part := FillsIn(b)[from..upTo];
    assert forall f :: f in part ==> f in FillsIn(b);
    InsertKeepsRowsOf(t, part, a.hour, a.file);
  }

  lemma FetcherStaysClean(cfg: Config, s: State, step: Step, a: Archived)
    requires Enabled(cfg, s, step) && CleanState(s, a) && CleanStep(step, a) && OfFetcher(step)
    ensures CleanState(Apply(cfg, s, step), a)
  {
    match step {
      case Fetch(_, b) => PageIsClean(b, PageHour(s.phase.run.fetch.pos), a);
      case _ =>
    }
  }

  lemma ConsumerStaysClean(cfg: Config, s: State, step: Step, a: Archived)
    requires Enabled(cfg, s, step) && CleanState(s, a) && OfConsumer(step)
    ensures CleanState(Apply(cfg, s, step), a)
  {
    match step {
      case CommitPart(upTo) =>
        CommitIsClean(s.table, s.phase.run.consume.batch, s.phase.run.consume.done, upTo, a);
      case _ =>
    }
  }

  lemma PollStaysClean(cfg: Config, s: State, step: Step, a: Archived)
    requires Enabled(cfg, s, step) && CleanState(s, a) && CleanStep(step, a) && OfPoll(step)
    ensures CleanState(Apply(cfg, s, step), a)
  {
    match step {
      case PollPage(b) => PageIsClean(b, PageHour(s.phase.poll.pos), a);
      case PollCommit(upTo) =>
        CommitIsClean(s.table, s.phase.poll.polling.batch, s.phase.poll.polling.done, upTo, a);
      case _ =>
    }
  }

  lemma StepStaysClean(cfg: Config, s: State, step: Step, a: Archived)
    requires Enabled(cfg, s, step) && CleanState(s, a) && CleanStep(step, a)
    ensures CleanState(Apply(cfg, s, step), a)
  {
    if OfFetcher(step) {
      FetcherStaysClean(cfg, s, step, a);
    } else if OfConsumer(step) {
      ConsumerStaysClean(cfg, s, step, a);
    } else if OfPoll(step) {
      PollStaysClean(cfg, s, step, a);
    } else {
      match step {
        case OthersInsert(fills) => InsertKeepsRowsOf(s.table, fills, a.hour, a.file);
        case Begin(_, _, between) => QueriesKeepRowsOf(s.table, between, a);
        case _ =>
      }
    }
  }

  lemma {:induction false} AlwaysClean(cfg: Config, states: seq<State>, steps: seq<Step>, a: Archived, i: nat)
    requires CleanBehaviour(cfg, states, steps, a) && i < |states|
    ensures CleanState(states[i], a)
    decreases i
  {
    if i > 0 {
      AlwaysClean(cfg, states, steps, a, i - 1);
      StepStaysClean(cfg, states[i - 1], steps[i - 1], a);
    }
  }

  // -------------------------------------------------------------- completeness

  /** A read of the hour came back without its fills, and the batch with it was handled. */
  ghost predicate HandledUnread(s: State, h: int) {
    exists i, k :: 0 <= i < |s.handled| && 0 <= k < |s.handled[i].requests|
                   && s.handled[i].requests[k].hour == h && s.handled[i].requests[k].fills == None
  }

  /**
   Whatever runs, sessions, crashes and other writers there were: an hour that counts as stored, and whose file has at
   most 1000 different keys, holds all of its file, unless a read of it came back without its fills.
   */
  lemma StoredIsComplete(cfg: Config, states: seq<State>, steps: seq<Step>, a: Archived, i: nat)
    requires CleanBehaviour(cfg, states, steps, a) && i < |states|
    requires Stored(states[i], a.hour) && |Keys(a.file)| <= 1000
    ensures Keys(a.file) <= Keys(states[i].table) || (a.mayFail && HandledUnread(states[i], a.hour))
  {
    var s := states[i];
    AlwaysInv(cfg, states, steps, i);
    AlwaysClean(cfg, states, steps, a, i);
    if Full(s.table, a.hour) {
      FullHoldsFile(s.table, a.hour, a.file);
    } else {
      var j, k :| 0 <= j < |s.handled| && 0 <= k < |s.handled[j].requests|
                  && s.handled[j].requests[k].hour == a.hour
                  && Keys(Got(s.handled[j].requests[k])) <= Keys(s.table);
      assert CleanBatch(s.handled[j], a);
    }
  }

  /** A run has returned without an error, and the hour is one that it was to see to. */
  ghost predicate Vouched(s: State, h: int) {
    s.phase.Returned? && HourOf(s.phase.begin) <= h &&
    match s.phase.how
    case Failed => false
    case Skipped(_) => h < HourOf(s.phase.end)
    case Finished(why, pos) => h < (if why == ReachedEnd then HourOf(s.phase.end) else PageHour(pos))
  }

  /** Whenever each read of the hour succeeds and a run vouches for the hour, all of its file is stored. */
  ghost predicate NeverCutShort(cfg: Config, file: seq<Fill>, h: int) {
    forall states: seq<State>, steps: seq<Step>, i: nat ::
      CleanBehaviour(cfg, states, steps, Archived(h, file, false)) && i < |states| && Vouched(states[i], h) ==>
        Keys(file) <= Keys(states[i].table)
  }

  lemma SmallFilesAreNeverCutShort(cfg: Config, file: seq<Fill>, h: int)
    requires |Keys(file)| <= 1000
    ensures NeverCutShort(cfg, file, h)
  {
    forall states: seq<State>, steps: seq<Step>, i: nat
      | CleanBehaviour(cfg, states, steps, Archived(h, file, false)) && i < |states| && Vouched(states[i], h)
      ensures Keys(file) <= Keys(states[i].table)
    {
      BackfillCovers(cfg, states, steps, i);
      StoredIsComplete(cfg, states, steps, Archived(h, file, false), i);
    }
  }
}
