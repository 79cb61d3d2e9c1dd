/** Where coverage ends: what happens outside the assumptions of the engine's theorems. */
module Limits {
  import opened Wrappers
  import opened Hours
  import opened Fills
  import opened Gaps
  import opened Pages
  import opened Stores
  import opened Fetcher
  import opened Planner
  import opened Continuous
  import opened Engine
  import opened EngineTheorems
  import opened Completeness

  // ------------------------------------------------- a start that moves back

  /**
   A start that moves back behind a checkpoint. The row stands at 05:00 with cursor 06, and the backfill begins at 00:00
   over an empty table: there are five gaps, so it resumes at 06 and leaves six hours out.
   */
  lemma EarlierStartSkipsHours()
    ensures var saved := Some(Checkpoint(Some(6), Some(HourStart(5)), None, 0));
            var plan := PlanBackfill(saved, HourStart(0), HourStart(10), Queries([], [], [], [])).plan;
            plan == Resume(Pos(HourStart(5), Some(6))) && PageHour(plan.pos) == 6
            && forall h :: 0 <= h < 6 ==> !Known([], [], h)
  {
  }

  // ---------------------------------------------------- an old row in continuous mode

  /**
   A continuous run that begins with a row of more than seven days ago. Its reset goes forward by ten hours, and a
   later backfill from the unchanged start finds too few gaps to go back: the ten hours are never requested.
   */
  lemma OldRowSkipsHours(r: int, bs: seq<Batch>)
    requires forall h :: RequestedIn(bs, h) ==> h < r
    ensures var saved := Checkpoint(Some(r), Some(HourStart(r - 1)), None, 0);
            var reset := ContinuousRefresh(saved, HourStart(r + 178), []).0;
            var plan := PlanBackfill(Some(reset), HourStart(r - 1), HourStart(r + 178), Queries([], [], [], [])).plan;
            && ResumeHour(saved) == r && reset.cursor == Some(r + 10)
            && plan == Resume(Pos(HourStart(r + 10) - 1, Some(r + 10)))
            && forall h :: r <= h < r + 10 ==> !Known([], bs, h) && !Reaches(plan, h)
  {
    var now := HourStart(r + 178);
    assert Lookback(now) == HourStart(r + 10);
    HourOfStart(r + 10);
    HourOfStart(r + 178);
    HourOfStart(r - 1);
    AllMissingWhenEmpty(HourStart(r + 10), now, r + 10);
    AllMissingWhenEmpty(HourStart(r - 1), HourStart(r + 10) - 1, r - 1);
    NotBeforeShorter(MissingHours([], HourStart(r - 1), HourStart(r + 10) - 1), HourStart(r - 1));
  }

  // ------------------------------------------------------ a crash after 1000 rows

  ghost predicate InHour(fills: seq<Fill>, h: int) {
    forall f :: f in fills ==> HourOf(f.timestamp) == h
  }

  lemma InHourKeys(fills: seq<Fill>, h: int)
    requires InHour(fills, h)
    ensures HourKeys(fills, h) == Keys(fills)
    ensures forall g :: g != h ==> HourKeys(fills, g) == {}
  {
  }

  /** How many fills from the front have `m` different keys. */
  lemma {:induction false} PrefixWith(fills: seq<Fill>, m: nat) returns (n: nat)
    requires m <= |Keys(fills)|
    ensures n <= |fills| && |Keys(fills[..n])| == m
    decreases |fills|
  {
    if m == |Keys(fills)| {
      assert fills[..|fills|] == fills;
      return |fills|;
    }
    var k := |fills| - 1;
    KeysOfLast(fills);
    n := PrefixWith(fills[..k], m);
    assert fills[..k][..n] == fills[..n];
  }

  lemma KeysOfLast(fills: seq<Fill>)
    requires fills != []
    ensures var k := |fills| - 1;
            Keys(fills) == Keys(fills[..k]) + {KeyOf(fills[k])} && |Keys(fills)| <= |Keys(fills[..k])| + 1
  {
    var k := |fills| - 1;
    assert fills == fills[..k] + [fills[k]];
    KeysAppend(fills[..k], [fills[k]]);
    assert Keys([fills[k]]) == {KeyOf(fills[k])};
  }

  lemma {:induction false} DistinctKeys(fills: seq<Fill>)
    requires UniqueKeys(fills)
    ensures |Keys(fills)| == |fills|
    decreases |fills|
  {
    if fills != [] {
      LastRowIsNew(fills);
      DistinctKeys(fills[..|fills| - 1]);
      KeysOfLast(fills);
    }
  }

  lemma OthersAreNew(fills: seq<Fill>, n: nat)
    requires UniqueKeys(fills) && n <= |fills|
    ensures |Keys(fills[..n])| == n
    ensures forall k :: n <= k < |fills| ==> KeyOf(fills[k]) !in Keys(fills[..n])
  {
    assert UniqueKeys(fills[..n]);
    DistinctKeys(fills[..n]);
    forall k, f | n <= k < |fills| && f in fills[..n] ensures KeyOf(f) != KeyOf(fills[k]) {
      var i :| 0 <= i < n && fills[i] == f;
    }
  }

  // The page is one of four hours. Its first hour has as many fills as it takes for a transaction of VALUES to end
  // just behind the first `n` fills of hour `h`.

  function Filler(h: int, i: nat): Fill {
    Fill("user", "coin", Buy, i + 1, 1, None, None, HourStart(h), None, None)
  }

  function Padding(h: int, n: nat): seq<Fill> {
    seq(BATCH_SIZE - 1 - (n + BATCH_SIZE - 1) % BATCH_SIZE, i requires 0 <= i => Filler(h - 1, i))
  }

  lemma PaddingFits(h: int, n: nat)
    ensures (|Padding(h, n)| + n) % BATCH_SIZE == 0 && InHour(Padding(h, n), h - 1)
  {
    forall f | f in Padding(h, n) ensures HourOf(f.timestamp) == h - 1 {
      HourOfStart(h - 1);
    }
  }

  function FourHours(file: seq<Fill>, h: int, n: nat): Batch {
    Batch([Request(h - 1, Some(Padding(h, n))), Request(h, Some(file)), Request(h + 1, Some([])),
           Request(h + 2, Some([]))], Some(h + 3), true)
  }

  lemma FlattenFour(a: Request, b: Request, c: Request, d: Request)
    ensures Flatten([a, b, c, d]) == Got(a) + Got(b) + Got(c) + Got(d)
  {
    FlattenOne(a);
    FlattenAppend([a], b);
    FlattenAppend([a, b], c);
    FlattenAppend([a, b, c], d);
    assert [a] + [b] == [a, b] && [a, b] + [c] == [a, b, c] && [a, b, c] + [d] == [a, b, c, d];
  }

  lemma FlattenAppend(rs: seq<Request>, r: Request)
    ensures Flatten(rs + [r]) == Flatten(rs) + Got(r)
  {
    assert (rs + [r])[..|rs|] == rs;
  }

  lemma FourHoursIsPage(file: seq<Fill>, h: int, n: nat)
    requires InHour(file, h)
    ensures PageFrom(FourHours(file, h, n), h - 1)
    ensures FillsIn(FourHours(file, h, n)) == Padding(h, n) + file
  {
    var rs := FourHours(file, h, n).requests;
    PaddingFits(h, n);
    FlattenFour(rs[0], rs[1], rs[2], rs[3]);
    assert StampedInHour(rs[0]) && StampedInHour(rs[1]) && StampedInHour(rs[2]) && StampedInHour(rs[3]);
    assert RequestsFrom(rs, h - 1);
    assert Padding(h, n) + file + [] + [] == Padding(h, n) + file;
  }

  // ------------------------------------------------- the run that is cut short

  function First(h: int): Pos {
    Pos(HourStart(h - 1), None)
  }

  /** A first run over the four hours, with nothing saved yet. */
  function FirstRun(h: int, t: seq<Fill>, missing: seq<int>, fetch: Fetching, queue: seq<Batch>, consume: Consuming,
                    sent: seq<Batch>, received: seq<Batch>): State
  {
    State(HourStart(h - 1), t, None, None, [],
          Running(Run(HourStart(h - 1), HourStart(h + 3), First(h), missing, fetch, queue, consume, FreshCheckpoint(),
                      FreshCheckpoint(), 0, false, 0, 0, sent, received)))
  }

  /** The page is being inserted: its first `done` fills are committed. */
  function InHand(h: int, missing: seq<int>, q: Pos, b: Batch, done: nat): State
    requires done <= |FillsIn(b)|
  {
    var t := InsertAll([], FillsIn(b)[..done]);
    FirstRun(h, t, missing, Looping(q), [], Inserting(b, 1, done, |t|), [b], [b])
  }

  function IdleWith(h: int, t: seq<Fill>): State {
    State(HourStart(h - 1), t, None, None, [], Idle)
  }

  function BeginFour(h: int): Step {
    Begin(HourStart(h - 1), HourStart(h + 3), [[], [], []])
  }

  function BeginHour(h: int): Step {
    Begin(HourStart(h), HourStart(h + 1), [[], [], []])
  }

  lemma NothingBetween(t: seq<Fill>)
    ensures QueriesFrom(t, [[], [], []]) == Queries(t, t, t, t)
  {
  }

  lemma Begins(cfg: Config, h: int)
    ensures Enabled(cfg, IdleWith(h, []), BeginFour(h))
    ensures Apply(cfg, IdleWith(h, []), BeginFour(h)) ==
            FirstRun(h, [], [], Launched(First(h)), [], Receiving, [], [])
  {
    NothingBetween([]);
  }

  function MissingFour(h: int): seq<int> {
    MissingHours([], HourStart(h - 1), HourStart(h + 3))
  }

  lemma Prefetches(cfg: Config, h: int)
    ensures var s := FirstRun(h, [], [], Launched(First(h)), [], Receiving, [], []);
            Enabled(cfg, s, Prefetch(true))
            && Apply(cfg, s, Prefetch(true)) ==
               FirstRun(h, [], MissingFour(h), Looping(First(h)), [], Receiving, [], [])
  {
  }

  lemma Fetches(cfg: Config, h: int, b: Batch)
    requires PageFrom(b, h - 1)
    ensures var s := FirstRun(h, [], MissingFour(h), Looping(First(h)), [], Receiving, [], []);
            Enabled(cfg, s, Fetch(true, b))
            && Apply(cfg, s, Fetch(true, b)) ==
               FirstRun(h, [], MissingFour(h), Sending(AfterPage(First(h), b), b), [], Receiving, [], [])
  {
    HourOfStart(h - 1);
    HourOfStart(h + 3);
    AllMissingWhenEmpty(HourStart(h - 1), HourStart(h + 3), h - 1);
    assert MissingFour(h)[0] in MissingFour(h);
  }

  lemma PassesOn(cfg: Config, h: int, m: seq<int>, b: Batch, q: Pos)
    requires cfg.buffer >= 1 && b.hasMore
    ensures var s := FirstRun(h, [], m, Sending(q, b), [], Receiving, [], []);
            var t := FirstRun(h, [], m, Looping(q), [b], Receiving, [b], []);
            && Enabled(cfg, s, Send) && Apply(cfg, s, Send) == t
            && Enabled(cfg, t, Receive)
            && Apply(cfg, t, Receive) == InHand(h, m, q, b, 0)
  {
    assert [b][1..] == [] && [] + [b] == [b];
    assert FillsIn(b)[..0] == [];
  }

  /** The next 5000 fills are committed. */
  lemma CommitsNext(cfg: Config, h: int, m: seq<int>, q: Pos, b: Batch, done: nat)
    requires done + BATCH_SIZE <= |FillsIn(b)|
    ensures var s := InHand(h, m, q, b, done);
            Enabled(cfg, s, CommitPart(done + BATCH_SIZE))
            && Apply(cfg, s, CommitPart(done + BATCH_SIZE)) == InHand(h, m, q, b, done + BATCH_SIZE)
  {
    InsertSlice([], FillsIn(b), done, done + BATCH_SIZE);
  }

  /** Transaction by transaction the first `upTo` fills are committed. */
  lemma {:induction false} CommitsUpTo(cfg: Config, a: Archived, h: int, m: seq<int>, q: Pos, b: Batch, upTo: nat,
                                       states: seq<State>, steps: seq<Step>)
    returns (longer: seq<State>, more: seq<Step>)
    requires CleanBehaviour(cfg, states, steps, a)
    requires states[|states| - 1] == InHand(h, m, q, b, 0)
    requires upTo <= |FillsIn(b)| && upTo % BATCH_SIZE == 0
    ensures CleanBehaviour(cfg, longer, more, a)
    ensures longer[|longer| - 1] == InHand(h, m, q, b, upTo)
    ensures forall e :: e in steps ==> e in more
    decreases upTo
  {
    longer, more := states, steps;
    if upTo > 0 {
      longer, more := CommitsUpTo(cfg, a, h, m, q, b, upTo - BATCH_SIZE, states, steps);
      longer, more := CommitsOnce(cfg, a, h, m, q, b, upTo - BATCH_SIZE, longer, more);
    }
  }

  lemma CommitsOnce(cfg: Config, a: Archived, h: int, m: seq<int>, q: Pos, b: Batch, done: nat,
                    states: seq<State>, steps: seq<Step>)
    returns (longer: seq<State>, more: seq<Step>)
    requires CleanBehaviour(cfg, states, steps, a)
    requires done + BATCH_SIZE <= |FillsIn(b)| && states[|states| - 1] == InHand(h, m, q, b, done)
    ensures CleanBehaviour(cfg, longer, more, a)
    ensures longer[|longer| - 1] == InHand(h, m, q, b, done + BATCH_SIZE)
    ensures forall e :: e in steps ==> e in more
  {
    CommitsNext(cfg, h, m, q, b, done);
    longer, more := Extend(cfg, a, states, steps, CommitPart(done + BATCH_SIZE));
  }

  /** The rows of hour `h` after the transaction that ends in the middle of its file. */
  lemma CutRows(file: seq<Fill>, h: int, n: nat, t: seq<Fill>)
    requires InHour(file, h) && n <= |file|
    requires t == InsertAll([], (Padding(h, n) + file)[..|Padding(h, n)| + n])
    ensures UniqueKeys(t) && HourKeys(t, h) == Keys(file[..n])
  {
    var pad, part := Padding(h, n), file[..n];
    PaddingFits(h, n);
    assert (pad + file)[..|pad| + n] == pad + part;
    InsertAllUnique([], pad + part);
    InsertedHourKeys(pad + part, h);
    HourKeysAppend(pad, part, h);
    InHourKeys(pad, h - 1);
    InHourKeys(part, h);
  }

  lemma InsertedHourKeys(fs: seq<Fill>, h: int)
    ensures HourKeys(InsertAll([], fs), h) == HourKeys(fs, h)
  {
    InsertAllKeys([], fs);
    KeysWithHour(InsertAll([], fs), h);
    KeysWithHour(fs, h);
  }

  lemma KeysWithHour(t: seq<Fill>, h: int)
    ensures forall k :: k in HourKeys(t, h) <==> k in Keys(t) && HourOf(k.timestamp) == h
  {
  }

  /** The next run over hour `h` finds its 1000 rows and returns at once. */
  lemma BeginsAgain(cfg: Config, h: int, t: seq<Fill>)
    requires UniqueKeys(t) && |HourKeys(t, h)| == 1000
    ensures Enabled(cfg, IdleWith(h, t), BeginHour(h))
    ensures Apply(cfg, IdleWith(h, t), BeginHour(h)) ==
            State(HourStart(h), t, None, None, [], Returned(HourStart(h), HourStart(h + 1), Skipped(Complete)))
  {
    NothingBetween(t);
    CountIsKeys(t, h);
    HourCountClips(t, h, HourStart(h), HourStart(h + 1));
    HourOfStart(h);
    HourOfStart(h + 1);
    NothingBelow(t, HourStart(h), HourStart(h + 1), h);
  }

  /** A clean behaviour goes on with any clean step that is enabled. */
  lemma Extend(cfg: Config, a: Archived, states: seq<State>, steps: seq<Step>, step: Step)
    returns (longer: seq<State>, more: seq<Step>)
    requires CleanBehaviour(cfg, states, steps, a) && Enabled(cfg, states[|states| - 1], step) && CleanStep(step, a)
    ensures CleanBehaviour(cfg, longer, more, a) && |longer| == |states| + 1
    ensures longer[|states|] == Apply(cfg, states[|states| - 1], step)
    ensures step in more && forall e :: e in steps ==> e in more
  {
    ExtendBehaviour(cfg, states, steps, step);
    longer, more := states + [Apply(cfg, states[|states| - 1], step)], steps + [step];
    assert longer[0] == states[0] && more[|steps|] == step;
  }

  lemma ExtendBehaviour(cfg: Config, states: seq<State>, steps: seq<Step>, step: Step)
    requires Behaviour(cfg, states, steps) && Enabled(cfg, states[|states| - 1], step)
    ensures Behaviour(cfg, states + [Apply(cfg, states[|states| - 1], step)], steps + [step])
  {
    var longer, more := states + [Apply(cfg, states[|states| - 1], step)], steps + [step];
    forall i | 0 <= i < |more|
      ensures Enabled(cfg, longer[i], more[i]) && longer[i + 1] == Apply(cfg, longer[i], more[i])
    {
      if i < |steps| {
        assert longer[i] == states[i] && longer[i + 1] == states[i + 1] && more[i] == steps[i];
      }
    }
  }

  /** A clean behaviour in which the page is received. */
  lemma UntilReceived(cfg: Config, a: Archived, b: Batch) returns (states: seq<State>, steps: seq<Step>)
    requires cfg.buffer >= 1 && b.hasMore && PageFrom(b, a.hour - 1) && ReadsFile(b, a)
    ensures CleanBehaviour(cfg, states, steps, a) && Fetch(true, b) in steps
    ensures states[|states| - 1] == InHand(a.hour, MissingFour(a.hour), AfterPage(First(a.hour), b), b, 0)
  {
    var h := a.hour;
    states, steps := [IdleWith(h, [])], [];
    Begins(cfg, h);
    states, steps := Extend(cfg, a, states, steps, BeginFour(h));
    Prefetches(cfg, h);
    states, steps := Extend(cfg, a, states, steps, Prefetch(true));
    states, steps := Downloads(cfg, a, b, states, steps);
  }

  lemma Downloads(cfg: Config, a: Archived, b: Batch, before: seq<State>, taken: seq<Step>)
    returns (states: seq<State>, steps: seq<Step>)
    requires cfg.buffer >= 1 && b.hasMore && PageFrom(b, a.hour - 1) && ReadsFile(b, a)
    requires CleanBehaviour(cfg, before, taken, a)
    requires var h := a.hour;
             before[|before| - 1] == FirstRun(h, [], MissingFour(h), Looping(First(h)), [], Receiving, [], [])
    ensures CleanBehaviour(cfg, states, steps, a) && Fetch(true, b) in steps
    ensures states[|states| - 1] == InHand(a.hour, MissingFour(a.hour), AfterPage(First(a.hour), b), b, 0)
  {
    var h := a.hour;
    Fetches(cfg, h, b);
    states, steps := Extend(cfg, a, before, taken, Fetch(true, b));
    PassesOn(cfg, h, MissingFour(h), b, AfterPage(First(h), b));
    states, steps := Extend(cfg, a, states, steps, Send);
    states, steps := Extend(cfg, a, states, steps, Receive);
  }

  /**
   A crash between two commits, for every file of one hour with more than 1000 different keys: there is a behaviour,
   with no failing read and no other writer, in which a page with that file is downloaded, transactions of 5000 fills
   commit `n` of its fills with 1000 different keys, the process dies, and the next run over the hour returns without
   an error, fetching nothing, while the rest of the file is not stored.
   */
  lemma CrashLeavesHourIncomplete(cfg: Config, file: seq<Fill>, h: int)
    returns (states: seq<State>, steps: seq<Step>, n: nat)
    requires cfg.buffer >= 1 && InHour(file, h) && |Keys(file)| > 1000
    ensures CleanBehaviour(cfg, states, steps, Archived(h, file, false))
    ensures n <= |file| && Fetch(true, FourHours(file, h, n)) in steps
    ensures var last := states[|states| - 1];
            && last.phase == Returned(HourStart(h), HourStart(h + 1), Skipped(Complete))
            && HourKeys(last.table, h) == Keys(file[..n]) && |Keys(file[..n])| == 1000
            && !(Keys(file) <= Keys(last.table))
  {
    n := PrefixWith(file, 1000);
    var t;
    states, steps, t := DiesAfter(cfg, file, h, n);
    states, steps := ReturnsAtOnce(cfg, Archived(h, file, false), t, states, steps);
    RestIsAbsent(file, h, t);
  }

  lemma ReturnsAtOnce(cfg: Config, a: Archived, t: seq<Fill>, states: seq<State>, steps: seq<Step>)
    returns (longer: seq<State>, more: seq<Step>)
    requires CleanBehaviour(cfg, states, steps, a) && states[|states| - 1] == IdleWith(a.hour, t)
    requires UniqueKeys(t) && |HourKeys(t, a.hour)| == 1000
    ensures CleanBehaviour(cfg, longer, more, a) && forall e :: e in steps ==> e in more
    ensures var last, h := longer[|longer| - 1], a.hour;
            last.table == t && last.phase == Returned(HourStart(h), HourStart(h + 1), Skipped(Complete))
  {
    BeginsAgain(cfg, a.hour, t);
    longer, more := Extend(cfg, a, states, steps, BeginHour(a.hour));
  }

  /** The page is received, committed up to the first `n` fills of the file, and the process dies. */
  lemma DiesAfter(cfg: Config, file: seq<Fill>, h: int, n: nat)
    returns (states: seq<State>, steps: seq<Step>, t: seq<Fill>)
    requires cfg.buffer >= 1 && InHour(file, h) && n <= |file|
    ensures CleanBehaviour(cfg, states, steps, Archived(h, file, false))
    ensures Fetch(true, FourHours(file, h, n)) in steps
    ensures states[|states| - 1] == IdleWith(h, t) && UniqueKeys(t) && HourKeys(t, h) == Keys(file[..n])
  {
    var a, b := Archived(h, file, false), FourHours(file, h, n);
    var q, upTo := AfterPage(First(h), b), |Padding(h, n)| + n;
    FourHoursIsPage(file, h, n);
    PaddingFits(h, n);
    states, steps := UntilReceived(cfg, a, b);
    states, steps := CommitsUpTo(cfg, a, h, MissingFour(h), q, b, upTo, states, steps);
    states, steps := Dies(cfg, a, MissingFour(h), q, b, upTo, states, steps);
    t := InsertAll([], FillsIn(b)[..upTo]);
    CutRows(file, h, n, t);
  }

  lemma Dies(cfg: Config, a: Archived, m: seq<int>, q: Pos, b: Batch, done: nat, before: seq<State>, taken: seq<Step>)
    returns (states: seq<State>, steps: seq<Step>)
    requires CleanBehaviour(cfg, before, taken, a)
    requires done <= |FillsIn(b)| && before[|before| - 1] == InHand(a.hour, m, q, b, done)
    ensures CleanBehaviour(cfg, states, steps, a) && forall e :: e in taken ==> e in steps
    ensures states[|states| - 1] == IdleWith(a.hour, InsertAll([], FillsIn(b)[..done]))
  {
    states, steps := Extend(cfg, a, before, taken, Crash);
  }

  lemma RestIsAbsent(file: seq<Fill>, h: int, t: seq<Fill>)
    requires InHour(file, h) && |HourKeys(t, h)| < |Keys(file)|
    ensures !(Keys(file) <= Keys(t))
  {
    if Keys(file) <= Keys(t) {
      KeysWithHour(t, h);
      InHourKeys(file, h);
      KeysWithHour(file, h);
      Smaller(Keys(file), HourKeys(t, h));
    }
  }

  /** If the keys are distinct, the 1000 fills are the first ones, and none of the others is stored. */
  lemma CrashLosesTheRest(cfg: Config, file: seq<Fill>, h: int) returns (states: seq<State>, steps: seq<Step>)
    requires cfg.buffer >= 1 && InHour(file, h) && UniqueKeys(file) && |file| > 1000
    ensures CleanBehaviour(cfg, states, steps, Archived(h, file, false))
    ensures Fetch(true, FourHours(file, h, 1000)) in steps
    ensures var last := states[|states| - 1];
            && last.phase == Returned(HourStart(h), HourStart(h + 1), Skipped(Complete))
            && forall k :: 1000 <= k < |file| ==> KeyOf(file[k]) !in Keys(last.table)
  {
    DistinctKeys(file);
    var n;
    states, steps, n := CrashLeavesHourIncomplete(cfg, file, h);
    OthersAreNew(file, n);
    var t := states[|states| - 1].table;
    KeysWithHour(t, h);
    assert forall k :: 0 <= k < |file| ==> file[k] in file;
  }

  /**
   Exactly when the code keeps an hour whole. Over an archive whose file of hour `h` never changes, with every read of
   it successful and no other rows in that hour, whatever runs, sessions and crashes there are: a run that returns
   without an error with the hour in its range leaves all of the file stored, if and only if the file has at most 1000
   different keys.
   */
  lemma NeverCutShortIffAtMost1000(cfg: Config, file: seq<Fill>, h: int)
    requires cfg.buffer >= 1 && InHour(file, h)
    ensures NeverCutShort(cfg, file, h) <==> |Keys(file)| <= 1000
  {
    if |Keys(file)| <= 1000 {
      SmallFilesAreNeverCutShort(cfg, file, h);
    } else {
      var states, steps, n := CrashLeavesHourIncomplete(cfg, file, h);
      var i := |states| - 1;
      HourOfStart(h);
      HourOfStart(h + 1);
      assert Vouched(states[i], h);
    }
  }
}
