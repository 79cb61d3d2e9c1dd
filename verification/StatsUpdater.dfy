/** Incremental hourly statistics: the request queue, the background worker, and why the table never lies silently. */
module StatsUpdater {
  import opened Wrappers
  import opened Hours
  import opened Fills

  datatype Row = Row(exchange: int, fill: Fill)

  /** One row of `hourly_stats_incremental`; the averages are quotients of these and are left out. */
  datatype Stats = Stats(totalFills: nat, traders: set<string>, total: int, buy: int, sell: int,
                         maxTrade: int, minTrade: int, fees: int)

  function Volume(f: Fill): int {
    f.price * f.size
  }

  function Fee(f: Fill): int {
    match f.fee case Some(x) => x case None => 0
  }

  function Single(f: Fill): Stats {
    var v := Volume(f);
    Stats(1, {f.user}, v, if f.side == Buy then v else 0, if f.side == Sell then v else 0, v, v, Fee(f))
  }

  function Merge(a: Stats, b: Stats): Stats {
    Stats(a.totalFills + b.totalFills, a.traders + b.traders, a.total + b.total, a.buy + b.buy, a.sell + b.sell,
          if a.maxTrade >= b.maxTrade then a.maxTrade else b.maxTrade,
          if a.minTrade <= b.minTrade then a.minTrade else b.minTrade, a.fees + b.fees)
  }

  /** The rows of one group of `GROUP BY hour, exchange_id`. */
  function Group(t: seq<Row>, hour: int, exchange: int): seq<Fill> {
    if t == [] then [] else
      var r := t[|t| - 1];
      Group(t[..|t| - 1], hour, exchange) +
      (if HourOf(r.fill.timestamp) == hour && r.exchange == exchange then [r.fill] else [])
  }

  function Aggregate(g: seq<Fill>): Stats
    requires g != []
  {
    var n := |g| - 1;
    if n == 0 then Single(g[0]) else Merge(Aggregate(g[..n]), Single(g[n]))
  }

  /** The fresh aggregate of one group; None when it has no rows. */
  function Fresh(t: seq<Row>, hour: int, exchange: int): Option<Stats> {
    var g := Group(t, hour, exchange);
    if g == [] then None else Some(Aggregate(g))
  }

  /** What an aggregate says about its group. */
  lemma {:induction false} AggregateMeaning(g: seq<Fill>)
    requires g != []
    ensures var a := Aggregate(g);
            && a.totalFills == |g|
            && a.traders == (set f | f in g :: f.user)
            && a.buy + a.sell == a.total
            && (forall f :: f in g ==> a.minTrade <= f.price * f.size <= a.maxTrade)
            && (exists f :: f in g && f.price * f.size == a.maxTrade)
            && (exists f :: f in g && f.price * f.size == a.minTrade)
    decreases |g|
  {
    var n := |g| - 1;
    assert g == g[..n] + [g[n]];
    assert g[n] in g;
    if n > 0 {
      AggregateMeaning(g[..n]);
      assert forall f :: f in g[..n] ==> f in g;
    }
  }

  function Sum(column: seq<int>): int {
    if column == [] then 0 else Sum(column[..|column| - 1]) + column[|column| - 1]
  }

  lemma {:induction false} TotalIsSum(g: seq<Fill>, worth: seq<int>)
    requires g != [] && |worth| == |g| && forall i :: 0 <= i < |g| ==> worth[i] == g[i].price * g[i].size
    ensures Aggregate(g).total == Sum(worth)
    decreases |g|
  {
    var n := |g| - 1;
    if n > 0 {
      TotalIsSum(g[..n], worth[..n]);
    } else {
      assert Sum(worth[..n]) == 0;
    }
  }

  lemma {:induction false} BuyIsSum(g: seq<Fill>, bought: seq<int>)
    requires g != [] && |bought| == |g|
    requires forall i :: 0 <= i < |g| ==> bought[i] == if g[i].side == Buy then g[i].price * g[i].size else 0
    ensures Aggregate(g).buy == Sum(bought)
    decreases |g|
  {
    var n := |g| - 1;
    if n > 0 {
      BuyIsSum(g[..n], bought[..n]);
    } else {
      assert Sum(bought[..n]) == 0;
    }
  }

  lemma {:induction false} FeesAreSum(g: seq<Fill>, fees: seq<int>)
    requires g != [] && |fees| == |g|
    requires forall i :: 0 <= i < |g| ==> fees[i] == if g[i].fee == None then 0 else g[i].fee.value
    ensures Aggregate(g).fees == Sum(fees)
    decreases |g|
  {
    var n := |g| - 1;
    if n > 0 {
      FeesAreSum(g[..n], fees[..n]);
    } else {
      assert Sum(fees[..n]) == 0;
    }
  }

  /**
   The summed columns: volume of all and of the buys, and fees, where a missing fee counts as none; the sells make up
   the rest of the volume.
   */
  lemma AggregateSums(g: seq<Fill>, worth: seq<int>, bought: seq<int>, fees: seq<int>)
    requires g != [] && |worth| == |bought| == |fees| == |g|
    requires forall i :: 0 <= i < |g| ==> worth[i] == g[i].price * g[i].size
    requires forall i :: 0 <= i < |g| ==> bought[i] == if g[i].side == Buy then g[i].price * g[i].size else 0
    requires forall i :: 0 <= i < |g| ==> fees[i] == if g[i].fee == None then 0 else g[i].fee.value
    ensures var a := Aggregate(g);
            && a.total == Sum(worth) && a.buy == Sum(bought) && a.sell == Sum(worth) - Sum(bought)
            && a.fees == Sum(fees)
  {
    TotalIsSum(g, worth);
    BuyIsSum(g, bought);
    FeesAreSum(g, fees);
    AggregateMeaning(g);
  }

  /** The places of the rows of an hour and exchange. */
  function PlacesOf(t: seq<Row>, hour: int, exchange: int): set<int> {
    set i | 0 <= i < |t| && HourOf(t[i].fill.timestamp) == hour && t[i].exchange == exchange
  }

  /** A group has as many fills as the table has rows of its hour and exchange. */
  lemma {:induction false} GroupSize(t: seq<Row>, hour: int, exchange: int)
    ensures |Group(t, hour, exchange)| == |PlacesOf(t, hour, exchange)|
    decreases |t|
  {
    if t != [] {
      var n := |t| - 1;
      GroupSize(t[..n], hour, exchange);
      var front := PlacesOf(t[..n], hour, exchange);
      assert n !in front;
      assert PlacesOf(t, hour, exchange) ==
             front + (if HourOf(t[n].fill.timestamp) == hour && t[n].exchange == exchange then {n} else {});
    }
  }

  /** `StatsUpdateRequest`, both ends included. */
  datatype Range = Range(start: int, end: int)

  predicate InRange(r: Row, q: Range) {
    q.start <= r.fill.timestamp <= q.end
  }

  /** `get_affected_hours`: the hours of the rows in the range. */
  function AffectedHours(t: seq<Row>, q: Range): set<int> {
    set r | r in t && InRange(r, q) :: HourOf(r.fill.timestamp)
  }

  /** An hour is affected exactly if it has a row from the start of the range to its end, both included. */
  lemma AffectedExact(t: seq<Row>, q: Range, h: int)
    ensures h in AffectedHours(t, q) <==>
            exists i :: 0 <= i < |t| && HourOf(t[i].fill.timestamp) == h
                        && q.start <= t[i].fill.timestamp && t[i].fill.timestamp <= q.end
  {
  }

  /** What one `update_single_hour` statement reads: the aggregates of the hour's groups, by exchange. */
  function Snapshot(t: seq<Row>, hour: int): map<int, Stats> {
    map e | e in Exchanges(t) && Group(t, hour, e) != [] :: Aggregate(Group(t, hour, e))
  }

  function Exchanges(t: seq<Row>): set<int> {
    set r | r in t :: r.exchange
  }

  /** What it writes: an upsert of every group it read. */
  function Upsert(stats: map<(int, int), Stats>, hour: int, read: map<int, Stats>): map<(int, int), Stats> {
    stats + map k: (int, int) | k in (set e | e in read.Keys :: (hour, e)) :: read[k.1]
  }

  function Lookup(stats: map<(int, int), Stats>, hour: int, exchange: int): Option<Stats> {
    if (hour, exchange) in stats then Some(stats[(hour, exchange)]) else None
  }

  const QUEUE_SIZE: nat := 1000
  const PARALLEL_HOURS: nat := 4

  // ------------------------------------------------------------ the component

  /** The sender's side and the worker's side of the updater, run one after the other. */
  class IncrementalStatsUpdater {
    var queue: seq<Range>
    var stats: map<(int, int), Stats>

    constructor ()
      ensures queue == [] && stats == map[]
    {
      queue, stats := [], map[];
    }

    /** `try_send`: never blocks; a full queue drops the request. */
    method QueueUpdate(q: Range) returns (queued: bool)
      modifies this`queue
      ensures queued <==> |old(queue)| < 1000
      ensures queue == if queued then old(queue) + [q] else old(queue)
    {
      queued := |queue| < QUEUE_SIZE;
      if queued {
        queue := queue + [q];
      }
    }

    /** The request for a batch spans exactly from its earliest to its latest fill. */
    method QueueUpdateForFills(fills: seq<Fill>) returns (q: Option<Range>)
      modifies this`queue
      ensures q.None? <==> fills == []
      ensures q.None? ==> queue == old(queue)
      ensures q.Some? ==> forall f :: f in fills ==> q.value.start <= f.timestamp <= q.value.end
      ensures q.Some? ==> exists f :: f in fills && f.timestamp == q.value.start
      ensures q.Some? ==> exists f :: f in fills && f.timestamp == q.value.end
      ensures q.Some? ==> queue == if |old(queue)| < QUEUE_SIZE then old(queue) + [q.value] else old(queue)
    {
      if fills == [] {
        return None;
      }
      var minTime, maxTime := fills[0].timestamp, fills[0].timestamp;
      for i := 1 to |fills|
        invariant forall k :: 0 <= k < i ==> minTime <= fills[k].timestamp <= maxTime
        invariant exists k :: 0 <= k < i && fills[k].timestamp == minTime
        invariant exists k :: 0 <= k < i && fills[k].timestamp == maxTime
      {
        if fills[i].timestamp < minTime {
          minTime := fills[i].timestamp;
        }
        if fills[i].timestamp > maxTime {
          maxTime := fills[i].timestamp;
        }
      }
      var _ := QueueUpdate(Range(minTime, maxTime));
      return Some(Range(minTime, maxTime));
    }

    /** `update_single_hour`: one atomic statement, or a failure that changes nothing. */
    method UpdateSingleHour(t: seq<Row>, hour: int, fails: bool) returns (ok: bool)
      modifies this`stats
      ensures ok == !fails
      ensures stats == if ok then Upsert(old(stats), hour, Snapshot(t, hour)) else old(stats)
    {
      ok := !fails;
      if ok {
        stats := Upsert(stats, hour, Snapshot(t, hour));
      }
    }

    /** `process_update` over a table at rest: every affected hour is fresh afterwards unless its statement fails. */
    method ProcessUpdate(t: seq<Row>, q: Range, fails: int -> bool) returns (failed: set<int>)
      requires forall h, e :: (h, e) in stats ==> Group(t, h, e) != []
      modifies this`stats
      ensures forall h :: h in failed <==> h in AffectedHours(t, q) && fails(h)
      ensures forall h, e :: h in AffectedHours(t, q) && !fails(h) ==> Lookup(stats, h, e) == Fresh(t, h, e)
      ensures forall h, e :: h !in AffectedHours(t, q) ==> Lookup(stats, h, e) == Lookup(old(stats), h, e)
      ensures forall h, e :: (h, e) in stats ==> Group(t, h, e) != []
    {
      var todo := AffectedHours(t, q);
      failed := {};
      while todo != {}
        invariant todo <= AffectedHours(t, q)
        invariant forall h :: h in failed <==> h in AffectedHours(t, q) - todo && fails(h)
        invariant forall h, e :: (h, e) in stats ==> Group(t, h, e) != []
        invariant forall h, e :: h in AffectedHours(t, q) - todo && !fails(h) ==> Lookup(stats, h, e) == Fresh(t, h, e)
        invariant forall h, e :: h !in AffectedHours(t, q) ==> Lookup(stats, h, e) == Lookup(old(stats), h, e)
        decreases todo
      {
        var hour :| hour in todo;
        todo := todo - {hour};
        ghost var before := stats;
        var ok := UpdateSingleHour(t, hour, fails(hour));
        UpsertEffect(before, t, hour);
        if !ok {
          failed := failed + {hour};
        }
      }
    }
  }

  lemma {:induction false} GroupMembers(t: seq<Row>, hour: int, exchange: int)
    ensures forall f :: f in Group(t, hour, exchange) <==>
                        HourOf(f.timestamp) == hour && Row(exchange, f) in t
    decreases |t|
  {
    if t != [] {
      GroupMembers(t[..|t| - 1], hour, exchange);
      assert t == t[..|t| - 1] + [t[|t| - 1]];
    }
  }

  lemma SnapshotIsFresh(t: seq<Row>, hour: int, exchange: int)
    ensures exchange in Snapshot(t, hour) <==> Fresh(t, hour, exchange).Some?
    ensures exchange in Snapshot(t, hour) ==> Some(Snapshot(t, hour)[exchange]) == Fresh(t, hour, exchange)
  {
    GroupMembers(t, hour, exchange);
    var g := Group(t, hour, exchange);
    if g != [] {
      assert g[0] in g;
      assert Row(exchange, g[0]) in t;
    }
  }

  lemma UpsertLookup(stats: map<(int, int), Stats>, hour: int, read: map<int, Stats>, h: int, e: int)
    ensures Lookup(Upsert(stats, hour, read), h, e) ==
            if h == hour && e in read then Some(read[e]) else Lookup(stats, h, e)
  {
  }

  /** Writing a fresh snapshot makes the hour's rows equal to the aggregates, if no row stands for an empty group. */
  lemma UpsertEffect(stats: map<(int, int), Stats>, t: seq<Row>, hour: int)
    requires forall h, e :: (h, e) in stats ==> Group(t, h, e) != []
    ensures var after := Upsert(stats, hour, Snapshot(t, hour));
            && (forall e :: Lookup(after, hour, e) == Fresh(t, hour, e))
            && (forall h, e :: h != hour ==> Lookup(after, h, e) == Lookup(stats, h, e))
            && (forall h, e :: (h, e) in after ==> Group(t, h, e) != [])
  {
    var read := Snapshot(t, hour);
    var after := Upsert(stats, hour, read);
    forall h, e
      ensures h == hour ==> Lookup(after, h, e) == Fresh(t, h, e)
      ensures h != hour ==> Lookup(after, h, e) == Lookup(stats, h, e)
      ensures (h, e) in after ==> Group(t, h, e) != []
    {
      UpsertLookup(stats, hour, read, h, e);
      SnapshotIsFresh(t, hour, e);
      assert (h, e) in after <==> Lookup(after, h, e).Some?;
    }
  }
}
