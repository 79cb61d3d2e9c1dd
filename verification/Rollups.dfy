/** The hourly views of users, markets and exchanges, and how each is the sum of the one below it. */
module Rollups {
  import opened Wrappers
  import opened Hours
  import opened Fills
  import opened StatsUpdater

  datatype MarketType = Spot | Perp

  /** The markets table as the views join it: the type of every market, by exchange and market. */
  type Markets = map<(int, string), MarketType>

  datatype Level = ByUser | ByMarket | ByExchange

  /** The columns of a view's GROUP BY; a column that the view does not group by is None. */
  datatype GroupKey = GroupKey(hour: int, exchange: int, market: Option<string>, user: Option<string>)

  /** The summed columns; the spot and perp breakdown is shown by the exchange view only. */
  datatype Sums = Sums(
    trades: int, total: int, buy: int, sell: int, net: int, pnl: int, fees: int,
    spotVolume: int, perpVolume: int, spotTrades: int, perpTrades: int)

  const ZERO: Sums := Sums(0, 0, 0, 0, 0, 0, 0, 0, 0, 0, 0)

  function Add(a: Sums, b: Sums): Sums {
    Sums(a.trades + b.trades, a.total + b.total, a.buy + b.buy, a.sell + b.sell, a.net + b.net, a.pnl + b.pnl,
         a.fees + b.fees, a.spotVolume + b.spotVolume, a.perpVolume + b.perpVolume,
         a.spotTrades + b.spotTrades, a.perpTrades + b.perpTrades)
  }

  function Pnl(f: Fill): int {
    match f.closedPnl case Some(x) => x case None => 0
  }

  /** What one row adds to the sums of its group. */
  function RowSums(r: Row, kind: MarketType): Sums {
    var v := Volume(r.fill);
    Sums(1, v, if r.fill.side == Buy then v else 0, if r.fill.side == Sell then v else 0,
         if r.fill.side == Buy then v else -v, Pnl(r.fill), Fee(r.fill),
         if kind == Spot then v else 0, if kind == Perp then v else 0,
         if kind == Spot then 1 else 0, if kind == Perp then 1 else 0)
  }

  function KeyAt(level: Level, r: Row): GroupKey {
    GroupKey(HourOf(r.fill.timestamp), r.exchange,
             if level == ByExchange then None else Some(r.fill.coin),
             if level == ByUser then Some(r.fill.user) else None)
  }

  /** The next coarser level, and the group there that a group of this level belongs to. */
  function Coarser(level: Level): Level {
    if level == ByUser then ByMarket else ByExchange
  }

  function Coarsen(level: Level, k: GroupKey): GroupKey {
    if level == ByUser then k.(user := None) else k.(market := None)
  }

  /** The inner join with markets: a row without a market has no part in any view. */
  predicate Joined(m: Markets, r: Row) {
    (r.exchange, r.fill.coin) in m
  }

  function RowDirect(m: Markets, level: Level, k: GroupKey, r: Row): Sums {
    if Joined(m, r) && KeyAt(level, r) == k then RowSums(r, m[(r.exchange, r.fill.coin)]) else ZERO
  }

  /** The sums over the joined rows of group `k`. */
  function Direct(t: seq<Row>, m: Markets, level: Level, k: GroupKey): Sums {
    if t == [] then ZERO else
      var r := t[|t| - 1];
      Add(Direct(t[..|t| - 1], m, level, k), RowDirect(m, level, k, r))
  }

  function GroupKeys(t: seq<Row>, m: Markets, level: Level): set<GroupKey> {
    set r | r in t && Joined(m, r) :: KeyAt(level, r)
  }

  /** A view: one row for each group that has rows. */
  function View(t: seq<Row>, m: Markets, level: Level): map<GroupKey, Sums> {
    map k | k in GroupKeys(t, m, level) :: Direct(t, m, level, k)
  }

  ghost predicate Distinct(ks: seq<GroupKey>) {
    forall i, j :: 0 <= i < j < |ks| ==> ks[i] != ks[j]
  }

  /** The view's rows in some order. */
  ghost predicate Lists(ks: seq<GroupKey>, view: map<GroupKey, Sums>) {
    Distinct(ks) && forall k :: k in ks <==> k in view
  }

  /** SELECT SUM(...) FROM view WHERE the group belongs to `c`, reading the rows in the order `ks`. */
  function SumOfView(view: map<GroupKey, Sums>, ks: seq<GroupKey>, level: Level, c: GroupKey): Sums {
    if ks == [] then ZERO else
      var k := ks[|ks| - 1];
      Add(SumOfView(view, ks[..|ks| - 1], level, c),
          if k in view && Coarsen(level, k) == c then view[k] else ZERO)
  }

  /** The joined rows whose group is listed and belongs to `c`. */
  function DirectAmong(t: seq<Row>, m: Markets, level: Level, ks: seq<GroupKey>, c: GroupKey): Sums {
    if t == [] then ZERO else
      Add(DirectAmong(t[..|t| - 1], m, level, ks, c), RowAmong(m, level, ks, c, t[|t| - 1]))
  }

  function RowAmong(m: Markets, level: Level, ks: seq<GroupKey>, c: GroupKey, r: Row): Sums {
    var k := KeyAt(level, r);
    if Joined(m, r) && k in ks && Coarsen(level, k) == c then RowSums(r, m[(r.exchange, r.fill.coin)]) else ZERO
  }

  lemma RowOneMore(m: Markets, level: Level, ks: seq<GroupKey>, k: GroupKey, c: GroupKey, r: Row)
    requires k !in ks
    ensures RowAmong(m, level, ks + [k], c, r) ==
            Add(RowAmong(m, level, ks, c, r), if Coarsen(level, k) == c then RowDirect(m, level, k, r) else ZERO)
  {
    var here := KeyAt(level, r);
    assert here in ks + [k] <==> here in ks || here == k;
    AddZero(RowAmong(m, level, ks + [k], c, r));
  }

  lemma AddZero(a: Sums)
    ensures Add(a, ZERO) == a && Add(ZERO, a) == a
  {
  }

  lemma AddMiddle(a: Sums, b: Sums, x: Sums, y: Sums)
    ensures Add(Add(a, b), Add(x, y)) == Add(Add(a, x), Add(b, y))
  {
  }

  lemma {:induction false} AmongNone(t: seq<Row>, m: Markets, level: Level, c: GroupKey)
    ensures DirectAmong(t, m, level, [], c) == ZERO
    decreases |t|
  {
    if t != [] {
      AmongNone(t[..|t| - 1], m, level, c);
    }
  }

  lemma {:induction false} AmongOneMore(t: seq<Row>, m: Markets, level: Level,
                                        ks: seq<GroupKey>, k: GroupKey, c: GroupKey)
    requires k !in ks
    ensures DirectAmong(t, m, level, ks + [k], c) ==
            Add(DirectAmong(t, m, level, ks, c), if Coarsen(level, k) == c then Direct(t, m, level, k) else ZERO)
    decreases |t|
  {
    if t != [] {
      var front, r := t[..|t| - 1], t[|t| - 1];
      AmongOneMore(front, m, level, ks, k, c);
      RowOneMore(m, level, ks, k, c, r);
      if Coarsen(level, k) == c {
        AddMiddle(DirectAmong(front, m, level, ks, c), Direct(front, m, level, k),
                  RowAmong(m, level, ks, c, r), RowDirect(m, level, k, r));
      }
    }
  }

  /** The rows read are rows of the view, each once. */
  ghost predicate Reads(t: seq<Row>, m: Markets, level: Level, view: map<GroupKey, Sums>, ks: seq<GroupKey>) {
    Distinct(ks) && forall k :: k in ks ==> k in view && view[k] == Direct(t, m, level, k)
  }

  lemma ReadsFront(t: seq<Row>, m: Markets, level: Level, view: map<GroupKey, Sums>, ks: seq<GroupKey>)
    requires Reads(t, m, level, view, ks) && ks != []
    ensures var n := |ks| - 1;
            && Reads(t, m, level, view, ks[..n]) && ks[n] !in ks[..n]
            && ks[n] in view && view[ks[n]] == Direct(t, m, level, ks[n])
  {
  }

  lemma AmongLast(t: seq<Row>, m: Markets, level: Level, ks: seq<GroupKey>, c: GroupKey)
    requires ks != [] && ks[|ks| - 1] !in ks[..|ks| - 1]
    ensures var n := |ks| - 1;
            DirectAmong(t, m, level, ks, c) ==
            Add(DirectAmong(t, m, level, ks[..n], c),
                if Coarsen(level, ks[n]) == c then Direct(t, m, level, ks[n]) else ZERO)
  {
    var n := |ks| - 1;
    assert ks[..n] + [ks[n]] == ks;
    AmongOneMore(t, m, level, ks[..n], ks[n], c);
  }

  lemma {:induction false} SumIsAmong(t: seq<Row>, m: Markets, level: Level, view: map<GroupKey, Sums>,
                                      ks: seq<GroupKey>, c: GroupKey)
    requires Reads(t, m, level, view, ks)
    ensures SumOfView(view, ks, level, c) == DirectAmong(t, m, level, ks, c)
    decreases |ks|
  {
    if ks == [] {
      AmongNone(t, m, level, c);
    } else {
      ReadsFront(t, m, level, view, ks);
      SumIsAmong(t, m, level, view, ks[..|ks| - 1], c);
      AmongLast(t, m, level, ks, c);
    }
  }

  lemma {:induction false} AmongAll(t: seq<Row>, m: Markets, level: Level, ks: seq<GroupKey>, c: GroupKey)
    requires level != ByExchange
    requires forall r :: r in t && Joined(m, r) ==> KeyAt(level, r) in ks
    ensures DirectAmong(t, m, level, ks, c) == Direct(t, m, Coarser(level), c)
    decreases |t|
  {
    if t != [] {
      AmongAll(t[..|t| - 1], m, level, ks, c);
      assert t[|t| - 1] in t;
    }
  }

  lemma GroupsCoarsen(t: seq<Row>, m: Markets, level: Level, c: GroupKey)
    requires level != ByExchange
    ensures c in GroupKeys(t, m, Coarser(level)) <==>
            exists k :: k in GroupKeys(t, m, level) && Coarsen(level, k) == c
  {
    if c in GroupKeys(t, m, Coarser(level)) {
      var r :| r in t && Joined(m, r) && KeyAt(Coarser(level), r) == c;
      assert KeyAt(level, r) in GroupKeys(t, m, level);
    }
    if k :| k in GroupKeys(t, m, level) && Coarsen(level, k) == c {
      var r :| r in t && Joined(m, r) && KeyAt(level, r) == k;
      assert KeyAt(Coarser(level), r) == c;
    }
  }

  lemma ViewRow(t: seq<Row>, m: Markets, level: Level, k: GroupKey)
    ensures k in View(t, m, level) <==> k in GroupKeys(t, m, level)
    ensures k in View(t, m, level) ==> View(t, m, level)[k] == Direct(t, m, level, k)
  {
  }

  lemma ListsReads(t: seq<Row>, m: Markets, level: Level, ks: seq<GroupKey>)
    requires Lists(ks, View(t, m, level))
    ensures Reads(t, m, level, View(t, m, level), ks)
    ensures forall r :: r in t && Joined(m, r) ==> KeyAt(level, r) in ks
  {
    forall k | k in ks ensures k in View(t, m, level) && View(t, m, level)[k] == Direct(t, m, level, k) {
      ViewRow(t, m, level, k);
    }
    forall r | r in t && Joined(m, r) ensures KeyAt(level, r) in ks {
      ViewRow(t, m, level, KeyAt(level, r));
    }
  }

  lemma ViewSum(t: seq<Row>, m: Markets, level: Level, ks: seq<GroupKey>, c: GroupKey)
    requires level != ByExchange && Lists(ks, View(t, m, level))
    ensures SumOfView(View(t, m, level), ks, level, c) == Direct(t, m, Coarser(level), c)
  {
    ListsReads(t, m, level, ks);
    AmongAll(t, m, level, ks, c);
    SumIsAmong(t, m, level, View(t, m, level), ks, c);
  }

  lemma ViewsCoarsen(t: seq<Row>, m: Markets, level: Level, c: GroupKey)
    requires level != ByExchange
    ensures c in View(t, m, Coarser(level)) <==> exists k :: k in View(t, m, level) && Coarsen(level, k) == c
  {
    GroupsCoarsen(t, m, level, c);
    ViewRow(t, m, Coarser(level), c);
    if k :| k in GroupKeys(t, m, level) && Coarsen(level, k) == c {
      ViewRow(t, m, level, k);
    }
    if k :| k in View(t, m, level) && Coarsen(level, k) == c {
      ViewRow(t, m, level, k);
    }
  }

  /**
   Conservation. For every table, the rows of a view summed over users give exactly the rows of the market view, and
   those summed over markets give exactly the rows of the exchange view, in whatever order the view is read; the
   coarser view has a row for a group exactly when the finer one has a row that belongs to it.
   */
  lemma RollupConserves(t: seq<Row>, m: Markets, level: Level, ks: seq<GroupKey>, c: GroupKey)
    requires level != ByExchange && Lists(ks, View(t, m, level))
    ensures c in View(t, m, Coarser(level)) <==> exists k :: k in View(t, m, level) && Coarsen(level, k) == c
    ensures c in View(t, m, Coarser(level)) ==>
              SumOfView(View(t, m, level), ks, level, c) == View(t, m, Coarser(level))[c]
  {
    ViewsCoarsen(t, m, level, c);
    ViewRow(t, m, Coarser(level), c);
    ViewSum(t, m, level, ks, c);
  }

  /** The row belongs to the group: it has a market, and agrees with every column that the group names. */
  predicate InGroup(m: Markets, k: GroupKey, r: Row) {
    && (r.exchange, r.fill.coin) in m
    && HourOf(r.fill.timestamp) == k.hour && r.exchange == k.exchange
    && (k.market == None || k.market == Some(r.fill.coin))
    && (k.user == None || k.user == Some(r.fill.user))
  }

  /** Users are grouped by hour, exchange, market and user, markets without the user, exchanges without both. */
  predicate Fits(level: Level, k: GroupKey) {
    (k.market.Some? <==> level == ByUser || level == ByMarket) && (k.user.Some? <==> level == ByUser)
  }

  lemma KeyAtIs(m: Markets, level: Level, k: GroupKey, r: Row)
    ensures Joined(m, r) && KeyAt(level, r) == k <==> Fits(level, k) && InGroup(m, k, r)
  {
  }

  /** A view has a row for exactly the groups that some row of the table belongs to. */
  lemma ViewGroups(t: seq<Row>, m: Markets, level: Level, k: GroupKey)
    ensures k in View(t, m, level) <==> Fits(level, k) && exists i :: 0 <= i < |t| && InGroup(m, k, t[i])
  {
    ViewRow(t, m, level, k);
    if k in GroupKeys(t, m, level) {
      var r :| r in t && Joined(m, r) && KeyAt(level, r) == k;
      KeyAtIs(m, level, k, r);
      var i :| 0 <= i < |t| && t[i] == r;
      assert InGroup(m, k, t[i]);
    }
    if i :| Fits(level, k) && 0 <= i < |t| && InGroup(m, k, t[i]) {
      KeyAtIs(m, level, k, t[i]);
      assert t[i] in t;
    }
  }

  /**
   The summed columns of a view row: number of trades, volume, volume of the buys, volume and number on spot markets,
   PnL and fees, where a missing PnL or fee counts as none.
   */
  lemma {:induction false} ViewSums(t: seq<Row>, m: Markets, level: Level, k: GroupKey, here: seq<int>,
                                    worth: seq<int>, bought: seq<int>, spot: seq<int>, pnl: seq<int>, fees: seq<int>)
    requires Fits(level, k)
    requires |here| == |worth| == |bought| == |spot| == |pnl| == |fees| == |t|
    requires forall i :: 0 <= i < |t| ==> here[i] == if InGroup(m, k, t[i]) then 1 else 0
    requires forall i :: 0 <= i < |t| ==> worth[i] == if here[i] == 1 then t[i].fill.price * t[i].fill.size else 0
    requires forall i :: 0 <= i < |t| ==> bought[i] == if t[i].fill.side == Buy then worth[i] else 0
    requires forall i :: 0 <= i < |t| ==>
               spot[i] == if InGroup(m, k, t[i]) && m[(t[i].exchange, t[i].fill.coin)] == Spot then worth[i] else 0
    requires forall i :: 0 <= i < |t| ==>
               pnl[i] == if here[i] == 1 && t[i].fill.closedPnl != None then t[i].fill.closedPnl.value else 0
    requires forall i :: 0 <= i < |t| ==>
               fees[i] == if here[i] == 1 && t[i].fill.fee != None then t[i].fill.fee.value else 0
    ensures var s := Direct(t, m, level, k);
            && s.trades == Sum(here) && s.total == Sum(worth) && s.buy == Sum(bought)
            && s.spotVolume == Sum(spot) && s.pnl == Sum(pnl) && s.fees == Sum(fees)
    decreases |t|
  {
    if t != [] {
      var n := |t| - 1;
      ViewSums(t[..n], m, level, k, here[..n], worth[..n], bought[..n], spot[..n], pnl[..n], fees[..n]);
      KeyAtIs(m, level, k, t[n]);
    }
  }

  lemma {:induction false} DirectBalances(t: seq<Row>, m: Markets, level: Level, k: GroupKey)
    ensures var s := Direct(t, m, level, k);
            && s.buy + s.sell == s.total && s.buy - s.sell == s.net
            && s.spotVolume + s.perpVolume == s.total && s.spotTrades + s.perpTrades == s.trades
            && 0 <= s.trades
    decreases |t|
  {
    if t != [] {
      DirectBalances(t[..|t| - 1], m, level, k);
    }
  }

  /** In every view row: buy and sell make up the total and the net volume, spot and perp the total and the trades. */
  lemma ViewBalances(t: seq<Row>, m: Markets, level: Level, k: GroupKey)
    requires k in View(t, m, level)
    ensures var s := View(t, m, level)[k];
            && s.buy + s.sell == s.total && s.buy - s.sell == s.net
            && s.spotVolume + s.perpVolume == s.total && s.spotTrades + s.perpTrades == s.trades
  {
    DirectBalances(t, m, level, k);
  }

  /** A market's trades are all of one kind, so a market row's spot part is all or nothing. */
  lemma {:induction false} MarketIsOneKind(t: seq<Row>, m: Markets, level: Level, k: GroupKey)
    requires level != ByExchange && k.market.Some? && (k.exchange, k.market.value) in m
    ensures var s := Direct(t, m, level, k);
            if m[(k.exchange, k.market.value)] == Spot then s.spotVolume == s.total && s.perpTrades == 0
            else s.perpVolume == s.total && s.spotTrades == 0
    decreases |t|
  {
    if t != [] {
      MarketIsOneKind(t[..|t| - 1], m, level, k);
    }
  }
}
