/** The market registry: a cache beside the `markets` table, filled by loads, lookups and refreshes that may fail. */
module Registry {
  import opened Wrappers
  import opened Fills
  import opened Rollups

  /** A row of `markets` for one exchange, under its market_id. */
  datatype Market = Market(id: int, symbol: string, kind: MarketType, base: string, quote: string, active: bool)

  /** What one call of the metadata API yields: None if the call fails. */
  datatype Metadata = Metadata(perps: Option<seq<string>>, spotTokens: Option<seq<string>>)

  datatype Op =
    | LoadFromDb
    | Refresh(meta: Metadata)
    | Lookup(coin: string, meta: Metadata)
    | Elsewhere(coin: string)   // another process creates the market

  /** `faults` says which of the registry's statements fail, `clock` counts them. */
  class MarketRegistry {
    const faults: nat -> bool
    var clock: nat
    var table: map<string, Market>
    var nextId: int
    var cache: map<string, Market>

    /** Cached ids are the table's; ids are distinct, and below the sequence. */
    ghost predicate Valid()
      reads this
    {
      && (forall k :: k in cache ==> k in table && cache[k].id == table[k].id)
      && (forall j, k :: j in table && k in table && j != k ==> table[j].id != table[k].id)
      && (forall k :: k in table ==> table[k].id < nextId)
    }

    /** No market disappears and none changes its id. */
    twostate predicate Grown()
      reads this
    {
      forall k :: k in old(table) ==> k in table && table[k].id == old(table)[k].id
    }

    constructor (faults: nat -> bool)
      ensures Valid() && table == map[] && cache == map[] && this.faults == faults && clock == 0
    {
      this.faults, clock, table, nextId, cache := faults, 0, map[], 1, map[];
    }

    method Execute() returns (ok: bool)
      modifies this`clock
      ensures clock == old(clock) + 1 && ok == !faults(old(clock))
    {
      ok := !faults(clock);
      clock := clock + 1;
    }

    /** Since `from`, a statement failed. */
    ghost predicate Faulted(from: nat)
      reads this
    {
      FaultIn(faults, from, clock)
    }

    method LoadMarketsFromDb() returns (ok: bool)
      requires Valid()
      modifies this`cache, this`clock
      ensures Valid()
      ensures old(clock) <= clock && (!ok ==> Faulted(old(clock)))
      ensures ok ==> forall k :: k in table && table[k].active ==> k in cache && cache[k] == table[k]
      ensures forall k :: k in old(cache) ==> k in cache
      ensures cache == if ok then old(cache) + ActiveRows(table) else old(cache)
      ensures ok ==> forall k :: k in cache <==> k in old(cache) || (k in table && table[k].active)
    {
      ok := Execute();
      if !ok {
        return;
      }
      cache := CacheAll(cache, ActiveRows(table));
    }

    /** INSERT ... ON CONFLICT DO UPDATE ... RETURNING id: an existing market keeps its id; the sequence moves. */
    method UpsertMarket(marketId: string, symbol: string, kind: MarketType, base: string) returns (ok: bool)
      requires Valid()
      modifies this
      ensures Valid() && Grown()
      ensures ok ==> marketId in cache && marketId in table && cache[marketId].id == table[marketId].id
                     && cache[marketId].symbol == symbol == table[marketId].symbol
                     && cache[marketId].kind == kind == table[marketId].kind
      ensures ok ==> table == old(table)[marketId := table[marketId]]
      ensures ok ==> cache == old(cache)[marketId := table[marketId]]
      ensures ok ==> table[marketId].base == base && table[marketId].quote == "USD"
                     && table[marketId].active == (marketId in old(table) ==> old(table)[marketId].active)
      ensures !ok ==> table == old(table) && cache == old(cache)
      ensures old(clock) <= clock && (!ok ==> Faulted(old(clock)))
    {
      ok := Execute();
      if !ok {
        return;
      }
      var id := if marketId in table then table[marketId].id else nextId;
      var active := if marketId in table then table[marketId].active else true;
      nextId := nextId + 1;
      table := table[marketId := Market(id, symbol, kind, base, "USD", active)];
      cache := cache[marketId := Market(id, symbol, kind, base, "USD", active)];
    }

    /** One more upsert; `added` are the rows that the earlier ones have written over `table0` and `cache0`. */
    method UpsertAlso(marketId: string, symbol: string, kind: MarketType, base: string,
                      ghost table0: map<string, Market>, ghost cache0: map<string, Market>,
                      ghost added: map<string, Market>)
      returns (ok: bool, ghost more: map<string, Market>)
      requires Valid() && table == table0 + added && cache == cache0 + added
      modifies this
      ensures Valid() && Grown() && old(clock) <= clock && (!ok ==> Faulted(old(clock)))
      ensures table == table0 + more && cache == cache0 + more
      ensures if ok then Wrote(added, marketId, symbol, kind, base, more) else more == added
    {
      ok := UpsertMarket(marketId, symbol, kind, base);
      more := added;
      if ok {
        more := added[marketId := table[marketId]];
        AddedOne(table0, added, marketId, table[marketId]);
        AddedOne(cache0, added, marketId, table[marketId]);
      }
    }

    /** The perpetual markets; `added` are the rows that were written, to the table and to the cache. */
    method UpsertPerps(perps: seq<string>) returns (ok: bool, ghost added: map<string, Market>)
      requires Valid()
      modifies this
      ensures Valid() && Grown()
      ensures table == old(table) + added && cache == old(cache) + added
      ensures added.Keys <= PerpIds(perps) && (ok ==> PerpsListed(added, perps, |perps|))
      ensures old(clock) <= clock && (!ok ==> Faulted(old(clock)))
    {
      added := map[];
      for i := 0 to |perps|
        invariant Valid() && Grown() && old(clock) <= clock
        invariant table == old(table) + added && cache == old(cache) + added
        invariant added.Keys <= PerpIds(perps) && PerpsListed(added, perps, i)
      {
        ghost var before := added;
        ok, added := UpsertAlso(perps[i], perps[i] + "-USD", Perp, perps[i], old(table), old(cache), added);
        if !ok {
          return;
        }
        NextPerpListed(before, perps, i, added);
      }
      ok := true;
    }

    /** The spot markets, under their indices. */
    method UpsertSpots(tokens: seq<string>) returns (ok: bool, ghost added: map<string, Market>)
      requires Valid()
      modifies this
      ensures Valid() && Grown()
      ensures table == old(table) + added && cache == old(cache) + added
      ensures added.Keys <= SpotIds(|tokens|) && (ok ==> SpotsListed(added, tokens, |tokens|))
      ensures old(clock) <= clock && (!ok ==> Faulted(old(clock)))
    {
      added := map[];
      for i := 0 to |tokens|
        invariant Valid() && Grown() && old(clock) <= clock
        invariant table == old(table) + added && cache == old(cache) + added
        invariant added.Keys <= SpotIds(|tokens|) && SpotsListed(added, tokens, i)
      {
        ghost var before := added;
        ok, added := UpsertAlso(SpotId(i), tokens[i] + "/USD", Spot, tokens[i], old(table), old(cache), added);
        if !ok {
          return;
        }
        NextSpotListed(before, tokens, i, added);
      }
      ok := true;
    }

    /**
     `refresh_metadata`: perpetual markets, then spot tokens by index; any call or upsert may end it halfway. If it
     succeeds, every listed market is in table and cache as the metadata say, a spot id before a perp of that name.
     */
    method RefreshMetadata(meta: Metadata) returns (ok: bool)
      requires Valid()
      modifies this
      ensures Valid() && Grown()
      ensures old(clock) <= clock
      ensures !ok ==> meta.perps.None? || meta.spotTokens.None? || Faulted(old(clock))
      ensures ok ==> meta.perps.Some? && meta.spotTokens.Some?
                     && (forall i :: 0 <= i < |meta.perps.value| ==> meta.perps.value[i] in cache)
                     && (forall i :: 0 <= i < |meta.spotTokens.value| ==> SpotId(i) in cache)
      ensures ok ==> AllListed(table, meta.perps.value, meta.spotTokens.value)
                     && AllListed(cache, meta.perps.value, meta.spotTokens.value)
    {
      ghost var perpRows, spotRows := map[], map[];
      ghost var tableBefore, cacheBefore := table, cache;
      ok := meta.perps.Some?;
      if ok {
        ok, perpRows := UpsertPerps(meta.perps.value);
      }
      if ok && meta.spotTokens.Some? {
        ok, spotRows := UpsertSpots(meta.spotTokens.value);
        if ok {
          ListedTogether(tableBefore, perpRows, spotRows, meta.perps.value, meta.spotTokens.value);
          ListedTogether(cacheBefore, perpRows, spotRows, meta.perps.value, meta.spotTokens.value);
        }
      } else {
        ok := false;
      }
    }

    /** The database function `get_or_create_market`: look up, else insert a placeholder. */
    method GetOrCreateRow(marketId: string) returns (r: Result<int>)
      requires Valid()
      modifies this`table, this`nextId, this`clock
      ensures Valid() && Grown()
      ensures r.Ok? ==> marketId in table && table[marketId].id == r.value
      ensures old(clock) <= clock && (r.Err? ==> Faulted(old(clock)))
      ensures r.Ok? && marketId !in old(table) ==>
                table[marketId].kind == if marketId != [] && marketId[0] == '@' then Spot else Perp
      ensures r.Ok? && marketId !in old(table) ==>
                var m := table[marketId];
                table == old(table)[marketId := m] && m.symbol == m.base == marketId && m.quote == "USD" && m.active
      ensures marketId in old(table) || r.Err? ==> table == old(table)
    {
      var ok := Execute();
      if !ok {
        return Err(Retryable);
      }
      if marketId in table {
        return Ok(table[marketId].id);
      }
      var id := nextId;
      var kind := if marketId != [] && marketId[0] == '@' then Spot else Perp;
      nextId := nextId + 1;
      table := table[marketId := Market(id, marketId, kind, marketId, "USD", true)];
      return Ok(id);
    }

    /** The lookup behind every inserted fill: cache, then database, then a refresh whose failure is ignored. */
    method GetOrCreateMarket(marketId: string, meta: Metadata) returns (r: Result<int>)
      requires Valid()
      modifies this
      ensures Valid() && Grown()
      ensures r.Ok? ==> marketId in table && table[marketId].id == r.value
      ensures old(clock) <= clock && (r.Err? ==> Faulted(old(clock)))
      ensures marketId in old(cache) ==> r == Ok(old(cache)[marketId].id)
    {
      if marketId in cache {
        return Ok(cache[marketId].id);
      }
      r := GetOrCreateRow(marketId);
      if r.Ok? {
        var _ := RefreshMetadata(meta);
      }
    }

    function Ids(): map<string, int>
      reads this
    {
      map k | k in table :: table[k].id
    }

    /**
     Any sequence of operations, each of which may fail, alone or midway. A market that has been answered twice was
     answered with the same id, and two different markets never with the same one.
     */
    method Session(ops: seq<Op>) returns (answers: seq<Option<int>>)
      requires Valid()
      modifies this
      ensures Valid() && Grown()
      ensures |answers| == |ops| && old(clock) <= clock
      ensures forall i :: 0 <= i < |ops| && ops[i].Lookup? && answers[i].None? ==> Faulted(old(clock))
      ensures forall i :: 0 <= i < |ops| && answers[i].Some? ==> ops[i].Lookup? && ops[i].coin in table
                                                                   && table[ops[i].coin].id == answers[i].value
      ensures forall i, j :: 0 <= i < |ops| && 0 <= j < |ops| && answers[i].Some? && answers[j].Some? ==>
                               (ops[i].coin == ops[j].coin <==> answers[i] == answers[j])
    {
      answers := [];
      for n := 0 to |ops|
        invariant Valid() && Grown() && |answers| == n && old(clock) <= clock
        invariant forall i :: 0 <= i < n && ops[i].Lookup? && answers[i].None? ==> Faulted(old(clock))
        invariant forall i :: 0 <= i < n && answers[i].Some? ==> ops[i].Lookup? && ops[i].coin in table
                                                                   && table[ops[i].coin].id == answers[i].value
      {
        var answer: Option<int> := None;
        match ops[n] {
          case LoadFromDb => var _ := LoadMarketsFromDb();
          case Refresh(meta) => var _ := RefreshMetadata(meta);
          case Elsewhere(coin) => var _ := GetOrCreateRow(coin);
          case Lookup(coin, meta) =>
            var r := GetOrCreateMarket(coin, meta);
            if r.Ok? {
              answer := Some(r.value);
            }
        }
        answers := answers + [answer];
      }
    }

    /** One look-up; `before` are rows that were looked up earlier. */
    method ResolveOne(f: Fill, meta: Metadata, ghost before: seq<IdRow>) returns (ok: bool, row: IdRow)
      requires Valid() && Recorded(Ids(), before)
      modifies this
      ensures Valid() && Grown() && old(clock) <= clock && (!ok ==> Faulted(old(clock)))
      ensures row.fill == f && Recorded(Ids(), if ok then before + [row] else before)
    {
      ghost var ids := Ids();
      var id := GetOrCreateMarket(f.coin, meta);
      RecordedStays(ids, Ids(), before);
      row := IdRow(if id.Ok? then id.value else 0, f);
      ok := id.Ok?;
      if ok {
        RecordedAppend(Ids(), before, row);
      }
    }

    /** The look-ups before an insert: every fill gets its market's id; the first unanswered one ends it. */
    method Resolve(fills: seq<Fill>, metas: nat -> Metadata) returns (ok: bool, rows: seq<IdRow>)
      requires Valid()
      modifies this
      ensures Valid() && Grown() && old(clock) <= clock && (!ok ==> Faulted(old(clock)))
      ensures ok ==> FillsOf(rows) == fills && Recorded(Ids(), rows)
    {
      rows := [];
      for i := 0 to |fills|
        invariant Valid() && Grown() && old(clock) <= clock
        invariant |rows| == i && forall k :: 0 <= k < i ==> rows[k].fill == fills[k]
        invariant Recorded(Ids(), rows)
      {
        var row;
        ok, row := ResolveOne(fills[i], metas(i), rows);
        if !ok {
          return;
        }
        rows := rows + [row];
      }
      FillsOfAre(rows, fills);
      ok := true;
    }

    /** One insert into the table of rows with market ids: it does what the insert of the fills by coin does. */
    method StoreFills(stored: seq<IdRow>, fills: seq<Fill>, metas: nat -> Metadata) returns (ok: bool, now: seq<IdRow>)
      requires Valid() && Recorded(Ids(), stored)
      modifies this
      ensures Valid() && Grown() && Recorded(Ids(), now) && old(clock) <= clock
      ensures ok ==> FillsOf(now) == InsertAll(FillsOf(stored), fills)
      ensures !ok ==> now == stored && Faulted(old(clock))
    {
      ghost var ids := Ids();
      var rows;
      ok, rows := Resolve(fills, metas);
      RecordedStays(ids, Ids(), stored);
      now := stored;
      if ok {
        DedupByIdIsDedupByCoin(Ids(), stored, rows);
        now := InsertRows(stored, rows);
      }
    }

    /** Whatever the registry does, and then one insert. */
    method IngestOne(stored: seq<IdRow>, fills: seq<Fill>, before: seq<Op>, metas: nat -> Metadata)
      returns (ok: bool, now: seq<IdRow>)
      requires Valid() && Recorded(Ids(), stored)
      modifies this
      ensures Valid() && Grown() && old(clock) <= clock
      ensures ok ==> Recorded(Ids(), now) && FillsOf(now) == InsertAll(FillsOf(stored), fills)
      ensures !ok ==> Faulted(old(clock))
    {
      ghost var ids := Ids();
      var _ := Session(before);
      RecordedStays(ids, Ids(), stored);
      ok, now := StoreFills(stored, fills, metas);
    }

    /**
     Inserts with anything in between that the registry does. The rows that the key with market ids leaves are those
     that the key with coins leaves, from the first batch to the last or to the one that a failing statement ends.
     */
    method Ingest(batches: seq<seq<Fill>>, between: nat -> seq<Op>, metas: nat -> Metadata)
      returns (done: nat, rows: seq<IdRow>)
      requires Valid()
      modifies this
      ensures Valid() && Grown() && old(clock) <= clock
      ensures done <= |batches| && (done < |batches| ==> Faulted(old(clock)))
      ensures FillsOf(rows) == InsertAll([], Concat(batches[..done]))
    {
      done, rows := 0, [];
      while done < |batches|
        invariant Valid() && Grown() && old(clock) <= clock
        invariant done <= |batches| && Recorded(Ids(), rows)
        invariant FillsOf(rows) == InsertAll([], Concat(batches[..done]))
      {
        var ok, now := IngestOne(rows, batches[done], between(done), metas);
        if !ok {
          return;
        }
        InsertNext(batches, done);
        rows := now;
        done := done + 1;
      }
    }
  }

  function Decimal(n: nat): string {
    if n < 10 then [(('0' as int) + n) as char] else Decimal(n / 10) + [(('0' as int) + n % 10) as char]
  }

  function SpotId(index: nat): string {
    "@" + Decimal(index)
  }

  /** The rows of the active markets. */
  function ActiveRows(table: map<string, Market>): map<string, Market> {
    map k | k in table && table[k].active :: table[k]
  }

  lemma InsertNext(batches: seq<seq<Fill>>, k: nat)
    requires k < |batches|
    ensures InsertAll([], Concat(batches[..k + 1])) == InsertAll(InsertAll([], Concat(batches[..k])), batches[k])
  {
    assert batches[..k + 1][..k] == batches[..k];
    InsertAllAppend([], Concat(batches[..k]), batches[k]);
  }

  /** The loop over the rows that a query has returned. */
  method CacheAll(cache: map<string, Market>, rows: map<string, Market>) returns (filled: map<string, Market>)
    ensures filled == cache + rows
  {
    filled := cache;
    var todo := rows.Keys;
    while todo != {}
      invariant todo <= rows.Keys
      invariant filled.Keys == cache.Keys + (rows.Keys - todo)
      invariant forall k :: k in filled ==> filled[k] == if k in rows && k !in todo then rows[k] else cache[k]
      decreases todo
    {
      var k :| k in todo;
      filled := filled[k := rows[k]];
      todo := todo - {k};
    }
  }

  function SpotIds(n: nat): set<string> {
    set i | 0 <= i < n :: SpotId(i)
  }

  function PerpIds(perps: seq<string>): set<string> {
    set p | p in perps
  }

  /** The map has the market under this id, with symbol, kind and base asset as the metadata say. */
  predicate Listed(rows: map<string, Market>, id: string, symbol: string, kind: MarketType, base: string) {
    id in rows && rows[id].symbol == symbol && rows[id].kind == kind && rows[id].base == base
    && rows[id].quote == "USD"
  }

  ghost predicate PerpsListed(rows: map<string, Market>, perps: seq<string>, n: nat)
    requires n <= |perps|
  {
    forall i :: 0 <= i < n ==> Listed(rows, perps[i], perps[i] + "-USD", Perp, perps[i])
  }

  ghost predicate SpotsListed(rows: map<string, Market>, tokens: seq<string>, n: nat)
    requires n <= |tokens|
  {
    forall i :: 0 <= i < n ==> Listed(rows, SpotId(i), tokens[i] + "/USD", Spot, tokens[i])
  }

  ghost predicate AllListed(rows: map<string, Market>, perps: seq<string>, tokens: seq<string>) {
    && SpotsListed(rows, tokens, |tokens|)
    && forall i :: 0 <= i < |perps| && perps[i] !in SpotIds(|tokens|) ==>
         Listed(rows, perps[i], perps[i] + "-USD", Perp, perps[i])
  }

  /** `more` are the rows with the one that was written for the market. */
  predicate Wrote(rows: map<string, Market>, id: string, symbol: string, kind: MarketType, base: string,
                  more: map<string, Market>)
  {
    Listed(more, id, symbol, kind, base) && more == rows[id := more[id]]
  }

  lemma AddedOne(rows: map<string, Market>, added: map<string, Market>, id: string, m: Market)
    ensures (rows + added)[id := m] == rows + added[id := m]
  {
  }

  lemma NextPerpListed(rows: map<string, Market>, perps: seq<string>, i: nat, more: map<string, Market>)
    requires i < |perps| && PerpsListed(rows, perps, i) && rows.Keys <= PerpIds(perps)
    requires Wrote(rows, perps[i], perps[i] + "-USD", Perp, perps[i], more)
    ensures PerpsListed(more, perps, i + 1) && more.Keys <= PerpIds(perps)
  {
    forall k | 0 <= k < i + 1 ensures Listed(more, perps[k], perps[k] + "-USD", Perp, perps[k]) {
      if perps[k] != perps[i] {
        assert Listed(rows, perps[k], perps[k] + "-USD", Perp, perps[k]);
      }
    }
  }

  lemma NextSpotListed(rows: map<string, Market>, tokens: seq<string>, i: nat, more: map<string, Market>)
    requires i < |tokens| && SpotsListed(rows, tokens, i) && rows.Keys <= SpotIds(|tokens|)
    requires Wrote(rows, SpotId(i), tokens[i] + "/USD", Spot, tokens[i], more)
    ensures SpotsListed(more, tokens, i + 1) && more.Keys <= SpotIds(|tokens|)
  {
    SpotIdIsNew(i);
    forall k | 0 <= k < i + 1 ensures Listed(more, SpotId(k), tokens[k] + "/USD", Spot, tokens[k]) {
      if k < i {
        assert Listed(rows, SpotId(k), tokens[k] + "/USD", Spot, tokens[k]);
      }
    }
  }

  lemma ListedTogether(rows: map<string, Market>, perpRows: map<string, Market>, spotRows: map<string, Market>,
                       perps: seq<string>, tokens: seq<string>)
    requires PerpsListed(perpRows, perps, |perps|) && SpotsListed(spotRows, tokens, |tokens|)
    requires spotRows.Keys <= SpotIds(|tokens|)
    ensures AllListed(rows + perpRows + spotRows, perps, tokens)
    ensures forall i :: 0 <= i < |perps| ==> perps[i] in rows + perpRows + spotRows
    ensures forall i :: 0 <= i < |tokens| ==> SpotId(i) in rows + perpRows + spotRows
  {
    var all := rows + perpRows + spotRows;
    forall i | 0 <= i < |perps| && perps[i] !in SpotIds(|tokens|)
      ensures Listed(all, perps[i], perps[i] + "-USD", Perp, perps[i])
    {
      assert Listed(perpRows, perps[i], perps[i] + "-USD", Perp, perps[i]);
    }
    forall i | 0 <= i < |perps| ensures perps[i] in all {
      assert Listed(perpRows, perps[i], perps[i] + "-USD", Perp, perps[i]);
    }
  }

  /** The decimal form: digits, no leading zero but for 0 itself, and their number is the one written. */
  lemma {:induction false} DecimalIs(n: nat)
    ensures var s := Decimal(n);
            s != [] && NumberOf(s) == n && (n > 0 ==> s[0] != '0') && forall i :: 0 <= i < |s| ==> '0' <= s[i] <= '9'
    decreases n
  {
    if n >= 10 {
      DecimalIs(n / 10);
      assert Decimal(n)[..|Decimal(n)| - 1] == Decimal(n / 10);
    } else {
      assert Decimal(n)[..0] == [];
    }
  }

  /** A spot id is `@` and the index in decimal; no two are the same. */
  lemma SpotIdIs(i: nat)
    ensures SpotId(i)[0] == '@' && NumberOf(SpotId(i)[1..]) == i
  {
    DecimalIs(i);
    assert SpotId(i)[1..] == Decimal(i);
  }

  lemma SpotIdIsNew(i: nat)
    ensures forall k :: 0 <= k < i ==> SpotId(k) != SpotId(i)
  {
    SpotIdIs(i);
    forall k | 0 <= k < i ensures SpotId(k) != SpotId(i) {
      SpotIdIs(k);
    }
  }

  // ------------------------------------------- market ids in the unique key

  /** The unique key as the table has it, with the market's id in place of its coin. */
  datatype IdKey = IdKey(user: string, market: int, timestamp: int, price: int, size: int)

  /** A row as the table stores it: the fill's coin stands for nothing but the market id. */
  datatype IdRow = IdRow(market: int, fill: Fill)

  function IdKeyOf(r: IdRow): IdKey {
    IdKey(r.fill.user, r.market, r.fill.timestamp, r.fill.price, r.fill.size)
  }

  function FillsOf(rows: seq<IdRow>): (fs: seq<Fill>)
    ensures |fs| == |rows|
  {
    if rows == [] then [] else FillsOf(rows[..|rows| - 1]) + [rows[|rows| - 1].fill]
  }

  function Concat(batches: seq<seq<Fill>>): seq<Fill> {
    if batches == [] then [] else Concat(batches[..|batches| - 1]) + batches[|batches| - 1]
  }

  ghost predicate Injective(ids: map<string, int>) {
    forall j, k :: j in ids && k in ids && ids[j] == ids[k] ==> j == k
  }

  /** The rows' ids are those of their coins. */
  ghost predicate Recorded(ids: map<string, int>, rows: seq<IdRow>) {
    forall r :: r in rows ==> r.fill.coin in ids && ids[r.fill.coin] == r.market
  }

  /** Ids recorded in rows stay right while no market disappears or changes its id. */
  lemma RecordedStays(ids: map<string, int>, later: map<string, int>, rows: seq<IdRow>)
    requires forall k :: k in ids ==> k in later && later[k] == ids[k]
    requires Recorded(ids, rows)
    ensures Recorded(later, rows)
  {
  }

  lemma RecordedAppend(ids: map<string, int>, rows: seq<IdRow>, r: IdRow)
    requires Recorded(ids, rows) && r.fill.coin in ids && ids[r.fill.coin] == r.market
    ensures Recorded(ids, rows + [r])
  {
  }

  /** ON CONFLICT DO NOTHING over the key with market ids. */
  function InsertRows(stored: seq<IdRow>, rows: seq<IdRow>): seq<IdRow> {
    if rows == [] then stored else
      var r := rows[|rows| - 1];
      var u := InsertRows(stored, rows[..|rows| - 1]);
      if IdKeyOf(r) in (set s | s in u :: IdKeyOf(s)) then u else u + [r]
  }

  lemma FillsOfAppend(rows: seq<IdRow>, r: IdRow)
    ensures FillsOf(rows + [r]) == FillsOf(rows) + [r.fill]
  {
    assert (rows + [r])[..|rows|] == rows;
  }

  lemma {:induction false} FillsOfAre(rows: seq<IdRow>, fills: seq<Fill>)
    requires |rows| == |fills| && forall k :: 0 <= k < |rows| ==> rows[k].fill == fills[k]
    ensures FillsOf(rows) == fills
    decreases |rows|
  {
    if rows != [] {
      var n := |rows| - 1;
      FillsOfAre(rows[..n], fills[..n]);
      assert fills == fills[..n] + [fills[n]];
    }
  }

  lemma {:induction false} FillsOfRows(rows: seq<IdRow>, k: Key)
    ensures k in Keys(FillsOf(rows)) <==> exists r :: r in rows && KeyOf(r.fill) == k
    decreases |rows|
  {
    if rows != [] {
      var n := |rows| - 1;
      FillsOfRows(rows[..n], k);
      assert rows == rows[..n] + [rows[n]];
      KeysAppend(FillsOf(rows[..n]), [rows[n].fill]);
    }
  }

  /** Under distinct ids two rows conflict by market id exactly if they do by coin. */
  lemma SameConflicts(ids: map<string, int>, u: seq<IdRow>, r: IdRow)
    requires Injective(ids) && Recorded(ids, u) && Recorded(ids, [r])
    ensures IdKeyOf(r) in (set s | s in u :: IdKeyOf(s)) <==> KeyOf(r.fill) in Keys(FillsOf(u))
  {
    FillsOfRows(u, KeyOf(r.fill));
    assert r in [r];
    assert forall s :: s in u ==> (IdKeyOf(s) == IdKeyOf(r) <==> KeyOf(s.fill) == KeyOf(r.fill));
  }

  /** With the registry's distinct ids, de-duplicating by market id and by coin leave the same rows. */
  lemma {:induction false} DedupByIdIsDedupByCoin(ids: map<string, int>, stored: seq<IdRow>, rows: seq<IdRow>)
    requires Injective(ids) && Recorded(ids, stored) && Recorded(ids, rows)
    ensures FillsOf(InsertRows(stored, rows)) == InsertAll(FillsOf(stored), FillsOf(rows))
    ensures Recorded(ids, InsertRows(stored, rows))
    decreases |rows|
  {
    if rows != [] {
      var front, r := rows[..|rows| - 1], rows[|rows| - 1];
      assert r in rows;
      DedupByIdIsDedupByCoin(ids, stored, front);
      var u := InsertRows(stored, front);
      SameConflicts(ids, u, r);
      FillsOfAppend(u, r);
      RecordedAppend(ids, u, r);
    }
  }
}
