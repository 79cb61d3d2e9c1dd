/** Fills, the `fills` table with its `unique_fill` key, and inserts with ON CONFLICT DO NOTHING. */
module Fills {
  import opened Wrappers

  datatype Side = Buy | Sell

  /** A parsed fill; prices, sizes, fees and PnL are exact integers in units of 1e-10. */
  datatype Fill = Fill(
    user: string, coin: string, side: Side, price: int, size: int,
    fee: Option<int>, closedPnl: Option<int>, timestamp: int,
    block: Option<int>, sourceId: Option<string>)

  /** The columns of `unique_fill`, for the rows of one exchange. */
  datatype Key = Key(user: string, coin: string, timestamp: int, price: int, size: int)

  function KeyOf(f: Fill): Key {
    Key(f.user, f.coin, f.timestamp, f.price, f.size)
  }

  /** Two fills are the same row for the unique key exactly if user, coin, time, price and size agree. */
  lemma SameKey(f: Fill, g: Fill)
    ensures KeyOf(f) == KeyOf(g) <==>
            f.user == g.user && f.coin == g.coin && f.timestamp == g.timestamp && f.price == g.price && f.size == g.size
  {
  }

  function Keys(t: seq<Fill>): set<Key> {
    set f | f in t :: KeyOf(f)
  }

  /** The rows of the table, listed in the order in which they were inserted. */
  ghost predicate UniqueKeys(t: seq<Fill>) {
    forall i, j :: 0 <= i < j < |t| ==> KeyOf(t[i]) != KeyOf(t[j])
  }

  function InsertOne(t: seq<Fill>, f: Fill): seq<Fill> {
    if KeyOf(f) in Keys(t) then t else t + [f]
  }

  /** One INSERT ... ON CONFLICT DO NOTHING per fill, in order. */
  function InsertAll(t: seq<Fill>, fs: seq<Fill>): seq<Fill> {
    if fs == [] then t else InsertOne(InsertAll(t, fs[..|fs| - 1]), fs[|fs| - 1])
  }

  /** `u` is what is left of inserting `fs` into `t` when the work stopped somewhere. */
  ghost predicate PrefixInserted(t: seq<Fill>, fs: seq<Fill>, u: seq<Fill>) {
    exists k :: 0 <= k <= |fs| && u == InsertAll(t, fs[..k])
  }

  lemma {:induction false} InsertAllAppend(t: seq<Fill>, a: seq<Fill>, b: seq<Fill>)
    ensures InsertAll(t, a + b) == InsertAll(InsertAll(t, a), b)
    decreases |b|
  {
    if b == [] {
      assert a + b == a;
    } else {
      var c := b[..|b| - 1];
      InsertAllAppend(t, a, c);
      assert (a + b)[..|a + b| - 1] == a + c;
    }
  }

  lemma {:induction false} InsertAllKeys(t: seq<Fill>, fs: seq<Fill>)
    ensures Keys(InsertAll(t, fs)) == Keys(t) + Keys(fs)
    decreases |fs|
  {
    if fs != [] {
      var n := |fs| - 1;
      InsertAllKeys(t, fs[..n]);
      assert fs == fs[..n] + [fs[n]];
      KeysAppend(fs[..n], [fs[n]]);
      KeysAppend(InsertAll(t, fs[..n]), [fs[n]]);
    }
  }

  lemma KeysAppend(a: seq<Fill>, b: seq<Fill>)
    ensures Keys(a + b) == Keys(a) + Keys(b)
  {
  }

  lemma {:induction false} InsertAllExtends(t: seq<Fill>, fs: seq<Fill>)
    ensures t <= InsertAll(t, fs)
    decreases |fs|
  {
    if fs != [] {
      InsertAllExtends(t, fs[..|fs| - 1]);
    }
  }

  lemma {:induction false} InsertAllUnique(t: seq<Fill>, fs: seq<Fill>)
    requires UniqueKeys(t)
    ensures UniqueKeys(InsertAll(t, fs))
    decreases |fs|
  {
    if fs != [] {
      InsertAllUnique(t, fs[..|fs| - 1]);
    }
  }

  lemma {:induction false} InsertAllNothingNew(t: seq<Fill>, fs: seq<Fill>)
    requires Keys(fs) <= Keys(t)
    ensures InsertAll(t, fs) == t
    decreases |fs|
  {
    if fs != [] {
      var n := |fs| - 1;
      assert KeyOf(fs[n]) in Keys(fs);
      InsertAllNothingNew(t, fs[..n]);
    }
  }

  /** Inserting the same fills again adds no row. */
  lemma InsertTwice(t: seq<Fill>, fs: seq<Fill>)
    ensures InsertAll(InsertAll(t, fs), fs) == InsertAll(t, fs)
  {
    InsertAllKeys(t, fs);
    InsertAllNothingNew(InsertAll(t, fs), fs);
  }

  /** Starting over after a partial insert: the longer of the two prefixes is what counts. */
  lemma PrefixAbsorbed(t: seq<Fill>, fs: seq<Fill>, i: nat, j: nat)
    requires i <= |fs| && j <= |fs|
    ensures InsertAll(InsertAll(t, fs[..i]), fs[..j]) == InsertAll(t, fs[..if i <= j then j else i])
  {
    if i <= j {
      assert fs[..j] == fs[..i] + fs[i..j];
      InsertAllAppend(InsertAll(t, fs[..i]), fs[..i], fs[i..j]);
      InsertTwice(t, fs[..i]);
      InsertAllAppend(t, fs[..i], fs[i..j]);
    } else {
      InsertAllKeys(t, fs[..i]);
      InsertAllNothingNew(InsertAll(t, fs[..i]), fs[..j]);
    }
  }

  /** First wins: which rows an insert leaves, said without replaying it. */
  lemma {:induction false} InsertAllRows(t: seq<Fill>, fs: seq<Fill>, r: Fill)
    ensures r in InsertAll(t, fs) <==>
            r in t || exists i :: 0 <= i < |fs| && r == fs[i]
                                  && KeyOf(r) !in Keys(t) && KeyOf(r) !in Keys(fs[..i])
    decreases |fs|
  {
    if fs != [] {
      var n := |fs| - 1;
      InsertAllRows(t, fs[..n], r);
      InsertAllKeys(t, fs[..n]);
      forall i | 0 <= i < n ensures fs[..n][..i] == fs[..i] {}
      if r == fs[n] && KeyOf(r) !in Keys(t) && KeyOf(r) !in Keys(fs[..n]) {
        assert r in InsertAll(t, fs);
      }
    }
  }
}
