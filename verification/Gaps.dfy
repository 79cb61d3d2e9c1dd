/** The gap query `get_missing_hours` and the row counts it rests on. */
module Gaps {
  import opened Hours
  import opened Fills

  /** Hours with fewer stored fills than this count as missing. */
  const SUFFICIENT: int := 1000

  /** Rows with `lo <= timestamp < hi`: the count of `check_time_range_exists`. */
  function CountIn(t: seq<Fill>, lo: int, hi: int): nat {
    if t == [] then 0 else
      var f := t[|t| - 1];
      CountIn(t[..|t| - 1], lo, hi) + (if lo <= f.timestamp < hi then 1 else 0)
  }

  /** Rows of hour `h` that lie in `[start, end)`: one group of the query's `hourly_counts`. */
  function HourCount(t: seq<Fill>, h: int, start: int, end: int): nat {
    if t == [] then 0 else
      var f := t[|t| - 1];
      HourCount(t[..|t| - 1], h, start, end) +
      (if HourOf(f.timestamp) == h && start <= f.timestamp < end then 1 else 0)
  }

  /** The whole hour holds enough rows. */
  predicate Full(t: seq<Fill>, h: int) {
    CountIn(t, HourStart(h), HourStart(h + 1)) >= SUFFICIENT
  }

  function MissingFrom(t: seq<Fill>, start: int, end: int, h: int): seq<int>
    decreases HourOf(end) - h
  {
    if h >= HourOf(end) then []
    else (if HourCount(t, h, start, end) < SUFFICIENT then [h] else []) + MissingFrom(t, start, end, h + 1)
  }

  /** The hours of `[trunc(start), trunc(end))` with fewer than 1000 rows between `start` and `end`. */
  function MissingHours(t: seq<Fill>, start: int, end: int): seq<int> {
    MissingFrom(t, start, end, HourOf(start))
  }

  // ------------------------------------------------------------------ counts

  lemma {:induction false} CountGrows(t: seq<Fill>, u: seq<Fill>, lo: int, hi: int)
    requires t <= u
    ensures CountIn(t, lo, hi) <= CountIn(u, lo, hi)
    decreases |u|
  {
    if t != u {
      CountGrows(t, u[..|u| - 1], lo, hi);
    }
  }

  lemma {:induction false} HourCountGrows(t: seq<Fill>, u: seq<Fill>, h: int, start: int, end: int)
    requires t <= u
    ensures HourCount(t, h, start, end) <= HourCount(u, h, start, end)
    decreases |u|
  {
    if t != u {
      HourCountGrows(t, u[..|u| - 1], h, start, end);
    }
  }

  lemma FullStays(t: seq<Fill>, u: seq<Fill>, h: int)
    requires t <= u && Full(t, h)
    ensures Full(u, h)
  {
    CountGrows(t, u, HourStart(h), HourStart(h + 1));
  }

  /** Clipping to `[start, end)` can only lose rows. */
  lemma {:induction false} HourCountClips(t: seq<Fill>, h: int, start: int, end: int)
    ensures HourCount(t, h, start, end) <= CountIn(t, HourStart(h), HourStart(h + 1))
    ensures start <= HourStart(h) && HourStart(h + 1) <= end ==>
              HourCount(t, h, start, end) == CountIn(t, HourStart(h), HourStart(h + 1))
  {
    if t != [] {
      HourCountClips(t[..|t| - 1], h, start, end);
      var ts := t[|t| - 1].timestamp;
      HourBounds(ts);
      if HourStart(h) <= ts < HourStart(h + 1) {
        HourIs(ts, h);
      }
    }
  }

  /** The rows of an hour that lie in `[start, end)` are those between the later start and the earlier end. */
  lemma {:induction false} HourCountIs(t: seq<Fill>, h: int, start: int, end: int)
    ensures HourCount(t, h, start, end) == CountIn(t, Max(start, HourStart(h)), Min(end, HourStart(h + 1)))
    decreases |t|
  {
    if t != [] {
      HourCountIs(t[..|t| - 1], h, start, end);
      var ts := t[|t| - 1].timestamp;
      HourBounds(ts);
      if HourStart(h) <= ts < HourStart(h + 1) {
        HourIs(ts, h);
      }
    }
  }

  /** The rows with `lo <= timestamp < hi`, by their places in the table. */
  function Between(t: seq<Fill>, lo: int, hi: int): set<int> {
    set i | 0 <= i < |t| && lo <= t[i].timestamp < hi
  }

  lemma {:induction false} CountIsBetween(t: seq<Fill>, lo: int, hi: int)
    ensures CountIn(t, lo, hi) == |Between(t, lo, hi)|
    decreases |t|
  {
    if t != [] {
      var n := |t| - 1;
      CountIsBetween(t[..n], lo, hi);
      var front := Between(t[..n], lo, hi);
      assert n !in front;
      assert Between(t, lo, hi) == front + (if lo <= t[n].timestamp < hi then {n} else {});
    }
  }

  // ------------------------------------------------------------- exactness

  lemma {:induction false} MissingFromExact(t: seq<Fill>, start: int, end: int, from: int)
    ensures forall h :: h in MissingFrom(t, start, end, from) <==>
                        from <= h < HourOf(end) && HourCount(t, h, start, end) < SUFFICIENT
    ensures forall i, j :: 0 <= i < j < |MissingFrom(t, start, end, from)| ==>
              MissingFrom(t, start, end, from)[i] < MissingFrom(t, start, end, from)[j]
    decreases HourOf(end) - from
  {
    if from < HourOf(end) {
      MissingFromExact(t, start, end, from + 1);
      var rest := MissingFrom(t, start, end, from + 1);
      assert forall i :: 0 <= i < |rest| ==> rest[i] in rest;
    }
  }

  /**
   The query returns exactly the hours with fewer than 1000 rows, not counting those before `start`, in strictly
   increasing order.
   */
  lemma MissingExact(t: seq<Fill>, start: int, end: int)
    ensures forall h :: h in MissingHours(t, start, end) <==>
                        HourOf(start) <= h < HourOf(end) && HourCount(t, h, start, end) < SUFFICIENT
    ensures forall h :: h in MissingHours(t, start, end) <==>
                        HourOf(start) <= h < HourOf(end)
                        && |Between(t, Max(start, HourStart(h)), HourStart(h + 1))| < 1000
    ensures forall i, j :: 0 <= i < j < |MissingHours(t, start, end)| ==>
              MissingHours(t, start, end)[i] < MissingHours(t, start, end)[j]
  {
    MissingFromExact(t, start, end, HourOf(start));
    forall h | HourOf(start) <= h < HourOf(end)
      ensures HourCount(t, h, start, end) == |Between(t, Max(start, HourStart(h)), HourStart(h + 1))|
    {
      HourBounds(end);
      HourCountIs(t, h, start, end);
      CountIsBetween(t, Max(start, HourStart(h)), HourStart(h + 1));
    }
  }

  lemma {:induction false} MissingFromShrinks(t: seq<Fill>, u: seq<Fill>, start: int, end: int, from: int)
    requires t <= u
    ensures |MissingFrom(u, start, end, from)| <= |MissingFrom(t, start, end, from)|
    ensures forall h :: h in MissingFrom(u, start, end, from) ==> h in MissingFrom(t, start, end, from)
    decreases HourOf(end) - from
  {
    if from < HourOf(end) {
      MissingFromShrinks(t, u, start, end, from + 1);
      HourCountGrows(t, u, from, start, end);
    }
  }

  /** Added rows can only remove hours from the answer. */
  lemma MissingShrinks(t: seq<Fill>, u: seq<Fill>, start: int, end: int)
    requires t <= u
    ensures |MissingHours(u, start, end)| <= |MissingHours(t, start, end)|
    ensures forall h :: h in MissingHours(u, start, end) ==> h in MissingHours(t, start, end)
  {
    MissingFromShrinks(t, u, start, end, HourOf(start));
  }

  /** An hour of the range that the query does not report is full. */
  lemma ReportedOrFull(t: seq<Fill>, start: int, end: int, h: int)
    requires HourOf(start) <= h < HourOf(end)
    ensures h in MissingHours(t, start, end) || Full(t, h)
  {
    MissingExact(t, start, end);
    HourCountClips(t, h, start, end);
  }

  lemma {:induction false} NothingBelow(t: seq<Fill>, start: int, end: int, from: int)
    requires forall h :: from <= h < HourOf(end) ==> HourCount(t, h, start, end) >= SUFFICIENT
    ensures MissingFrom(t, start, end, from) == []
    decreases HourOf(end) - from
  {
    if from < HourOf(end) {
      NothingBelow(t, start, end, from + 1);
    }
  }

  lemma {:induction false} SameCountBefore(t: seq<Fill>, h: int, start: int, a: int, b: int)
    requires HourStart(h + 1) <= a && HourStart(h + 1) <= b
    ensures HourCount(t, h, start, a) == HourCount(t, h, start, b)
  {
    if t != [] {
      SameCountBefore(t[..|t| - 1], h, start, a, b);
      HourBounds(t[|t| - 1].timestamp);
    }
  }

  /** Up to a millisecond before the first reported hour, the same query reports nothing. */
  lemma NothingBeforeFirst(t: seq<Fill>, start: int, end: int)
    requires MissingHours(t, start, end) != []
    ensures HourOf(start) <= MissingHours(t, start, end)[0] < HourOf(end)
    ensures MissingHours(t, start, HourStart(MissingHours(t, start, end)[0]) - 1) == []
    ensures forall h :: HourOf(start) <= h < MissingHours(t, start, end)[0] ==> Full(t, h)
  {
    var missing := MissingHours(t, start, end);
    var first := missing[0];
    MissingExact(t, start, end);
    assert first in missing;
    var before := HourStart(first) - 1;
    HourOfStart(first);
    HourBounds(end);
    forall h | HourOf(start) <= h < first
      ensures HourCount(t, h, start, end) >= SUFFICIENT && Full(t, h)
    {
      assert h !in missing;
      HourCountClips(t, h, start, end);
    }
    forall h | HourOf(start) <= h < HourOf(before)
      ensures HourCount(t, h, start, before) >= SUFFICIENT
    {
      SameCountBefore(t, h, start, before, end);
    }
    NothingBelow(t, start, before, HourOf(start));
  }
}
