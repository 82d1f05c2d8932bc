/**
 * The per-user aggregation of waste_logger_app/main.py: total CO2, recyclable
 * percentage, the per-day CO2 trend and the "recent logs" slice. CO2 amounts are
 * exact reals here, not floats.
 */
module Summary {
  import opened Common
  import opened WasteLog

  /** Summed over a list of entries: a weight per entry. */
  function SumOf(s: seq<Entry>, w: Entry -> real): real {
    if s == [] then 0.0 else SumOf(s[..|s| - 1], w) + w(s[|s| - 1])
  }

  /** What an entry adds to `sum(e.co2_estimate for e in logs if e.co2_estimate)`: null and 0.0 are falsy. */
  function Co2Contribution(e: Entry): real {
    if e.co2Estimate.Some? && e.co2Estimate.value != 0.0 then e.co2Estimate.value else 0.0
  }

  /** What an entry adds to `sum(1 for e in logs if e.recyclable)`: a null flag is falsy. */
  function RecyclableWeight(e: Entry): real {
    if e.recyclable == Some(true) then 1.0 else 0.0
  }

  /** What an entry adds to the trend: its estimate, read without a null guard. */
  function RawCo2(e: Entry): real {
    e.co2Estimate.GetOr(0.0)
  }

  function TotalCo2(logs: seq<Entry>): real {
    SumOf(logs, Co2Contribution)
  }

  function RecyclableCount(logs: seq<Entry>): real {
    SumOf(logs, RecyclableWeight)
  }

  predicate AllRecyclable(logs: seq<Entry>) {
    forall i :: 0 <= i < |logs| ==> logs[i].recyclable == Some(true)
  }

  predicate NoneRecyclable(logs: seq<Entry>) {
    forall i :: 0 <= i < |logs| ==> logs[i].recyclable != Some(true)
  }

  /** Every entry has a (possibly zero) estimate, so the trend loop does not raise. */
  predicate AllEstimated(logs: seq<Entry>) {
    forall i :: 0 <= i < |logs| ==> logs[i].co2Estimate.Some?
  }

  lemma {:induction false} SumOfConcat(a: seq<Entry>, b: seq<Entry>, w: Entry -> real)
    ensures SumOf(a + b, w) == SumOf(a, w) + SumOf(b, w)
  {
    if b == [] {
      assert a + b == a;
    } else {
      assert (a + b)[..|a + b| - 1] == a + b[..|b| - 1];
      SumOfConcat(a, b[..|b| - 1], w);
    }
  }

  /** A sum over a list does not depend on the list's order. */
  lemma {:induction false} SumOfPermutation(a: seq<Entry>, b: seq<Entry>, w: Entry -> real)
    requires multiset(a) == multiset(b)
    ensures SumOf(a, w) == SumOf(b, w)
    decreases |a|
  {
    if a == [] {
      assert |b| == |multiset(b)| == 0;
    } else {
      var init, x := a[..|a| - 1], a[|a| - 1];
      assert a == init + [x];
      assert x in multiset(b);
      var k :| 0 <= k < |b| && b[k] == x;
      var rest := b[..k] + b[k + 1..];
      assert b == b[..k] + [x] + b[k + 1..];
      assert multiset(b) == multiset(b[..k]) + multiset{x} + multiset(b[k + 1..]);
      assert multiset(a) == multiset(init) + multiset{x};
      assert multiset(rest) == multiset(b[..k]) + multiset(b[k + 1..]);
      assert multiset(init) == multiset(a) - multiset{x};
      assert multiset(b) - multiset{x} == multiset(b[..k]) + multiset(b[k + 1..]);
      assert multiset(rest) == multiset(init);
      SumOfPermutation(init, rest, w);
      SumOfConcat(b[..k] + [x], b[k + 1..], w);
      SumOfConcat(b[..k], [x], w);
      SumOfConcat(b[..k], b[k + 1..], w);
      assert SumOf([x], w) == w(x) by { assert [x][..0] == []; }
    }
  }

  /** A null or zero estimate adds nothing to the total, wherever it stands. */
  lemma {:induction false} TotalCo2SkipsFalsy(front: seq<Entry>, e: Entry, back: seq<Entry>)
    requires e.co2Estimate.None? || e.co2Estimate == Some(0.0)
    ensures TotalCo2(front + [e] + back) == TotalCo2(front + back)
  {
    SumOfConcat(front + [e], back, Co2Contribution);
    SumOfConcat(front, [e], Co2Contribution);
    SumOfConcat(front, back, Co2Contribution);
    assert SumOf([e], Co2Contribution) == 0.0 by { assert [e][..0] == []; }
  }

  /** An entry with a non-zero estimate adds exactly that estimate. */
  lemma {:induction false} TotalCo2CountsTruthy(front: seq<Entry>, e: Entry, back: seq<Entry>)
    requires e.co2Estimate.Some? && e.co2Estimate.value != 0.0
    ensures TotalCo2(front + [e] + back) == TotalCo2(front + back) + e.co2Estimate.value
  {
    SumOfConcat(front + [e], back, Co2Contribution);
    SumOfConcat(front, [e], Co2Contribution);
    SumOfConcat(front, back, Co2Contribution);
    assert SumOf([e], Co2Contribution) == e.co2Estimate.value by { assert [e][..0] == []; }
  }

  /** The recyclable count lies between 0 and the number of entries, reaching each end exactly when it should. */
  lemma {:induction false} RecyclableCountBounds(logs: seq<Entry>)
    ensures 0.0 <= RecyclableCount(logs) <= |logs| as real
    ensures RecyclableCount(logs) == |logs| as real <==> AllRecyclable(logs)
    ensures RecyclableCount(logs) == 0.0 <==> NoneRecyclable(logs)
  {
    if logs != [] {
      var init := logs[..|logs| - 1];
      RecyclableCountBounds(init);
      assert forall i :: 0 <= i < |init| ==> init[i] == logs[i];
      if AllRecyclable(logs) { assert AllRecyclable(init); }
      if NoneRecyclable(logs) { assert NoneRecyclable(init); }
    }
  }

  /**
   * `(recyclable_count / total_entries * 100) if total_entries else 0`: a percentage
   * in [0, 100], guarded against an empty list.
   */
  function PercentRecyclable(logs: seq<Entry>): (r: real)
    ensures 0.0 <= r <= 100.0
    ensures |logs| == 0 ==> r == 0.0
    ensures |logs| > 0 ==> r * (|logs| as real) == 100.0 * RecyclableCount(logs)
    ensures r == 100.0 <==> |logs| > 0 && AllRecyclable(logs)
    ensures r == 0.0 <==> NoneRecyclable(logs)
  {
    RecyclableCountBounds(logs);
    if |logs| == 0 then 0.0 else RecyclableCount(logs) / (|logs| as real) * 100.0
  }

  /** The pair rendered by `/`, `/log` and each leaderboard row. */
  datatype Totals = Totals(totalCo2: real, percentRecyclable: real)

  function Summarize(logs: seq<Entry>): Totals {
    Totals(TotalCo2(logs), PercentRecyclable(logs))
  }

  /** The same entries in any order give the same totals. */
  lemma SummarizeOrderIndependent(a: seq<Entry>, b: seq<Entry>)
    requires multiset(a) == multiset(b)
    ensures Summarize(a) == Summarize(b)
  {
    SumOfPermutation(a, b, Co2Contribution);
    SumOfPermutation(a, b, RecyclableWeight);
    assert |a| == |multiset(a)| == |multiset(b)| == |b|;
  }

  /** With every estimate present, the unguarded sum equals the guarded total. */
  lemma {:induction false} RawTotalIsTotalCo2(logs: seq<Entry>)
    requires AllEstimated(logs)
    ensures SumOf(logs, RawCo2) == TotalCo2(logs)
  {
    if logs != [] {
      var init := logs[..|logs| - 1];
      assert forall i :: 0 <= i < |init| ==> init[i] == logs[i];
      RawTotalIsTotalCo2(init);
    }
  }

  // ---- The per-day trend (`co2_trend`) ----

  /** The day keys that occur in `logs`. */
  function DaysOf(logs: seq<Entry>): set<Date> {
    set i | 0 <= i < |logs| :: DayKey(logs[i])
  }

  /** The CO2 of the entries logged on day `d`. */
  function DaySum(logs: seq<Entry>, d: Date): real {
    if logs == [] then 0.0
    else DaySum(logs[..|logs| - 1], d) + (if DayKey(logs[|logs| - 1]) == d then RawCo2(logs[|logs| - 1]) else 0.0)
  }

  /** `trend` has one key per day of `logs`, holding that day's CO2. */
  ghost predicate IsTrendOf(trend: map<Date, real>, logs: seq<Entry>) {
    trend.Keys == DaysOf(logs) && forall d :: d in trend ==> trend[d] == DaySum(logs, d)
  }

  datatype TrendError = TypeError

  /** Sum of a map's values. */
  ghost function SumValues(m: map<Date, real>): real
    decreases |m|
  {
    if m == map[] then 0.0
    else
      var k :| k in m;
      assert |(m - {k}).Keys| == |m.Keys - {k}| == |m.Keys| - 1;
      m[k] + SumValues(m - {k})
  }

  /** The sum does not depend on which key is taken first. */
  lemma {:induction false} SumValuesRemove(m: map<Date, real>, k: Date)
    requires k in m
    ensures SumValues(m) == m[k] + SumValues(m - {k})
    decreases |m|
  {
    var j :| j in m && SumValues(m) == m[j] + SumValues(m - {j});
    if j != k {
      assert |(m - {j}).Keys| == |m.Keys| - 1;
      assert |(m - {k}).Keys| == |m.Keys| - 1;
      SumValuesRemove(m - {j}, k);
      SumValuesRemove(m - {k}, j);
      assert m - {j} - {k} == m - {k} - {j};
    }
  }

  lemma {:induction false} DaySumAbsent(logs: seq<Entry>, d: Date)
    requires d !in DaysOf(logs)
    ensures DaySum(logs, d) == 0.0
  {
    if logs != [] {
      var init := logs[..|logs| - 1];
      assert DaysOf(init) <= DaysOf(logs) by {
        forall x | x in DaysOf(init) ensures x in DaysOf(logs) {
          var i :| 0 <= i < |init| && DayKey(init[i]) == x;
          assert init[i] == logs[i];
        }
      }
      assert DayKey(logs[|logs| - 1]) in DaysOf(logs);
      DaySumAbsent(init, d);
    }
  }

  lemma DaySumAppend(logs: seq<Entry>, e: Entry, d: Date)
    ensures DaySum(logs + [e], d) == DaySum(logs, d) + (if DayKey(e) == d then RawCo2(e) else 0.0)
  {
  }

  lemma DaysOfAppend(logs: seq<Entry>, e: Entry)
    ensures DaysOf(logs + [e]) == DaysOf(logs) + {DayKey(e)}
  {
    var both := logs + [e];
    forall x | x in DaysOf(logs) ensures x in DaysOf(both) {
      var i :| 0 <= i < |logs| && DayKey(logs[i]) == x;
      assert both[i] == logs[i];
    }
    assert both[|logs|] == e;
  }

  /** The trend's values add up to the CO2 of all entries: no entry is lost or counted twice. */
  lemma {:induction false} TrendConservesTotal(trend: map<Date, real>, logs: seq<Entry>)
    requires IsTrendOf(trend, logs)
    ensures SumValues(trend) == SumOf(logs, RawCo2)
  {
    if logs == [] {
      assert trend == map[];
    } else {
      var init, e := logs[..|logs| - 1], logs[|logs| - 1];
      assert logs == init + [e];
      var d, c := DayKey(e), RawCo2(e);
      DaysOfAppend(init, e);
      forall x ensures DaySum(logs, x) == DaySum(init, x) + (if d == x then c else 0.0) {
        DaySumAppend(init, e, x);
      }
      var prev := if d in DaysOf(init) then trend[d := trend[d] - c] else trend - {d};
      assert IsTrendOf(prev, init);
      TrendConservesTotal(prev, init);
      SumValuesRemove(trend, d);
      if d in DaysOf(init) {
        SumValuesRemove(prev, d);
        assert prev - {d} == trend - {d};
      } else {
        DaySumAbsent(init, d);
      }
    }
  }

  /**
   * The `co2_trend` loop: for each entry, add its estimate to its day's bucket,
   * starting from 0. A null estimate makes `0 + None` raise, which the model returns
   * as `Err(TypeError)`.
   */
  method BuildTrend(logs: seq<Entry>) returns (r: Result<map<Date, real>, TrendError>)
    ensures r.Ok? <==> AllEstimated(logs)
    ensures r.Ok? ==> IsTrendOf(r.value, logs)
    ensures r.Ok? ==> SumValues(r.value) == TotalCo2(logs)
  {
    var trend: map<Date, real> := map[];
    var i := 0;
    while i < |logs|
      invariant 0 <= i <= |logs|
      invariant AllEstimated(logs[..i])
      invariant IsTrendOf(trend, logs[..i])
    {
      var e := logs[i];
      if e.co2Estimate.None? {
        return Err(TypeError);
      }
      var key := DayKey(e);
      assert logs[..i + 1] == logs[..i] + [e];
      DaysOfAppend(logs[..i], e);
      forall d ensures DaySum(logs[..i + 1], d) == DaySum(logs[..i], d) + (if key == d then RawCo2(e) else 0.0) {
        DaySumAppend(logs[..i], e, d);
      }
      if key !in trend {
        DaySumAbsent(logs[..i], key);
      }
      assert RawCo2(e) == e.co2Estimate.value;
      trend := trend[key := (if key in trend then trend[key] else 0.0) + e.co2Estimate.value];
      i := i + 1;
    }
    assert logs[..i] == logs;
    TrendConservesTotal(trend, logs);
    RawTotalIsTotalCo2(logs);
    return Ok(trend);
  }

  /** How many entries `logs[-5:]` keeps. */
  const RecentCount := 5

  /** `logs[-5:]`: the last five entries (all of them when there are fewer), in order. */
  function Recent(logs: seq<Entry>): (r: seq<Entry>)
    ensures |r| == if |logs| < RecentCount then |logs| else RecentCount
    ensures logs == logs[..|logs| - |r|] + r
  {
    if |logs| <= RecentCount then logs else logs[|logs| - RecentCount..]
  }
}
