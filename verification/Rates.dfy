/**
 Rates and totals: the series of rates drawn for a window of snapshots and the
 summary printed for it tell the same story. Rates are exact rationals.
 */
module Rates {
  import opened Prelude
  import opened SnapshotRing

  predicate Inside(s: Snapshot, start: real, end: real) { start <= s.timestamp as real <= end }

  /** The snapshots inside the window, bounds included. */
  function Window(snaps: seq<Snapshot>, start: real, end: real): seq<Snapshot> {
    if snaps == [] then []
    else
      var last := snaps[|snaps| - 1];
      Window(snaps[..|snaps| - 1], start, end) + if Inside(last, start, end) then [last] else []
  }

  method Filter(snaps: seq<Snapshot>, start: real, end: real) returns (r: seq<Snapshot>)
    ensures r == Window(snaps, start, end)
  {
    r := [];
    for i := 0 to |snaps|
      invariant r == Window(snaps[..i], start, end)
    {
      assert snaps[..i + 1][..i] == snaps[..i];
      if Inside(snaps[i], start, end) {
        r := r + [snaps[i]];
      }
    }
    assert snaps[..|snaps|] == snaps;
  }

  lemma {:induction false} WindowInOrder(snaps: seq<Snapshot>, start: real, end: real)
    requires StrictlyInOrder(snaps)
    ensures StrictlyInOrder(Window(snaps, start, end)) && forall s :: s in Window(snaps, start, end) ==> s in snaps
    decreases |snaps|
  {
    if snaps == [] {
    } else {
      var n := |snaps| - 1;
      WindowInOrder(snaps[..n], start, end);
      var w := Window(snaps[..n], start, end);
      forall i | 0 <= i < |w| ensures w[i].timestamp < snaps[n].timestamp {
        assert w[i] in snaps[..n];
      }
    }
  }

  // ----- the series -----

  /** One interval between consecutive snapshots: seconds, calls, nanoseconds. */
  datatype Interval = Interval(seconds: real, calls: int, nanos: int)

  function Between(prev: Snapshot, cur: Snapshot): Interval {
    Interval((cur.timestamp - prev.timestamp) as real / 1000.0, cur.callCount - prev.callCount,
             cur.totalNanos - prev.totalNanos)
  }

  /** Intervals of some length; pairs with no time between them give no point. */
  function Intervals(snaps: seq<Snapshot>): seq<Interval> {
    if |snaps| < 2 then []
    else
      var n := |snaps| - 1;
      Intervals(snaps[..n]) + if snaps[n].timestamp - snaps[n - 1].timestamp <= 0 then []
                              else [Between(snaps[n - 1], snaps[n])]
  }

  predicate Positive(ivs: seq<Interval>) { forall i :: 0 <= i < |ivs| ==> ivs[i].seconds > 0.0 }

  lemma {:induction false} IntervalsPositive(snaps: seq<Snapshot>)
    ensures Positive(Intervals(snaps))
    decreases |snaps|
  {
    if |snaps| < 2 {
    } else {
      var n := |snaps| - 1;
      IntervalsPositive(snaps[..n]);
      var dt := (snaps[n].timestamp - snaps[n - 1].timestamp) as real;
      assert dt > 0.0 ==> dt / 1000.0 > 0.0;
    }
  }

  function CallRate(i: Interval): real
    requires i.seconds > 0.0
  {
    i.calls as real / i.seconds
  }

  function NanosPerCall(i: Interval): real { if i.calls > 0 then i.nanos as real / i.calls as real else 0.0 }

  function CallRates(ivs: seq<Interval>): (r: seq<real>)
    requires Positive(ivs)
    ensures |r| == |ivs|
  {
    seq(|ivs|, k requires 0 <= k < |ivs| => CallRate(ivs[k]))
  }

  function NanosRates(ivs: seq<Interval>): (r: seq<real>)
    ensures |r| == |ivs|
  {
    seq(|ivs|, k requires 0 <= k < |ivs| => NanosPerCall(ivs[k]))
  }

  method Point(prev: Snapshot, cur: Snapshot, dtMs: int) returns (rate: real, time: real)
    requires dtMs == cur.timestamp - prev.timestamp && dtMs > 0
    ensures Between(prev, cur).seconds > 0.0 && rate == CallRate(Between(prev, cur)) &&
            time == NanosPerCall(Between(prev, cur))
  {
    var dCalls, dNanos := cur.callCount - prev.callCount, cur.totalNanos - prev.totalNanos;
    rate := dCalls as real / (dtMs as real / 1000.0);
    time := if dCalls > 0 then dNanos as real / dCalls as real else 0.0;
  }

  /** One more snapshot: one more point, if time has passed. */
  lemma {:induction false} MoreIntervals(snaps: seq<Snapshot>, k: nat)
    requires 0 < k < |snaps|
    ensures Positive(Intervals(snaps[..k])) && Positive(Intervals(snaps[..k + 1]))
    ensures var i, before, after := Between(snaps[k - 1], snaps[k]), Intervals(snaps[..k]), Intervals(snaps[..k + 1]);
            if snaps[k].timestamp - snaps[k - 1].timestamp <= 0 then after == before
            else i.seconds > 0.0 && after == before + [i] &&
                 CallRates(after) == CallRates(before) + [CallRate(i)] &&
                 NanosRates(after) == NanosRates(before) + [NanosPerCall(i)]
  {
    hide CallRate, NanosPerCall;
    IntervalsPositive(snaps[..k]);
    IntervalsPositive(snaps[..k + 1]);
    assert snaps[..k + 1][..k] == snaps[..k];
    var i, before, after := Between(snaps[k - 1], snaps[k]), Intervals(snaps[..k]), Intervals(snaps[..k + 1]);
    if snaps[k].timestamp - snaps[k - 1].timestamp > 0 {
      assert after[|before|] == i;
    }
  }

  /** `_rate_series` without the times. */
  method RateSeries(all: seq<Snapshot>, start: real, end: real) returns (callsPerSec: seq<real>, nsPerCall: seq<real>)
    ensures Positive(Intervals(Window(all, start, end)))
    ensures callsPerSec == CallRates(Intervals(Window(all, start, end)))
    ensures nsPerCall == NanosRates(Intervals(Window(all, start, end)))
  {
    hide CallRate, NanosPerCall, Between, Window, Inside, Positive;
    var snaps := Filter(all, start, end);
    callsPerSec, nsPerCall := [], [];
    IntervalsPositive(snaps);
    if |snaps| == 0 {
      return;
    }
    assert snaps[..1] == [snaps[0]];
    IntervalsPositive(snaps[..1]);
    for k := 1 to |snaps|
      invariant Positive(Intervals(snaps[..k]))
      invariant callsPerSec == CallRates(Intervals(snaps[..k])) && nsPerCall == NanosRates(Intervals(snaps[..k]))
    {
      IntervalsPositive(snaps[..k + 1]);
      MoreIntervals(snaps, k);
      var prev, cur := snaps[k - 1], snaps[k];
      var dtMs := cur.timestamp - prev.timestamp;
      if dtMs <= 0 {
        continue;
      }
      var rate, time := Point(prev, cur, dtMs);
      callsPerSec, nsPerCall := callsPerSec + [rate], nsPerCall + [time];
    }
    assert snaps[..|snaps|] == snaps;
  }

  // ----- the summary -----

  datatype Summary = Summary(totalRuns: int, totalNanos: int, average: real)

  /** `compute_stat_summary` on one probe, for a window in seconds: an error on fewer than two snapshots. */
  method Summarize(all: seq<Snapshot>, startTime: real, endTime: real) returns (r: Option<Summary>)
    ensures var w := Window(all, startTime * 1000.0, endTime * 1000.0);
            r == if |w| < 2 then None else Some(SummaryOf(w))
  {
    var snaps := Filter(all, startTime * 1000.0, endTime * 1000.0);
    if |snaps| < 2 {
      return None;
    }
    var first, last := snaps[0], snaps[|snaps| - 1];
    var totalRuns, totalNanos := last.callCount - first.callCount, last.totalNanos - first.totalNanos;
    var average := if totalRuns > 0 then totalNanos as real / totalRuns as real else 0.0;
    r := Some(Summary(totalRuns, totalNanos, average));
  }

  function SummaryOf(snaps: seq<Snapshot>): Summary
    requires |snaps| >= 2
  {
    var i := Between(snaps[0], snaps[|snaps| - 1]);
    Summary(i.calls, i.nanos, NanosPerCall(i))
  }

  // ----- they agree -----

  /** Rate times duration, added up over the series. */
  function CallsFromRates(rates: seq<real>, ivs: seq<Interval>): real
    requires |rates| == |ivs|
  {
    if ivs == [] then 0.0
    else CallsFromRates(rates[..|ivs| - 1], ivs[..|ivs| - 1]) + rates[|ivs| - 1] * ivs[|ivs| - 1].seconds
  }

  /** Time per call times calls, added up over the series. */
  function NanosFromRates(rates: seq<real>, ivs: seq<Interval>): real
    requires |rates| == |ivs|
  {
    if ivs == [] then 0.0
    else NanosFromRates(rates[..|ivs| - 1], ivs[..|ivs| - 1]) + rates[|ivs| - 1] * ivs[|ivs| - 1].calls as real
  }

  /** Calls counted between snapshots with no time between them. */
  function SkippedCalls(snaps: seq<Snapshot>): int {
    if |snaps| < 2 then 0
    else
      var n := |snaps| - 1;
      SkippedCalls(snaps[..n]) + if snaps[n].timestamp - snaps[n - 1].timestamp <= 0
                                 then snaps[n].callCount - snaps[n - 1].callCount else 0
  }

  lemma {:induction false} RateTimesDuration(i: Interval)
    requires i.seconds > 0.0
    ensures CallRate(i) * i.seconds == i.calls as real
  {
  }

  lemma {:induction false} CallsMore(rates: seq<real>, ivs: seq<Interval>, rate: real, i: Interval)
    requires |rates| == |ivs|
    ensures CallsFromRates(rates + [rate], ivs + [i]) == CallsFromRates(rates, ivs) + rate * i.seconds
  {
    assert (rates + [rate])[..|ivs|] == rates && (ivs + [i])[..|ivs|] == ivs;
  }

  /** The rates, integrated, give the summary's total, short of what was skipped. */
  lemma {:induction false} RatesTelescope(snaps: seq<Snapshot>)
    requires |snaps| >= 1
    ensures Positive(Intervals(snaps))
    ensures CallsFromRates(CallRates(Intervals(snaps)), Intervals(snaps)) + SkippedCalls(snaps) as real ==
            (snaps[|snaps| - 1].callCount - snaps[0].callCount) as real
    decreases |snaps|
  {
    hide CallRate, NanosPerCall, CallsFromRates, NanosRates, CallRates, Positive;
    IntervalsPositive(snaps);
    if |snaps| >= 2 {
      var n := |snaps| - 1;
      assert snaps[..n + 1] == snaps;
      RatesTelescope(snaps[..n]);
      MoreIntervals(snaps, n);
      var before, last := Intervals(snaps[..n]), Between(snaps[n - 1], snaps[n]);
      if snaps[n].timestamp - snaps[n - 1].timestamp > 0 {
        CallsMore(CallRates(before), before, CallRate(last), last);
        RateTimesDuration(last);
      }
    } else {
      NoCalls();
    }
  }

  lemma {:induction false} NoCalls()
    ensures Positive([]) && CallRates([]) == [] && CallsFromRates([], []) == 0.0
  {
  }

  lemma {:induction false} NoneSkipped(snaps: seq<Snapshot>)
    requires StrictlyInOrder(snaps)
    ensures SkippedCalls(snaps) == 0
    decreases |snaps|
  {
    if |snaps| < 2 {
    } else {
      NoneSkipped(snaps[..|snaps| - 1]);
    }
  }

  /** For the snapshots the collector makes, rates times durations over a window
      add up to the summary's total runs on the same window. */
  lemma {:induction false} RatesGiveTotalRuns(all: seq<Snapshot>, start: real, end: real)
    requires StrictlyInOrder(all) && |Window(all, start, end)| >= 2
    ensures var w := Window(all, start, end);
            Positive(Intervals(w)) &&
            CallsFromRates(CallRates(Intervals(w)), Intervals(w)) == SummaryOf(w).totalRuns as real
  {
    hide CallsFromRates, CallRates, Intervals, Window, NanosPerCall, SkippedCalls;
    WindowInOrder(all, start, end);
    var w := Window(all, start, end);
    NoneSkipped(w);
    RatesTelescope(w);
  }

  /** Time counted in intervals without a call. */
  function UncountedNanos(ivs: seq<Interval>): int {
    if ivs == [] then 0
    else UncountedNanos(ivs[..|ivs| - 1]) + if ivs[|ivs| - 1].calls > 0 then 0 else ivs[|ivs| - 1].nanos
  }

  lemma {:induction false} TimesMore(rates: seq<real>, ivs: seq<Interval>, rate: real, i: Interval)
    requires |rates| == |ivs|
    ensures NanosFromRates(rates + [rate], ivs + [i]) == NanosFromRates(rates, ivs) + rate * i.calls as real
    ensures UncountedNanos(ivs + [i]) == UncountedNanos(ivs) + if i.calls > 0 then 0 else i.nanos
  {
    assert (rates + [rate])[..|ivs|] == rates && (ivs + [i])[..|ivs|] == ivs;
  }

  lemma {:induction false} TimeTimesCalls(i: Interval)
    ensures NanosPerCall(i) * i.calls as real == if i.calls > 0 then i.nanos as real else 0.0
  {
  }

  lemma {:induction false} TimesTelescope(snaps: seq<Snapshot>)
    requires |snaps| >= 1 && StrictlyInOrder(snaps)
    ensures var ivs := Intervals(snaps);
            NanosFromRates(NanosRates(ivs), ivs) + UncountedNanos(ivs) as real ==
            (snaps[|snaps| - 1].totalNanos - snaps[0].totalNanos) as real
    decreases |snaps|
  {
    hide CallRate, NanosPerCall, NanosFromRates, NanosRates, CallRates, Positive, UncountedNanos;
    if |snaps| >= 2 {
      var n := |snaps| - 1;
      assert snaps[..n + 1] == snaps;
      TimesTelescope(snaps[..n]);
      MoreIntervals(snaps, n);
      var before, last := Intervals(snaps[..n]), Between(snaps[n - 1], snaps[n]);
      assert snaps[n - 1].timestamp < snaps[n].timestamp;
      TimesMore(NanosRates(before), before, NanosPerCall(last), last);
      TimeTimesCalls(last);
    } else {
      NoTimes();
    }
  }

  lemma {:induction false} NoTimes()
    ensures NanosFromRates(NanosRates([]), []) == 0.0 && UncountedNanos([]) == 0
  {
  }

  /** Time per call times calls over a window adds up to the summary's total
      time if and only if no time was counted in an interval without a call. */
  lemma {:induction false} TimesGiveTotalNanosIff(all: seq<Snapshot>, start: real, end: real)
    requires StrictlyInOrder(all) && |Window(all, start, end)| >= 2
    ensures var w := Window(all, start, end);
            var ivs := Intervals(w);
            NanosFromRates(NanosRates(ivs), ivs) == SummaryOf(w).totalNanos as real <==> UncountedNanos(ivs) == 0
  {
    hide NanosFromRates, NanosRates, UncountedNanos, Intervals, Window, NanosPerCall;
    WindowInOrder(all, start, end);
    TimesTelescope(Window(all, start, end));
  }

  // ----- what the numbers mean -----

  /** A snapshot is used exactly if it lies in the window, bounds included. */
  lemma {:induction false} WindowIff(snaps: seq<Snapshot>, start: real, end: real, s: Snapshot)
    ensures s in Window(snaps, start, end) <==> s in snaps && start <= s.timestamp as real <= end
    decreases |snaps|
  {
    if snaps == [] {
    } else {
      var n := |snaps| - 1;
      WindowIff(snaps[..n], start, end, s);
      assert snaps == snaps[..n] + [snaps[n]];
    }
  }

  /** A rate is calls per second: times milliseconds it is a thousand times the calls. */
  lemma {:induction false} RateMeans(prev: Snapshot, cur: Snapshot)
    requires prev.timestamp < cur.timestamp
    ensures Between(prev, cur).seconds > 0.0
    ensures CallRate(Between(prev, cur)) * (cur.timestamp - prev.timestamp) as real ==
            1000.0 * (cur.callCount - prev.callCount) as real
    ensures cur.callCount > prev.callCount ==>
              NanosPerCall(Between(prev, cur)) * (cur.callCount - prev.callCount) as real ==
              (cur.totalNanos - prev.totalNanos) as real
    ensures cur.callCount <= prev.callCount ==> NanosPerCall(Between(prev, cur)) == 0.0
  {
    var i := Between(prev, cur);
    var ms := (cur.timestamp - prev.timestamp) as real;
    assert ms > 0.0 && i.seconds == ms / 1000.0;
    RateTimesDuration(i);
    assert CallRate(i) * i.seconds * 1000.0 == CallRate(i) * ms by {
      assert i.seconds * 1000.0 == ms;
      Associate(CallRate(i), i.seconds, 1000.0);
    }
    TimeTimesCalls(i);
  }

  lemma {:induction false} Associate(a: real, b: real, c: real)
    ensures a * b * c == a * (b * c)
  {
  }

  /** The totals are those between the first and the last snapshot, and the average times
      the runs is the time. */
  lemma {:induction false} SummaryMeans(snaps: seq<Snapshot>)
    requires |snaps| >= 2
    ensures var s, first, last := SummaryOf(snaps), snaps[0], snaps[|snaps| - 1];
            && s.totalRuns == last.callCount - first.callCount && s.totalNanos == last.totalNanos - first.totalNanos
            && (s.totalRuns > 0 ==> s.average * s.totalRuns as real == s.totalNanos as real)
            && (s.totalRuns <= 0 ==> s.average == 0.0)
  {
    TimeTimesCalls(Between(snaps[0], snaps[|snaps| - 1]));
  }
}
