/** The feeding-interval analyzer (`analyzeFeedingPatterns`): the gaps between
    consecutive feedings, their mean and spread, the predicted next feeding,
    and a confidence that falls as the gaps get less regular. */
module Feeding {
  import opened Wrappers
  import opened Numeric

  /** One feeding log entry. Its time is `timestamp`, or `created_at` when
      `timestamp` is absent. */
  datatype FeedingEntry = FeedingEntry(timestamp: Option<int>, createdAt: Option<int>)

  predicate HasTime(e: FeedingEntry) {
    e.timestamp.Some? || e.createdAt.Some?
  }

  predicate AllTimed(data: seq<FeedingEntry>) {
    forall i :: 0 <= i < |data| ==> HasTime(data[i])
  }

  /** `timestamp || created_at`: the timestamp wins whenever there is one. */
  function EntryTime(e: FeedingEntry): (t: int)
    requires HasTime(e)
    ensures e.timestamp.Some? ==> t == e.timestamp.value
    ensures e.timestamp.None? ==> t == e.createdAt.value
  {
    if e.timestamp.Some? then e.timestamp.value else e.createdAt.value
  }

  function Times(data: seq<FeedingEntry>): (ts: seq<int>)
    requires AllTimed(data)
    ensures |ts| == |data|
    ensures forall i :: 0 <= i < |data| ==> ts[i] == EntryTime(data[i])
  {
    seq(|data|, i requires 0 <= i < |data| => EntryTime(data[i]))
  }

  /** The gaps between consecutive times, in hours, in input order. */
  function Gaps(ts: seq<int>): (g: seq<real>)
    requires |ts| >= 1
    ensures |g| == |ts| - 1
  {
    seq(|ts| - 1, i requires 0 <= i < |ts| - 1 => (ts[i + 1] - ts[i]) as real / MsPerHour as real)
  }

  /** The sum of the consecutive gaps telescopes to last minus first. */
  lemma {:induction false} SumOfGapsTelescopes(ts: seq<int>)
    requires |ts| >= 1
    ensures Sum(Gaps(ts)) == (ts[|ts| - 1] - ts[0]) as real / MsPerHour as real
  {
    if |ts| > 1 {
      var p := ts[..|ts| - 1];
      SumOfGapsTelescopes(p);
      assert Gaps(ts)[..|ts| - 2] == Gaps(p);
    }
  }

  /** The mean gap in hours: the whole span divided by the number of gaps. */
  function MeanGap(ts: seq<int>): (avg: real)
    requires |ts| >= 2
    ensures avg == ((ts[|ts| - 1] - ts[0]) as real / MsPerHour as real) / (|ts| - 1) as real
  {
    SumOfGapsTelescopes(ts);
    Mean(Gaps(ts))
  }

  function SquaredDeviations(s: seq<real>, m: real): real {
    if |s| == 0 then 0.0
    else SquaredDeviations(s[..|s| - 1], m) + (s[|s| - 1] - m) * (s[|s| - 1] - m)
  }

  /** Population variance: the mean squared deviation from the mean. */
  function Variance(s: seq<real>): real
    requires |s| > 0
  {
    SquaredDeviations(s, Mean(s)) / |s| as real
  }

  /** `sd` is `Math.sqrt` of the population variance of `gaps`. */
  predicate IsStdDev(sd: real, gaps: seq<real>)
    requires |gaps| > 0
  {
    sd >= 0.0 && sd * sd == Variance(gaps)
  }

  /** `Math.max(0.3, Math.min(0.95, x))`. */
  function Clamp(x: real): real {
    Max(0.3, Min(0.95, x))
  }

  /** `1 - sd / avg`, clamped. With `avg` zero the IEEE quotient is +Infinity
      when `sd` is positive (clamped up to the floor 0.3) and NaN when `sd` is
      zero (NaN passes through both `Math.min` and `Math.max`). */
  function Confidence(sd: real, avg: real): (c: Num)
    requires sd >= 0.0
    ensures avg != 0.0 ==> c.Finite? && 0.3 <= c.value <= 0.95
    ensures avg == 0.0 ==> (c == NaN <==> sd == 0.0)
    ensures avg == 0.0 && sd > 0.0 ==> c == Finite(0.3)
    ensures avg != 0.0 && sd == 0.0 ==> c == Finite(0.95)
  {
    if avg == 0.0 then (if sd == 0.0 then NaN else Finite(0.3))
    else Finite(Clamp(1.0 - sd / avg))
  }

  /** Between the clamps the confidence is `1 - sd / avg`: it falls linearly
      from 0.95 at a spread of 5% of the mean gap to 0.3 at 70%. */
  lemma ConfidenceInBand(sd: real, avg: real)
    requires avg > 0.0 && 0.05 * avg <= sd <= 0.7 * avg
    ensures Confidence(sd, avg) == Finite(1.0 - sd / avg)
  {
    var q := sd / avg;
    assert q * avg == sd;
    assert 0.05 <= q <= 0.7;
  }

  datatype FeedingMessage =
    | NeedMoreData                // "Need more feeding data for accurate predictions"
    | PredictedIn(hours: real)    // "Next feeding predicted in <hours> hours"

  datatype FeedingInsight = FeedingInsight(
    confidence: Num,
    nextFeeding: Option<int>,
    avgIntervalHours: Option<real>,
    message: FeedingMessage)

  const MinFeedings: nat := 3

  /** The fixed answer for a missing or too short feeding history. */
  const LowData := FeedingInsight(Finite(0.3), None, None, NeedMoreData)

  /** `analyzeFeedingPatterns`. `sd` stands for the standard deviation of the
      gaps, which the source computes with `Math.sqrt`. */
  function AnalyzeFeedingPatterns(data: Option<seq<FeedingEntry>>, sd: real): (r: FeedingInsight)
    requires sd >= 0.0
    requires data.Some? && |data.value| >= MinFeedings ==> AllTimed(data.value)
    ensures data.None? || |data.value| < MinFeedings ==> r == LowData
    ensures data.Some? && |data.value| >= MinFeedings ==>
      var ts := Times(data.value);
      var first, last := ts[0], ts[|ts| - 1];
      var avg := ((last - first) as real / MsPerHour as real) / (|ts| - 1) as real;
      && r.avgIntervalHours == Some(RoundToTenth(avg))
      && r.message == PredictedIn(RoundToTenth(avg))
      && r.nextFeeding == Some(Trunc(last as real + (last - first) as real / (|ts| - 1) as real))
      && r.confidence == Confidence(sd, avg)
  {
    if data.None? || |data.value| < MinFeedings then LowData
    else
      var ts := Times(data.value);
      var avg := MeanGap(ts);
      var first, last := ts[0], ts[|ts| - 1];
      ScaledQuotient(last - first, |ts| - 1);
      assert avg * MsPerHour as real == (last - first) as real / (|ts| - 1) as real;
      FeedingInsight(
        Confidence(sd, avg),
        Some(Trunc(last as real + avg * MsPerHour as real)),
        Some(RoundToTenth(avg)),
        PredictedIn(RoundToTenth(avg)))
  }

  /** Hours back to milliseconds: `((x / H) / k) * H == x / k`. */
  lemma ScaledQuotient(x: int, k: int)
    requires k > 0
    ensures ((x as real / MsPerHour as real) / k as real) * MsPerHour as real == x as real / k as real
  {
    var q := (x as real / MsPerHour as real) / k as real;
    assert q * k as real == x as real / MsPerHour as real;
    assert q * MsPerHour as real * k as real == x as real;
  }

  /** The predicted next feeding is within a millisecond of the last feeding
      plus the mean gap. */
  lemma NextFeedingFollowsMeanGap(data: seq<FeedingEntry>, sd: real)
    requires sd >= 0.0
    requires |data| >= MinFeedings && AllTimed(data)
    ensures var ts := Times(data);
      var next := AnalyzeFeedingPatterns(Some(data), sd).nextFeeding.value as real;
      var target := ts[|ts| - 1] as real + MeanGap(ts) * MsPerHour as real;
      target - 1.0 < next < target + 1.0
  {
  }

  /** `SquaredDeviations` vanishes when every element equals the centre. */
  lemma {:induction false} NoDeviationFromConstant(s: seq<real>, c: real)
    requires forall i :: 0 <= i < |s| ==> s[i] == c
    ensures SquaredDeviations(s, c) == 0.0
  {
    if |s| > 0 {
      NoDeviationFromConstant(s[..|s| - 1], c);
    }
  }

  lemma VarianceOfConstant(s: seq<real>, c: real)
    requires |s| > 0
    requires forall i :: 0 <= i < |s| ==> s[i] == c
    ensures Variance(s) == 0.0
  {
    MeanOfConstant(s, c);
    NoDeviationFromConstant(s, c);
  }

  /** Perfectly regular feedings have no spread, so their standard deviation
      is the square root of zero, 0, and they reach the ceiling 0.95, not 1.0. */
  lemma RegularFeedingsReachCeiling(data: seq<FeedingEntry>, gap: real)
    requires |data| >= MinFeedings && AllTimed(data)
    requires gap > 0.0
    requires forall i :: 0 <= i < |data| - 1 ==> Gaps(Times(data))[i] == gap
    ensures Variance(Gaps(Times(data))) == 0.0
    ensures IsStdDev(0.0, Gaps(Times(data)))
    ensures AnalyzeFeedingPatterns(Some(data), 0.0).confidence == Finite(0.95)
  {
    var ts := Times(data);
    var g := Gaps(ts);
    MeanOfConstant(g, gap);
    VarianceOfConstant(g, gap);
    assert MeanGap(ts) == gap;
  }

  /** A history listed newest first has a negative mean gap, and then the
      confidence is the ceiling 0.95 whatever the spread. */
  lemma NewestFirstReachesCeiling(data: seq<FeedingEntry>, sd: real)
    requires sd >= 0.0
    requires |data| >= MinFeedings && AllTimed(data)
    requires Times(data)[|data| - 1] < Times(data)[0]
    ensures AnalyzeFeedingPatterns(Some(data), sd).confidence == Finite(0.95)
  {
    var ts := Times(data);
    var avg := MeanGap(ts);
    assert avg < 0.0;
    var q := sd / avg;
    assert q * avg == sd;
    assert q <= 0.0;
  }

  /** A spread of at least 70% of a positive mean gap hits the floor 0.3. */
  lemma WideSpreadHitsFloor(sd: real, avg: real)
    requires avg > 0.0 && sd >= 0.7 * avg
    ensures Confidence(sd, avg) == Finite(0.3)
  {
    var q := sd / avg;
    assert q * avg == sd;
    assert q >= 0.7;
  }

  /** For a positive mean gap, a wider spread never raises the confidence. */
  lemma ConfidenceFallsWithSpread(sd1: real, sd2: real, avg: real)
    requires avg > 0.0 && 0.0 <= sd1 <= sd2
    ensures Confidence(sd2, avg).value <= Confidence(sd1, avg).value
  {
    var q1, q2 := sd1 / avg, sd2 / avg;
    assert q1 * avg == sd1 && q2 * avg == sd2;
    assert q1 <= q2;
  }
}
