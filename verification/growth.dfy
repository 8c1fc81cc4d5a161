/** The growth-trend analyzer (`analyzeGrowthTrends`): a stable sort of the
    measurements by time, then for weight and for height the change from the
    earliest to the latest truthy value, classified against a per-measure
    threshold. */
module Growth {
  import opened Wrappers
  import opened Numeric

  /** One growth measurement. Its time is `date`, or `timestamp` when `date`
      is absent; a weight or height of 0 is falsy and treated as missing. */
  datatype GrowthEntry = GrowthEntry(
    date: Option<int>,
    timestamp: Option<int>,
    weight: Option<real>,
    height: Option<real>)

  predicate HasTime(e: GrowthEntry) {
    e.date.Some? || e.timestamp.Some?
  }

  predicate AllTimed(s: seq<GrowthEntry>) {
    forall i :: 0 <= i < |s| ==> HasTime(s[i])
  }

  /** `a.date || a.timestamp`, the sort key. */
  function Key(e: GrowthEntry): int
    requires HasTime(e)
  {
    if e.date.Some? then e.date.value else e.timestamp.value
  }

  predicate SortedByTime(s: seq<GrowthEntry>)
    requires AllTimed(s)
  {
    forall i, j :: 0 <= i < j < |s| ==> Key(s[i]) <= Key(s[j])
  }

  // ---------------------------------------------------------------------
  // The stable sort (Array.prototype.sort is stable)
  // ---------------------------------------------------------------------

  /** Every key in `s` is at least `b`. */
  predicate KeysAtLeast(s: seq<GrowthEntry>, b: int)
    requires AllTimed(s)
  {
    forall i :: 0 <= i < |s| ==> b <= Key(s[i])
  }

  lemma SortedCons(x: GrowthEntry, s: seq<GrowthEntry>)
    requires HasTime(x) && AllTimed(s)
    requires SortedByTime(s) && KeysAtLeast(s, Key(x))
    ensures AllTimed([x] + s) && SortedByTime([x] + s)
  {
    var r := [x] + s;
    assert forall i :: 1 <= i < |r| ==> r[i] == s[i - 1];
  }

  lemma SortedTail(s: seq<GrowthEntry>)
    requires AllTimed(s) && SortedByTime(s) && |s| > 0
    ensures AllTimed(s[1..]) && SortedByTime(s[1..]) && KeysAtLeast(s[1..], Key(s[0]))
  {
  }

  /** Inserts `e` before the first element whose key is not smaller, so `e`
      stays ahead of the equal keys that followed it in the input. */
  function Insert(e: GrowthEntry, s: seq<GrowthEntry>): (r: seq<GrowthEntry>)
    requires HasTime(e) && AllTimed(s)
    ensures |r| == |s| + 1
    ensures AllTimed(r)
    ensures multiset(r) == multiset(s) + multiset{e}
  {
    if |s| == 0 then [e]
    else if Key(e) <= Key(s[0]) then [e] + s
    else
      assert s == [s[0]] + s[1..];
      [s[0]] + Insert(e, s[1..])
  }

  lemma {:induction false} InsertKeysAtLeast(e: GrowthEntry, s: seq<GrowthEntry>, b: int)
    requires HasTime(e) && AllTimed(s)
    requires b <= Key(e) && KeysAtLeast(s, b)
    ensures KeysAtLeast(Insert(e, s), b)
  {
    if |s| > 0 && Key(e) > Key(s[0]) {
      InsertKeysAtLeast(e, s[1..], b);
    }
  }

  lemma {:induction false} InsertSorted(e: GrowthEntry, s: seq<GrowthEntry>)
    requires HasTime(e) && AllTimed(s) && SortedByTime(s)
    ensures SortedByTime(Insert(e, s))
  {
    if |s| == 0 {
    } else if Key(e) <= Key(s[0]) {
      SortedCons(e, s);
    } else {
      SortedTail(s);
      InsertSorted(e, s[1..]);
      InsertKeysAtLeast(e, s[1..], Key(s[0]));
      SortedCons(s[0], Insert(e, s[1..]));
    }
  }

  /** Insertion sort by `Key`, ascending; a permutation of the input. */
  function SortByTime(s: seq<GrowthEntry>): (r: seq<GrowthEntry>)
    requires AllTimed(s)
    ensures |r| == |s|
    ensures AllTimed(r)
    ensures SortedByTime(r)
    ensures multiset(r) == multiset(s)
  {
    if |s| == 0 then []
    else
      assert s == [s[0]] + s[1..];
      var rest := SortByTime(s[1..]);
      InsertSorted(s[0], rest);
      Insert(s[0], rest)
  }

  /** The entries with key `k`, in order. */
  function WithKey(s: seq<GrowthEntry>, k: int): seq<GrowthEntry>
    requires AllTimed(s)
  {
    if |s| == 0 then []
    else (if Key(s[0]) == k then [s[0]] else []) + WithKey(s[1..], k)
  }

  lemma {:induction false} InsertKeepsOrderOfEqualKeys(e: GrowthEntry, s: seq<GrowthEntry>, k: int)
    requires HasTime(e) && AllTimed(s)
    ensures WithKey(Insert(e, s), k) == (if Key(e) == k then [e] else []) + WithKey(s, k)
  {
    if |s| == 0 {
    } else if Key(e) <= Key(s[0]) {
      assert ([e] + s)[1..] == s;
    } else {
      var rest := Insert(e, s[1..]);
      var r := [s[0]] + rest;
      assert Insert(e, s) == r;
      assert r[0] == s[0] && r[1..] == rest;
      var headS: seq<GrowthEntry> := if Key(s[0]) == k then [s[0]] else [];
      var headE: seq<GrowthEntry> := if Key(e) == k then [e] else [];
      assert WithKey(r, k) == headS + WithKey(rest, k);
      InsertKeepsOrderOfEqualKeys(e, s[1..], k);
      assert headS == [] || headE == [];
      assert WithKey(s, k) == headS + WithKey(s[1..], k);
    }
  }

  /** The sort is stable: entries with equal keys keep their input order. */
  lemma {:induction false} SortIsStable(s: seq<GrowthEntry>, k: int)
    requires AllTimed(s)
    ensures WithKey(SortByTime(s), k) == WithKey(s, k)
  {
    if |s| > 0 {
      SortIsStable(s[1..], k);
      InsertKeepsOrderOfEqualKeys(s[0], SortByTime(s[1..]), k);
    }
  }

  // ---------------------------------------------------------------------
  // Samples and trends
  // ---------------------------------------------------------------------

  datatype Measure = Weight | Height

  function Field(e: GrowthEntry, m: Measure): Option<real> {
    match m
    case Weight => e.weight
    case Height => e.height
  }

  /** JavaScript truthiness of a measured value: present and not 0. */
  predicate Truthy(v: Option<real>) {
    v.Some? && v.value != 0.0
  }

  /** `filter(d => d.weight)` (or height): the entries that keep a sample. */
  function Sampled(s: seq<GrowthEntry>, m: Measure): (r: seq<GrowthEntry>)
    ensures |r| <= |s|
    ensures forall j :: 0 <= j < |r| ==> Truthy(Field(r[j], m))
  {
    if |s| == 0 then []
    else (if Truthy(Field(s[0], m)) then [s[0]] else []) + Sampled(s[1..], m)
  }

  /** An entry is kept exactly when it is in the input and has a present,
      non-zero value of the measure. */
  lemma {:induction false} SampledMembers(s: seq<GrowthEntry>, m: Measure)
    ensures forall x :: x in Sampled(s, m) <==> x in s && Truthy(Field(x, m))
  {
    if |s| > 0 {
      SampledMembers(s[1..], m);
      assert s == [s[0]] + s[1..];
    }
  }

  /** The positions of the entries that keep a sample, in increasing order
      (each once); `SampledIndicesComplete` shows none is missing. */
  function SampledIndices(s: seq<GrowthEntry>, m: Measure): (ix: seq<nat>)
    ensures forall j :: 0 <= j < |ix| ==> ix[j] < |s| && Truthy(Field(s[ix[j]], m))
    ensures forall j, k :: 0 <= j < k < |ix| ==> ix[j] < ix[k]
  {
    if |s| == 0 then []
    else
      var last := |s| - 1;
      assert forall i :: 0 <= i < last ==> s[..last][i] == s[i];
      SampledIndices(s[..last], m) + (if Truthy(Field(s[last], m)) then [last] else [])
  }

  /** Every entry with a present, non-zero value is listed. */
  lemma {:induction false} SampledIndicesComplete(s: seq<GrowthEntry>, m: Measure, i: nat)
    requires i < |s| && Truthy(Field(s[i], m))
    ensures i in SampledIndices(s, m)
  {
    var last := |s| - 1;
    if i < last {
      assert s[..last][i] == s[i];
      SampledIndicesComplete(s[..last], m, i);
    }
  }

  /** Filtering a sequence is filtering all but its last entry, then that one. */
  lemma {:induction false} SampledSnoc(s: seq<GrowthEntry>, m: Measure)
    requires |s| > 0
    ensures var last := |s| - 1;
      Sampled(s, m) == Sampled(s[..last], m) + (if Truthy(Field(s[last], m)) then [s[last]] else [])
  {
    var last := |s| - 1;
    if last > 0 {
      var h := if Truthy(Field(s[0], m)) then [s[0]] else [];
      var t := if Truthy(Field(s[last], m)) then [s[last]] else [];
      var mid := s[1..][..last - 1];
      SampledSnoc(s[1..], m);
      assert s[1..][last - 1] == s[last];
      assert Sampled(s[1..], m) == Sampled(mid, m) + t;
      assert s[..last][0] == s[0] && s[..last][1..] == mid;
      assert Sampled(s[..last], m) == h + Sampled(mid, m);
      assert Sampled(s, m) == h + (Sampled(mid, m) + t);
    }
  }

  /** The `j`-th kept entry is the entry at the `j`-th sampled position: the
      filter keeps every sampled entry, each copy once, in input order. */
  lemma {:induction false} SampledFollowsIndices(s: seq<GrowthEntry>, m: Measure)
    ensures |Sampled(s, m)| == |SampledIndices(s, m)|
    ensures forall j :: 0 <= j < |Sampled(s, m)| ==> Sampled(s, m)[j] == s[SampledIndices(s, m)[j]]
  {
    if |s| > 0 {
      var last := |s| - 1;
      var p := s[..last];
      SampledFollowsIndices(p, m);
      SampledSnoc(s, m);
      var r, ix := Sampled(s, m), SampledIndices(s, m);
      var rp, ip := Sampled(p, m), SampledIndices(p, m);
      if Truthy(Field(s[last], m)) {
        assert r == rp + [s[last]] && ix == ip + [last];
      } else {
        assert r == rp && ix == ip;
      }
      forall j | 0 <= j < |rp| ensures r[j] == s[ix[j]] {
        assert r[j] == rp[j] && ix[j] == ip[j];
        assert p[ip[j]] == s[ip[j]];
      }
    }
  }

  /** The measured value of an entry that has one. */
  function ValueOf(e: GrowthEntry, m: Measure): real {
    match Field(e, m)
    case Some(v) => v
    case None => 0.0
  }

  /** `map(d => parseFloat(d.weight))` over the sampled entries. */
  function Values(s: seq<GrowthEntry>, m: Measure): (v: seq<real>)
    ensures |v| == |s|
  {
    seq(|s|, j requires 0 <= j < |s| => ValueOf(s[j], m))
  }

  lemma {:induction false} SampledKeysAtLeast(s: seq<GrowthEntry>, m: Measure, b: int)
    requires AllTimed(s) && KeysAtLeast(s, b)
    ensures AllTimed(Sampled(s, m)) && KeysAtLeast(Sampled(s, m), b)
  {
    if |s| > 0 {
      SampledKeysAtLeast(s[1..], m, b);
    }
  }

  lemma {:induction false} SampledKeepsOrder(s: seq<GrowthEntry>, m: Measure)
    requires AllTimed(s) && SortedByTime(s)
    ensures AllTimed(Sampled(s, m)) && SortedByTime(Sampled(s, m))
  {
    if |s| > 0 {
      SortedTail(s);
      SampledKeepsOrder(s[1..], m);
      SampledKeysAtLeast(s[1..], m, Key(s[0]));
      if Truthy(Field(s[0], m)) {
        SortedCons(s[0], Sampled(s[1..], m));
      }
    }
  }

  lemma {:induction false} InsertSampleCount(e: GrowthEntry, s: seq<GrowthEntry>, m: Measure)
    requires HasTime(e) && AllTimed(s)
    ensures |Sampled(Insert(e, s), m)| == |Sampled(s, m)| + (if Truthy(Field(e, m)) then 1 else 0)
  {
    if |s| > 0 && Key(e) > Key(s[0]) {
      InsertSampleCount(e, s[1..], m);
      assert ([s[0]] + Insert(e, s[1..]))[1..] == Insert(e, s[1..]);
    } else if |s| > 0 {
      assert ([e] + s)[1..] == s;
    }
  }

  /** Sorting neither adds nor drops samples. */
  lemma {:induction false} SortKeepsSampleCount(s: seq<GrowthEntry>, m: Measure)
    requires AllTimed(s)
    ensures |Sampled(SortByTime(s), m)| == |Sampled(s, m)|
  {
    if |s| > 0 {
      SortKeepsSampleCount(s[1..], m);
      InsertSampleCount(s[0], SortByTime(s[1..]), m);
    }
  }

  datatype Direction = Increasing | Decreasing | Stable

  datatype Trend = Trend(trend: Direction, rate: real, confidence: real, totalChange: real)

  /** 0.1 for weight, 0.5 for height. */
  function Threshold(m: Measure): real {
    match m
    case Weight => 0.1
    case Height => 0.5
  }

  /** `change > t ? "increasing" : change < -t ? "decreasing" : "stable"`. */
  function Classify(change: real, m: Measure): (d: Direction)
    ensures d == Increasing <==> change > Threshold(m)
    ensures d == Decreasing <==> change < -Threshold(m)
    ensures d == Stable <==> -Threshold(m) <= change <= Threshold(m)
  {
    if change > Threshold(m) then Increasing
    else if change < -Threshold(m) then Decreasing
    else Stable
  }

  function Rank(d: Direction): int {
    match d
    case Decreasing => 0
    case Stable => 1
    case Increasing => 2
  }

  /** A larger change never gets a lower direction. */
  lemma ClassifyMonotone(c1: real, c2: real, m: Measure)
    requires c1 <= c2
    ensures Rank(Classify(c1, m)) <= Rank(Classify(c2, m))
  {
  }

  function Mirror(d: Direction): Direction {
    match d
    case Increasing => Decreasing
    case Decreasing => Increasing
    case Stable => Stable
  }

  /** The thresholds are symmetric: negating the change mirrors the direction. */
  lemma ClassifySymmetric(c: real, m: Measure)
    ensures Classify(-c, m) == Mirror(Classify(c, m))
  {
  }

  const TrendConfidence := 0.85
  const MinSamples: nat := 2

  /** The trend of a time-ordered series of samples, when it has two or more. */
  function TrendOf(values: seq<real>, m: Measure): (t: Option<Trend>)
    ensures t.Some? <==> |values| >= MinSamples
    ensures t.Some? ==>
      var change := values[|values| - 1] - values[0];
      && t.value.trend == Classify(change, m)
      && t.value.confidence == TrendConfidence
      && t.value.totalChange == RoundToHundredth(change)
      && t.value.rate == RoundToHundredth(change / |values| as real)
  {
    if |values| < MinSamples then None
    else
      var change := values[|values| - 1] - values[0];
      var timeSpan := |values|;
      Some(Trend(Classify(change, m), RoundToHundredth(change / timeSpan as real), TrendConfidence, RoundToHundredth(change)))
  }

  datatype GrowthInsight = GrowthInsight(
    confidence: Option<real>,
    message: Option<string>,
    weightTrend: Option<Trend>,
    heightTrend: Option<Trend>)

  const NeedMoreGrowthData := "Need more growth measurements for trend analysis"

  /** The placeholder for a missing or one-entry history. */
  const LowData := GrowthInsight(Some(0.3), Some(NeedMoreGrowthData), None, None)

  /** The time-ordered samples of one measure. */
  function Series(s: seq<GrowthEntry>, m: Measure): seq<real>
    requires AllTimed(s)
  {
    Values(Sampled(SortByTime(s), m), m)
  }

  /** `analyzeGrowthTrends`. With two or more entries the result has no
      confidence or message of its own, only the trends that have enough
      samples. */
  function AnalyzeGrowthTrends(data: Option<seq<GrowthEntry>>): (r: GrowthInsight)
    requires data.Some? && |data.value| >= 2 ==> AllTimed(data.value)
    ensures data.None? || |data.value| < 2 ==> r == LowData
    ensures data.Some? && |data.value| >= 2 ==>
      && r.confidence.None? && r.message.None?
      && (r.weightTrend.Some? <==> |Sampled(data.value, Weight)| >= MinSamples)
      && (r.heightTrend.Some? <==> |Sampled(data.value, Height)| >= MinSamples)
      && r.weightTrend == TrendOf(Series(data.value, Weight), Weight)
      && r.heightTrend == TrendOf(Series(data.value, Height), Height)
  {
    if data.None? || |data.value| < 2 then LowData
    else
      var sorted := SortByTime(data.value);
      SortKeepsSampleCount(data.value, Weight);
      SortKeepsSampleCount(data.value, Height);
      var weights := Values(Sampled(sorted, Weight), Weight);
      var heights := Values(Sampled(sorted, Height), Height);
      GrowthInsight(None, None, TrendOf(weights, Weight), TrendOf(heights, Height))
  }

  /** The change a trend reports runs from the earliest to the latest sample:
      every entry with a truthy value lies between the two endpoints in time. */
  lemma ChangeSpansEarliestToLatest(data: seq<GrowthEntry>, m: Measure, e: GrowthEntry)
    requires AllTimed(data)
    requires e in data && Truthy(Field(e, m))
    ensures var smp := Sampled(SortByTime(data), m);
      && |smp| > 0 && AllTimed(smp)
      && Key(smp[0]) <= Key(e) <= Key(smp[|smp| - 1])
  {
    var sorted := SortByTime(data);
    assert e in multiset(data);
    assert e in sorted;
    SampledKeepsOrder(sorted, m);
    var smp := Sampled(sorted, m);
    SampledMembers(sorted, m);
    assert e in smp;
    var j :| 0 <= j < |smp| && smp[j] == e;
  }

  /** A 0.05 weight gain is stable and a 0.2 gain is increasing. */
  lemma WeightThresholdExamples()
    ensures TrendOf([10.0, 10.05], Weight).value.trend == Stable
    ensures TrendOf([10.0, 10.2], Weight).value.trend == Increasing
    ensures TrendOf([50.0, 50.4], Height).value.trend == Stable
  {
  }
}
