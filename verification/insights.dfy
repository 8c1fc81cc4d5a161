/** The insight aggregator (`SmartCareAnalyzer` and `generateInsights`): runs
    the three analyzers on a subject's series and bundles their results with
    the subject id and the generation time. */
module Insights {
  import opened Wrappers
  import Feeding
  import Sleep
  import Growth

  /** The analyzer object: the subject it was built for, and a confidence
      threshold (0.7) that no method reads. */
  datatype Analyzer = Analyzer(babyId: string, confidenceThreshold: real)

  /** The constructor: it keeps the subject id and sets the threshold. */
  function NewAnalyzer(babyId: string): (a: Analyzer)
    ensures a.babyId == babyId
    ensures a.confidenceThreshold == 0.7
  {
    Analyzer(babyId, 0.7)
  }

  /** The argument of `generateInsights`; a series may be missing. */
  datatype BabyData = BabyData(
    feeding: Option<seq<Feeding.FeedingEntry>>,
    sleep: Option<seq<Sleep.SleepEntry>>,
    growth: Option<seq<Growth.GrowthEntry>>)

  datatype InsightSnapshot = InsightSnapshot(
    feeding: Feeding.FeedingInsight,
    sleep: Sleep.SleepInsight,
    growth: Growth.GrowthInsight,
    timestamp: int,
    babyId: string)

  /** Entries the analyzers read carry a time. */
  predicate WellTimed(d: BabyData) {
    && (d.feeding.Some? && |d.feeding.value| >= Feeding.MinFeedings ==> Feeding.AllTimed(d.feeding.value))
    && (d.growth.Some? && |d.growth.value| >= 2 ==> Growth.AllTimed(d.growth.value))
  }

  /** `generateInsights`. A missing series is replaced by `[]`. `now` is the
      generation time (UTC ms), `tzOffset` the local zone's offset and
      `feedingSd` the standard deviation of the feeding gaps. */
  function GenerateInsights(a: Analyzer, data: BabyData, now: int, tzOffset: int, feedingSd: real): (r: InsightSnapshot)
    requires feedingSd >= 0.0
    requires WellTimed(data)
    ensures r.babyId == a.babyId && r.timestamp == now
    ensures data.feeding.None? ==> r.feeding == Feeding.LowData
    ensures data.sleep.None? ==> r.sleep == Sleep.LowData(Sleep.NeedMoreSleepData)
    ensures data.growth.None? ==> r.growth == Growth.LowData
    ensures data.feeding.Some? ==> r.feeding == Feeding.AnalyzeFeedingPatterns(data.feeding, feedingSd)
    ensures data.sleep.Some? ==> r.sleep == Sleep.AnalyzeSleepPatterns(data.sleep, now, tzOffset)
    ensures data.growth.Some? ==> r.growth == Growth.AnalyzeGrowthTrends(data.growth)
  {
    InsightSnapshot(
      Feeding.AnalyzeFeedingPatterns(Some(data.feeding.GetOr([])), feedingSd),
      Sleep.AnalyzeSleepPatterns(Some(data.sleep.GetOr([])), now, tzOffset),
      Growth.AnalyzeGrowthTrends(Some(data.growth.GetOr([]))),
      now,
      a.babyId)
  }

  /** The confidences the analyzers can produce: feeding in [0.3, 0.95]
      unless NaN, sleep 0.3 or 0.8, growth 0.3 or absent, and 0.85 on each
      trend. */
  predicate KnownConfidences(r: InsightSnapshot) {
    && (r.feeding.confidence.Finite? ==> 0.3 <= r.feeding.confidence.value <= 0.95)
    && (r.sleep.confidence == 0.3 || r.sleep.confidence == 0.8)
    && (r.growth.confidence.None? || r.growth.confidence == Some(0.3))
    && (r.growth.weightTrend.Some? ==> r.growth.weightTrend.value.confidence == 0.85)
    && (r.growth.heightTrend.Some? ==> r.growth.heightTrend.value.confidence == 0.85)
  }

  /** Every confidence a generated snapshot carries is one of those. */
  lemma SnapshotConfidences(a: Analyzer, data: BabyData, now: int, tzOffset: int, feedingSd: real)
    requires feedingSd >= 0.0
    requires WellTimed(data)
    ensures KnownConfidences(GenerateInsights(a, data, now, tzOffset, feedingSd))
  {
  }

  /** The threshold is never read: two analyzers for the same subject give
      the same snapshot whatever their thresholds. */
  lemma ThresholdIsNeverRead(babyId: string, t1: real, t2: real, data: BabyData, now: int, tzOffset: int, feedingSd: real)
    requires feedingSd >= 0.0
    requires WellTimed(data)
    ensures GenerateInsights(Analyzer(babyId, t1), data, now, tzOffset, feedingSd)
         == GenerateInsights(Analyzer(babyId, t2), data, now, tzOffset, feedingSd)
  {
  }

  /** A subject with no data at all gets the three low-data placeholders. */
  lemma EmptyDataGivesPlaceholders(a: Analyzer, now: int, tzOffset: int, feedingSd: real)
    requires feedingSd >= 0.0
    ensures var r := GenerateInsights(a, BabyData(Some([]), Some([]), Some([])), now, tzOffset, feedingSd);
      && r == GenerateInsights(a, BabyData(None, None, None), now, tzOffset, feedingSd)
      && r.feeding == Feeding.LowData
      && r.sleep == Sleep.LowData(Sleep.NeedMoreSleepData)
      && r.growth == Growth.LowData
  {
  }
}
