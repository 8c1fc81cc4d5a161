/** The presentation rules shared by the dashboard component and the demo page
    (app/components/SmartCare.js, app/smart-care/page.js): the countdown text
    of `formatTimeUntil`, the colour class of `getConfidenceColor`, the
    percentage badge, and the body the component posts as feedback. */
module Display {
  import opened Wrappers
  import opened Numeric
  import opened Text
  import FeedbackRoute
  import Insights

  /** What `formatTimeUntil` shows: no target, a target already past, or the
      whole hours and remaining whole minutes until the target. */
  datatype Countdown = Unknown | Overdue | Remaining(hours: nat, minutes: nat)

  /** The countdown from `now` to `target` (both ms); `None` is a falsy
      timestamp. */
  function CountdownTo(target: Option<int>, now: int): (c: Countdown)
    ensures c.Unknown? <==> target.None?
    ensures c.Overdue? <==> target.Some? && target.value < now
    ensures c.Remaining? ==>
      var diff := target.value - now;
      && c.minutes < 60
      && c.hours * MsPerHour + c.minutes * MsPerMinute <= diff < c.hours * MsPerHour + (c.minutes + 1) * MsPerMinute
  {
    if target.None? then Unknown
    else
      var diff := target.value - now;
      if diff < 0 then Overdue
      else Remaining(diff / MsPerHour, (diff % MsPerHour) / MsPerMinute)
  }

  /** The hours-and-minutes split of a non-negative difference is unique:
      any pair meeting the bounds is the one the countdown shows. */
  lemma CountdownIsTheFloorSplit(target: int, now: int, hours: nat, minutes: nat)
    requires minutes < 60
    requires hours * MsPerHour + minutes * MsPerMinute <= target - now < hours * MsPerHour + (minutes + 1) * MsPerMinute
    ensures CountdownTo(Some(target), now) == Remaining(hours, minutes)
  {
  }

  /** The text of a countdown: "Unknown", "Now", or "<H>h <M>m"; the hours
      and minutes read back from the digits around "h " and before "m". */
  function Render(c: Countdown): (s: string)
    ensures c.Remaining? ==>
      var k := |NatToString(c.hours)|;
      && k + 3 <= |s| && s[k..k + 2] == "h " && s[|s| - 1] == 'm'
      && AllDigits(s[..k]) && AllDigits(s[k + 2..|s| - 1])
      && ParseDigits(s[..k]) == c.hours && ParseDigits(s[k + 2..|s| - 1]) == c.minutes
  {
    match c
    case Unknown => "Unknown"
    case Overdue => "Now"
    case Remaining(h, m) =>
      var hs, ms := NatToString(h), NatToString(m);
      var s := hs + "h " + ms + "m";
      assert s[..|hs|] == hs && s[|hs| + 2..|s| - 1] == ms;
      ParseNatToString(h);
      ParseNatToString(m);
      s
  }

  /** Only a countdown with nothing left to count reads as a word: a
      remaining time always starts with a digit. */
  lemma RenderWords(c: Countdown)
    ensures Render(c) == "Unknown" <==> c.Unknown?
    ensures Render(c) == "Now" <==> c.Overdue?
  {
  }

  /** Distinct countdowns are shown as distinct texts. */
  lemma RenderInjective(a: Countdown, b: Countdown)
    requires Render(a) == Render(b)
    ensures a == b
  {
    if a.Remaining? && b.Remaining? {
      var s := Render(a);
      var ka, kb := |NatToString(a.hours)|, |NatToString(b.hours)|;
      assert s[ka] == s[ka..ka + 2][0] == 'h';
      assert s[kb] == s[kb..kb + 2][0] == 'h';
      DigitRunLength(s, ka, kb);
    } else {
      RenderWords(a);
      RenderWords(b);
    }
  }

  /** `formatTimeUntil(timestamp)` evaluated at time `now`. */
  function FormatTimeUntil(target: Option<int>, now: int): (s: string)
    ensures s == "Unknown" <==> target.None?
    ensures s == "Now" <==> target.Some? && target.value < now
    ensures target == Some(now) ==> s == "0h 0m"
  {
    RenderWords(CountdownTo(target, now));
    Render(CountdownTo(target, now))
  }

  /** The demo page's feeding card targets two hours after the moment the mock
      data is built; rendered in that same millisecond it reads "2h 0m", and
      one to sixty thousand milliseconds later it reads "1h 59m". */
  lemma MockFeedingCountdown(built: int, elapsed: int)
    requires 0 <= elapsed <= MsPerMinute
    ensures elapsed == 0 ==> FormatTimeUntil(Some(built + 2 * MsPerHour), built + elapsed) == "2h 0m"
    ensures elapsed > 0 ==> FormatTimeUntil(Some(built + 2 * MsPerHour), built + elapsed) == "1h 59m"
  {
    if elapsed == 0 {
      CountdownIsTheFloorSplit(built + 2 * MsPerHour, built, 2, 0);
      assert NatToString(2) == "2" && NatToString(0) == "0";
    } else {
      CountdownIsTheFloorSplit(built + 2 * MsPerHour, built + elapsed, 1, 59);
      assert NatToString(1) == "1" && NatToString(59) == "59";
    }
  }

  datatype Color = Green | Yellow | Red

  /** `getConfidenceColor`: green from 0.8, yellow from 0.6, red below. */
  function ConfidenceColor(c: real): (color: Color)
    ensures color == Green <==> c >= 0.8
    ensures color == Yellow <==> 0.6 <= c < 0.8
    ensures color == Red <==> c < 0.6
  {
    if c >= 0.8 then Green else if c >= 0.6 then Yellow else Red
  }

  /** The Tailwind class the colour is rendered with. */
  function ColorClass(color: Color): string {
    match color
    case Green => "text-green-600"
    case Yellow => "text-yellow-600"
    case Red => "text-red-600"
  }

  /** Red below yellow below green. */
  function Rank(color: Color): nat {
    match color
    case Red => 0
    case Yellow => 1
    case Green => 2
  }

  /** A higher confidence never gets a worse colour. */
  lemma ConfidenceColorMonotone(a: real, b: real)
    requires a <= b
    ensures Rank(ConfidenceColor(a)) <= Rank(ConfidenceColor(b))
  {
  }

  /** The three colours have three distinct classes. */
  lemma ColorClassInjective(a: Color, b: Color)
    requires ColorClass(a) == ColorClass(b)
    ensures a == b
  {
  }

  /** `confidence || 0`: a missing, NaN or zero confidence reads as 0. */
  function ShownConfidence(c: Option<Num>): (x: real)
    ensures c.Some? && c.value.Finite? ==> x == c.value.value
    ensures c.None? || c == Some(NaN) ==> x == 0.0
  {
    if c.Some? && c.value.Finite? then c.value.value else 0.0
  }

  /** `Math.round(confidence * 100)`: the nearest whole percent. */
  function Percent(c: real): (p: int)
    ensures p as real - 0.5 <= c * 100.0 < p as real + 0.5
  {
    Round(c * 100.0)
  }

  /** A card's confidence badge: its colour and its percentage. */
  datatype Badge = Badge(color: Color, percent: int)

  function BadgeFor(c: Option<Num>): (b: Badge)
    ensures c.None? || c == Some(NaN) ==> b == Badge(Red, 0)
  {
    var x := ShownConfidence(c);
    Badge(ConfidenceColor(x), Percent(x))
  }

  /** The feeding card reads `insights?.feeding?.confidence`: no insights or
      a NaN confidence show red 0%, a number shows its colour and its
      percentage to the nearest whole. */
  function FeedingBadge(insights: Option<Insights.InsightSnapshot>): (b: Badge)
    ensures insights.None? ==> b == Badge(Red, 0)
    ensures insights.Some? && insights.value.feeding.confidence.NaN? ==> b == Badge(Red, 0)
    ensures insights.Some? && insights.value.feeding.confidence.Finite? ==>
      var c := insights.value.feeding.confidence.value;
      b.color == ConfidenceColor(c) && b.percent as real - 0.5 <= c * 100.0 < b.percent as real + 0.5
  {
    BadgeFor(if insights.None? then None else Some(insights.value.feeding.confidence))
  }

  /** The sleep card reads `insights?.sleep?.confidence`. */
  function SleepBadge(insights: Option<Insights.InsightSnapshot>): (b: Badge)
    ensures insights.None? ==> b == Badge(Red, 0)
    ensures insights.Some? ==>
      var c := insights.value.sleep.confidence;
      b.color == ConfidenceColor(c) && b.percent as real - 0.5 <= c * 100.0 < b.percent as real + 0.5
  {
    BadgeFor(if insights.None? then None else Some(Finite(insights.value.sleep.confidence)))
  }

  /** The growth card reads `insights?.growth?.weight_trend?.confidence`: the
      growth series' own confidence is never shown, and without a weight
      trend the card shows red 0%. */
  function GrowthBadge(insights: Option<Insights.InsightSnapshot>): (b: Badge)
    ensures insights.None? || insights.value.growth.weightTrend.None? ==> b == Badge(Red, 0)
    ensures insights.Some? && insights.value.growth.weightTrend.Some? ==>
      var c := insights.value.growth.weightTrend.value.confidence;
      b.color == ConfidenceColor(c) && b.percent as real - 0.5 <= c * 100.0 < b.percent as real + 0.5
  {
    BadgeFor(
      if insights.None? || insights.value.growth.weightTrend.None? then None
      else Some(Finite(insights.value.growth.weightTrend.value.confidence)))
  }

  /** While there are no insights, as after a failed fetch (the first fetch
      shows a spinner instead of the cards), every card shows a red 0%. */
  lemma NoInsightsShowRedZero()
    ensures FeedingBadge(None) == Badge(Red, 0)
    ensures SleepBadge(None) == Badge(Red, 0)
    ensures GrowthBadge(None) == Badge(Red, 0)
  {
  }

  /** The badges a snapshot with the analyzers' confidences can show:
      feeding red 0% (NaN) or between 30% and 95%, sleep red 30% or green
      80%, growth green 85% or, without a weight trend, red 0%. */
  lemma SnapshotBadges(r: Insights.InsightSnapshot)
    requires Insights.KnownConfidences(r)
    ensures FeedingBadge(Some(r)) == Badge(Red, 0) || 30 <= FeedingBadge(Some(r)).percent <= 95
    ensures SleepBadge(Some(r)) == Badge(Red, 30) || SleepBadge(Some(r)) == Badge(Green, 80)
    ensures GrowthBadge(Some(r)) == Badge(Green, 85) || GrowthBadge(Some(r)) == Badge(Red, 0)
  {
  }

  /** The demo page's mock confidences 0.85, 0.78 and 0.92 show as green 85%,
      yellow 78% and green 92%. */
  lemma MockConfidenceBadges()
    ensures BadgeFor(Some(Finite(0.85))) == Badge(Green, 85)
    ensures BadgeFor(Some(Finite(0.78))) == Badge(Yellow, 78)
    ensures BadgeFor(Some(Finite(0.92))) == Badge(Green, 92)
  {
  }

  /** The subject id the component posts feedback for. */
  const CurrentBabyId := "current-baby-id"

  /** The body of the component's `submitFeedback(type, accurate)`: it also
      carries an ISO `timestamp`, which the route ignores, and no `user_id`.
      The route accepts it exactly when the type is not empty. */
  function FeedbackPayload(insightType: string, accurate: bool): (p: FeedbackRoute.RequestBody)
    ensures FeedbackRoute.Accepted(p) <==> insightType != ""
    ensures p.babyId == Some(FeedbackRoute.JString(CurrentBabyId))
    ensures p.accurate == Some(FeedbackRoute.JBool(accurate))
    ensures !FeedbackRoute.Truthy(p.userId)
  {
    FeedbackRoute.RequestBody(
      Some(FeedbackRoute.JString(CurrentBabyId)),
      Some(FeedbackRoute.JString(insightType)),
      Some(FeedbackRoute.JBool(accurate)),
      None)
  }

  /** Every button's feedback passes the route's check, is recorded under the
      fixed subject id as anonymous, and names a type the schema accepts. */
  lemma ComponentFeedbackRecordedAnonymously(insightType: string, accurate: bool, now: int)
    requires insightType in {"feeding", "sleep", "growth"}
    ensures var r := FeedbackRoute.Validate(FeedbackPayload(insightType, accurate), now);
      && r == Success(FeedbackRoute.FeedbackRecord(
           FeedbackRoute.JString(CurrentBabyId), FeedbackRoute.JString(insightType),
           accurate, FeedbackRoute.Anonymous, now))
      && FeedbackRoute.SchemaInsightType(r.value.insightType)
  {
  }
}
