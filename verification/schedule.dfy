/** The age-based feeding interval of the seeding script
    (scripts/initSmartCare.js): a subject's age in started days, and the next
    feeding three or four hours after the current one. */
module Schedule {
  import opened Numeric

  /** Subjects younger than this many days feed every three hours. */
  const NewbornDays := 30

  /** The feeding interval in hours for a subject `ageInDays` old. */
  function IntervalHours(ageInDays: int): (h: int)
    ensures h == 3 <==> ageInDays < NewbornDays
    ensures h == 4 <==> ageInDays >= NewbornDays
  {
    if ageInDays < NewbornDays then 3 else 4
  }

  /** `calculateNextFeedingTime`: `currentTime` (ms) plus the interval. */
  function NextFeedingTime(currentTime: int, ageInDays: int): (t: int)
    ensures currentTime + 3 * MsPerHour <= t <= currentTime + 4 * MsPerHour
    ensures (t - currentTime) % MsPerHour == 0
    ensures (t - currentTime) / MsPerHour == IntervalHours(ageInDays)
  {
    currentTime + IntervalHours(ageInDays) * MsPerHour
  }

  /** An older subject never waits less for its next feeding. */
  lemma OlderWaitsLonger(currentTime: int, younger: int, older: int)
    requires younger <= older
    ensures NextFeedingTime(currentTime, younger) <= NextFeedingTime(currentTime, older)
  {
  }

  /** Day 29 is the last three-hour day and day 30 the first four-hour one. */
  lemma IntervalSwitchesAtThirtyDays(currentTime: int)
    ensures NextFeedingTime(currentTime, 29) == currentTime + 3 * MsPerHour
    ensures NextFeedingTime(currentTime, 30) == currentTime + 4 * MsPerHour
  {
  }

  /** `Math.ceil((now - birth) / 86400000)`: the number of days begun since
      `birth`. */
  function AgeInDays(now: int, birth: int): (d: int)
    ensures (d - 1) * MsPerDay < now - birth <= d * MsPerDay
  {
    -((birth - now) / MsPerDay)
  }

  /** The ceiling is unique: any day count bracketing the elapsed time the
      same way is the age. */
  lemma AgeIsTheCeiling(now: int, birth: int, d: int)
    requires (d - 1) * MsPerDay < now - birth <= d * MsPerDay
    ensures AgeInDays(now, birth) == d
  {
  }

  /** A single millisecond into a day counts that whole day, and an exact
      number of days counts no extra. */
  lemma PartialDayCountsWhole(birth: int, days: int)
    ensures AgeInDays(birth + days * MsPerDay, birth) == days
    ensures AgeInDays(birth + days * MsPerDay + 1, birth) == days + 1
  {
  }

  /** A subject born 29 days and a moment ago is already on the four-hour
      interval, because that moment starts its thirtieth day. */
  lemma StartedThirtiethDayFeedsEveryFourHours(birth: int, moment: int)
    requires 0 < moment <= MsPerDay
    ensures var now := birth + 29 * MsPerDay + moment;
      NextFeedingTime(now, AgeInDays(now, birth)) == now + 4 * MsPerHour
  {
  }
}
