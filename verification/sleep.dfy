/** The nap-time analyzer (`analyzeSleepPatterns`): the mean local start time
    of the nap-tagged sleep entries, shown as "HH:MM", and the next moment the
    clock shows that time. */
module Sleep {
  import opened Wrappers
  import opened Numeric
  import opened Text

  /** A minute of the local day, 0 (00:00) to 1439 (23:59). */
  type MinuteOfDay = m: int | 0 <= m < 1440

  /** One sleep log entry: its two optional type tags and the local
      minute-of-day of its start (`start_time`, or else `timestamp`). */
  datatype SleepEntry = SleepEntry(kind: Option<string>, sleepType: Option<string>, start: MinuteOfDay)

  /** `type === 'nap' || sleep_type === 'nap'`. */
  predicate IsNap(e: SleepEntry) {
    e.kind == Some("nap") || e.sleepType == Some("nap")
  }

  predicate HasNap(data: seq<SleepEntry>) {
    exists i :: 0 <= i < |data| && IsNap(data[i])
  }

  /** `getHours() + getMinutes() / 60`: the start as a fractional hour. */
  function HourOfDay(m: MinuteOfDay): (h: real)
    ensures h == m as real / 60.0
    ensures 0.0 <= h < 24.0
  {
    (m / 60) as real + (m % 60) as real / 60.0
  }

  /** The positions of the nap-tagged entries, in increasing order (each
      once); `NapIndicesComplete` shows none is missing. */
  function NapIndices(data: seq<SleepEntry>): (ix: seq<nat>)
    ensures forall j :: 0 <= j < |ix| ==> ix[j] < |data| && IsNap(data[ix[j]])
    ensures forall j, k :: 0 <= j < k < |ix| ==> ix[j] < ix[k]
  {
    if |data| == 0 then []
    else
      var last := |data| - 1;
      assert forall i :: 0 <= i < last ==> data[..last][i] == data[i];
      NapIndices(data[..last]) + (if IsNap(data[last]) then [last] else [])
  }

  /** Every nap-tagged entry's index is listed. */
  lemma {:induction false} NapIndicesComplete(data: seq<SleepEntry>, i: nat)
    requires i < |data| && IsNap(data[i])
    ensures i in NapIndices(data)
  {
    var last := |data| - 1;
    if i < last {
      assert data[..last][i] == data[i];
      NapIndicesComplete(data[..last], i);
    }
  }

  /** The fractional start hours of the nap-tagged entries, in input order. */
  function NapHours(data: seq<SleepEntry>): (hs: seq<real>)
    ensures |hs| <= |data|
    ensures |hs| == 0 <==> !HasNap(data)
    ensures forall j :: 0 <= j < |hs| ==> 0.0 <= hs[j] < 24.0
  {
    if |data| == 0 then []
    else
      var last := |data| - 1;
      assert forall i :: 0 <= i < last ==> data[..last][i] == data[i];
      NapHours(data[..last]) + (if IsNap(data[last]) then [HourOfDay(data[last].start)] else [])
  }

  /** The `j`-th nap hour is the start of the `j`-th nap: the hours are the
      naps' starts, all of them and in input order. */
  lemma {:induction false} NapHoursFollowNapIndices(data: seq<SleepEntry>)
    ensures |NapHours(data)| == |NapIndices(data)|
    ensures forall j :: 0 <= j < |NapHours(data)| ==>
      NapHours(data)[j] == HourOfDay(data[NapIndices(data)[j]].start)
  {
    if |data| > 0 {
      var last := |data| - 1;
      var p := data[..last];
      NapHoursFollowNapIndices(p);
      var hs, ix := NapHours(data), NapIndices(data);
      var hp, ip := NapHours(p), NapIndices(p);
      assert |hp| == |ip|;
      if IsNap(data[last]) {
        assert hs == hp + [HourOfDay(data[last].start)] && ix == ip + [last];
      } else {
        assert hs == hp && ix == ip;
      }
      forall j | 0 <= j < |hp| ensures hs[j] == HourOfDay(data[ix[j]].start) {
        assert hs[j] == hp[j] && ix[j] == ip[j];
        assert p[ip[j]] == data[ip[j]];
      }
    }
  }

  /** The mean nap start in whole minutes since local midnight. */
  function MeanNapMinute(data: seq<SleepEntry>): (w: int)
    requires HasNap(data)
    ensures 0 <= w < 1440
  {
    MeanBounds(NapHours(data), 0.0, 24.0);
    (Mean(NapHours(data)) * 60.0).Floor
  }

  /** The mean nap minute lies between the earliest and the latest nap
      start: naps all logged between `lo` and `hi` average inside that range. */
  lemma MeanNapMinuteWithinNaps(data: seq<SleepEntry>, lo: MinuteOfDay, hi: MinuteOfDay)
    requires HasNap(data)
    requires forall i :: 0 <= i < |data| && IsNap(data[i]) ==> lo <= data[i].start <= hi
    ensures lo <= MeanNapMinute(data) <= hi
  {
    var hs := NapHours(data);
    NapHoursFollowNapIndices(data);
    var l, h := lo as real / 60.0, hi as real / 60.0;
    forall j | 0 <= j < |hs| ensures l <= hs[j] <= h {
      var m := data[NapIndices(data)[j]].start;
      assert hs[j] == m as real / 60.0;
    }
    MeanWithin(hs, l, h);
    var x := Mean(hs) * 60.0;
    assert lo as real <= x <= hi as real;
  }

  /** Naps all logged at the same minute average to that minute. */
  lemma NapsAtOneMinute(data: seq<SleepEntry>, m: MinuteOfDay)
    requires HasNap(data)
    requires forall i :: 0 <= i < |data| && IsNap(data[i]) ==> data[i].start == m
    ensures MeanNapMinute(data) == m
  {
    MeanNapMinuteWithinNaps(data, m, m);
  }

  /** `Math.floor(h)` and `Math.floor((h % 1) * 60)` are the hour and the
      minute of the whole minutes of `h` hours. */
  lemma HourMinuteSplit(h: real)
    requires 0.0 <= h
    ensures var w := (h * 60.0).Floor;
      var hour := h.Floor;
      var minute := ((h - hour as real) * 60.0).Floor;
      hour == w / 60 && minute == w % 60
  {
    var hour := h.Floor;
    var minute := ((h - hour as real) * 60.0).Floor;
    var w := (h * 60.0).Floor;
    assert (h - hour as real) * 60.0 == h * 60.0 - (hour * 60) as real;
    assert (w - hour * 60) as real <= (h - hour as real) * 60.0 < (w - hour * 60 + 1) as real;
    assert w == hour * 60 + minute && 0 <= minute < 60;
  }

  /** The local day is `local - local % MsPerDay` plus the time of day. */
  lemma DayDecomposition(days: int, offset: int)
    requires 0 <= offset < MsPerDay
    ensures (days * MsPerDay + offset) % MsPerDay == offset
  {
  }

  /** `setHours(h, m, 0, 0)` on today's local date, moved one day on when that
      moment is not after now. `tzOffset` is local time minus UTC, in ms. */
  function NextNap(now: int, tzOffset: int, minuteOfDay: int): (t: int)
    requires 0 <= minuteOfDay < 1440
    ensures now < t <= now + MsPerDay
    ensures (t + tzOffset) % MsPerDay == minuteOfDay * MsPerMinute
  {
    var local := now + tzOffset;
    var days := local / MsPerDay;
    var today := days * MsPerDay + minuteOfDay * MsPerMinute;
    DayDecomposition(days, minuteOfDay * MsPerMinute);
    DayDecomposition(days + 1, minuteOfDay * MsPerMinute);
    (if today <= local then today + MsPerDay else today) - tzOffset
  }

  /** No moment strictly between now and the predicted nap shows the nap
      time on the local clock: the prediction is the earliest one. */
  lemma NextNapIsEarliest(now: int, tzOffset: int, minuteOfDay: int, t: int)
    requires 0 <= minuteOfDay < 1440
    requires now < t
    requires (t + tzOffset) % MsPerDay == minuteOfDay * MsPerMinute
    ensures NextNap(now, tzOffset, minuteOfDay) <= t
  {
    var n := NextNap(now, tzOffset, minuteOfDay);
    var a := (n + tzOffset) / MsPerDay;
    var b := (t + tzOffset) / MsPerDay;
    assert n + tzOffset == a * MsPerDay + minuteOfDay * MsPerMinute;
    assert t + tzOffset == b * MsPerDay + minuteOfDay * MsPerMinute;
    assert t - n == (b - a) * MsPerDay;
  }

  const NeedMoreSleepData := "Need more sleep data for predictions"
  const NoNapData := "No nap data available"
  const WindowPrefix := "Optimal nap window: "
  const NapConfidence := 0.8

  datatype SleepInsight = SleepInsight(
    confidence: real,
    nextNap: Option<int>,
    avgNapTime: Option<string>,
    message: string)

  /** The placeholder for both low-data cases; only the message differs. */
  function LowData(message: string): SleepInsight {
    SleepInsight(0.3, None, None, message)
  }

  /** The insight for a mean nap start of `avg` hours: the clock text of its
      whole minutes, and the next moment the local clock shows them. */
  function NapInsight(avg: real, now: int, tzOffset: int): (r: SleepInsight)
    requires 0.0 <= avg < 24.0
    ensures var w := (avg * 60.0).Floor;
      var clock := ClockText(w / 60, w % 60);
      && r.confidence == NapConfidence
      && r.avgNapTime == Some(clock)
      && r.message == WindowPrefix + clock
      && r.nextNap == Some(NextNap(now, tzOffset, w))
  {
    HourMinuteSplit(avg);
    var napHour := avg.Floor;
    var napMinute := ((avg - napHour as real) * 60.0).Floor;
    var clock := ClockText(napHour, napMinute);
    SleepInsight(
      NapConfidence,
      Some(NextNap(now, tzOffset, napHour * 60 + napMinute)),
      Some(clock),
      WindowPrefix + clock)
  }

  /** `analyzeSleepPatterns`, with the current time `now` (UTC ms) and the
      local zone's fixed offset `tzOffset` as parameters. */
  function AnalyzeSleepPatterns(data: Option<seq<SleepEntry>>, now: int, tzOffset: int): (r: SleepInsight)
    ensures data.None? || |data.value| < 2 ==> r == LowData(NeedMoreSleepData)
    ensures data.Some? && |data.value| >= 2 && !HasNap(data.value) ==> r == LowData(NoNapData)
    ensures data.Some? && |data.value| >= 2 && HasNap(data.value) ==>
      var w := MeanNapMinute(data.value);
      var clock := ClockText(w / 60, w % 60);
      && r.confidence == NapConfidence
      && r.avgNapTime == Some(clock)
      && r.message == WindowPrefix + clock
      && r.nextNap == Some(NextNap(now, tzOffset, w))
  {
    if data.None? || |data.value| < 2 then LowData(NeedMoreSleepData)
    else
      var hours := NapHours(data.value);
      if |hours| == 0 then LowData(NoNapData)
      else
        MeanBounds(hours, 0.0, 24.0);
        NapInsight(Mean(hours), now, tzOffset)
  }

  /** With a nap on record the prediction is strictly after now and at most a
      day away, and "HH:MM" reads back as a valid time of day. */
  lemma NapPredictionInWindow(data: seq<SleepEntry>, now: int, tzOffset: int)
    requires |data| >= 2 && HasNap(data)
    ensures var r := AnalyzeSleepPatterns(Some(data), now, tzOffset);
      && r.nextNap.Some? && now < r.nextNap.value <= now + MsPerDay
      && r.avgNapTime.Some? && |r.avgNapTime.value| == 5
      && var (h, m) := ParseClock(r.avgNapTime.value);
         0 <= h < 24 && 0 <= m < 60
         && (r.nextNap.value + tzOffset) % MsPerDay == (h * 60 + m) * MsPerMinute
  {
    var w := MeanNapMinute(data);
    ClockTextRoundTrip(w / 60, w % 60);
  }

  /** Naps logged at 13:00 and 14:00, with a night sleep between them, give
      the window "13:30". */
  lemma TwoNapsAverageToHalfPast(now: int, tzOffset: int)
    ensures AnalyzeSleepPatterns(Some(TwoNaps), now, tzOffset).message == "Optimal nap window: 13:30"
  {
    TwoNapsHours();
    var hs := NapHours(TwoNaps);
    assert hs[..1] == [13.0] && [13.0][..0] == [];
    assert Sum([13.0]) == 13.0;
    assert Sum(hs) == 27.0;
    assert Mean(hs) == 27.0 / 2.0;
    assert MeanNapMinute(TwoNaps) == 810;
    assert ClockText(13, 30) == "13:30";
  }

  const TwoNaps := [
    SleepEntry(Some("nap"), None, 780),
    SleepEntry(Some("night"), None, 1320),
    SleepEntry(None, Some("nap"), 840)]

  lemma TwoNapsHours()
    ensures NapHours(TwoNaps) == [13.0, 14.0]
  {
  }
}
