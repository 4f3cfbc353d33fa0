/** The driver's tracking screen: the running statistics refreshed on each
    location sample, and the "Xh Ym" text the tracking time is shown as. */
module GpsTracker {
  import opened Options
  import opened Text
  import opened JsNumber

  /** One location sample, speed already in km/h. */
  datatype LocationData = LocationData(latitude: real, longitude: real, heading: real, speed: real, accuracy: real)

  datatype DriverSession = DriverSession(driverId: string, busId: string, routeId: string, isTracking: bool, startTime: int)

  /** The `stats` record; `lastUpdate` is a time in milliseconds, or `null`. */
  datatype TrackerStats = TrackerStats(totalDistance: real, averageSpeed: real, trackingTime: int, lastUpdate: Option<int>)

  const InitialStats := TrackerStats(0.0, 0.0, 0, None)

  // ---------------------------------------------------------------------------
  // updateStats

  /** The stats after a sample at time `now`: the speed shown is the
      sample's own, the tracking time runs from the session's start (none
      without a session, or with a start time of 0, which `||` treats as
      missing), and nothing else changes. */
  function StatsAfter(prev: TrackerStats, sample: LocationData, session: Option<DriverSession>, now: int): (s: TrackerStats)
    ensures s.averageSpeed == sample.speed
    ensures s.totalDistance == prev.totalDistance && s.lastUpdate == prev.lastUpdate
    ensures session.None? ==> s.trackingTime == 0
    ensures session.Some? && session.value.startTime == 0 ==> s.trackingTime == 0
    ensures session.Some? && session.value.startTime != 0 ==> s.trackingTime == now - session.value.startTime
  {
    var start := if session.Some? && session.value.startTime != 0 then session.value.startTime else now;
    prev.(averageSpeed := sample.speed, trackingTime := now - start)
  }

  /** Only the latest sample counts: an earlier sample leaves no trace, so
      the "average" speed is the last reading, and the tracking time never
      goes negative while the clock reads no earlier than the start. */
  lemma LatestSampleWins(prev: TrackerStats, a: LocationData, b: LocationData, session: Option<DriverSession>, t1: int, t2: int)
    ensures StatsAfter(StatsAfter(prev, a, session, t1), b, session, t2) == StatsAfter(prev, b, session, t2)
    ensures session.Some? && session.value.startTime <= t2 ==> StatsAfter(prev, b, session, t2).trackingTime >= 0
  {
  }

  /** The screen's state that `updateStats` touches. */
  class Tracker {
    var stats: TrackerStats
    var session: Option<DriverSession>

    constructor ()
      ensures stats == InitialStats && session.None?
    {
      stats := InitialStats;
      session := None;
    }

    /** `updateStats`, at the clock reading `now`. */
    method UpdateStats(sample: LocationData, now: int)
      modifies this
      ensures stats == StatsAfter(old(stats), sample, old(session), now)
      ensures session == old(session)
    {
      var start := if session.Some? && session.value.startTime != 0 then session.value.startTime else now;
      stats := stats.(averageSpeed := sample.speed, trackingTime := now - start);
    }
  }

  // ---------------------------------------------------------------------------
  // formatTime

  const MsPerHour := 3600000
  const MsPerMinute := 60000

  /** `Math.floor(ms / 3600000)`: Dafny's `/` by a positive divisor rounds down. */
  function Hours(ms: int): (h: int)
    ensures h * MsPerHour <= ms < (h + 1) * MsPerHour
    ensures ms >= 0 ==> h >= 0
  {
    ms / MsPerHour
  }

  /** `Math.floor((ms % 3600000) / 60000)`, with JavaScript's truncating `%`. */
  function Minutes(ms: int): (m: int)
    ensures ms >= 0 ==> 0 <= m <= 59
    ensures ms < 0 ==> -60 <= m <= 0
  {
    JsRem(ms, MsPerHour) / MsPerMinute
  }

  /** `formatTime`: for a duration that is not negative, the text reads
      back as its whole hours and the whole minutes left over. */
  function FormatTime(ms: int): (t: string)
    ensures ms >= 0 ==> ReadsAs(t, Hours(ms), Minutes(ms))
  {
    var text := IntToString(Hours(ms)) + "h " + IntToString(Minutes(ms)) + "m";
    if ms >= 0 then ClockTextReadsBack(Hours(ms), Minutes(ms)); text else text
  }

  /** For a duration that is not negative, the text names whole hours and
      the whole minutes left over: the duration lies in that minute. */
  lemma FormatTimeSplitsDuration(ms: int)
    requires ms >= 0
    ensures Hours(ms) >= 0 && 0 <= Minutes(ms) <= 59
    ensures Hours(ms) * MsPerHour + Minutes(ms) * MsPerMinute <= ms < Hours(ms) * MsPerHour + (Minutes(ms) + 1) * MsPerMinute
  {
  }

  /** `t` reads as `h` hours and `m` minutes: the digits before the first
      'h' spell `h`, then come "h ", then the digits before the next 'm'
      spell `m`, and that 'm' ends the text. */
  predicate ReadsAs(t: string, h: nat, m: nat) {
    var hText := BeforeFirst(t, 'h');
    && (forall i :: 0 <= i < |hText| ==> IsDigit(hText[i]))
    && DecimalValue(hText) == h
    && |t| >= |hText| + 2 && t[|hText|..|hText| + 2] == "h "
    && var rest := t[|hText| + 2..]; var mText := BeforeFirst(rest, 'm');
    && (forall i :: 0 <= i < |mText| ==> IsDigit(mText[i]))
    && DecimalValue(mText) == m
    && rest == mText + "m"
  }

  lemma {:induction false} ClockTextReadsBack(h: nat, m: nat)
    ensures ReadsAs(NatToString(h) + "h " + NatToString(m) + "m", h, m)
  {
    var hs := NatToString(h);
    var ms := NatToString(m);
    var tail := " " + ms + "m";
    var t := hs + "h " + ms + "m";
    assert t == hs + ['h'] + tail;
    NumberThenSeparator(h, 'h', tail);
    assert t[|hs|..|hs| + 2] == "h ";
    var rest := t[|hs| + 2..];
    assert rest == ms + ['m'] + [];
    NumberThenSeparator(m, 'm', []);
  }

  /** The text of a number followed by a non-digit splits back into that number. */
  lemma NumberThenSeparator(n: nat, sep: char, tail: string)
    requires !IsDigit(sep)
    ensures BeforeFirst(NatToString(n) + [sep] + tail, sep) == NatToString(n)
    ensures DecimalValue(NatToString(n)) == n
  {
    var digits := NatToString(n);
    assert sep !in digits by {
      forall i | 0 <= i < |digits| ensures digits[i] != sep { assert IsDigit(digits[i]); }
    }
    BeforeFirstOfJoin(digits, sep, tail);
    NatToStringRoundTrip(n);
  }
}
