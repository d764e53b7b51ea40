/** Model of the /loop cadence (src/commands.rs): from an interval to the nearest cadence that
    cron can express, and from there to cron text.
 */
module LoopCadence {
  import opened Wrappers
  import opened TextBasics
  import opened CronExpression

  const MAX_LOOP_MINUTES: nat := 30 * 24 * 60
  const U64_MAX: nat := 0xFFFF_FFFF_FFFF_FFFF
  const DAY: nat := 24 * 60

  /* ---------- intervals ---------- */

  /** How many seconds a unit stands for. */
  function UnitSeconds(unit: string): Option<nat> {
    var u := Lower(unit);
    if u in ["s", "sec", "secs", "second", "seconds"] then Some(1)
    else if u in ["m", "min", "mins", "minute", "minutes"] then Some(60)
    else if u in ["h", "hr", "hrs", "hour", "hours"] then Some(3600)
    else if u in ["d", "day", "days"] then Some(86400)
    else None
  }

  /** The minutes of a count and a unit; absent if they overflow 64 bits. */
  function UncheckedMinutes(count: nat, seconds: nat): Option<nat> {
    if seconds == 1 then if count + 59 > U64_MAX then None else Some((count + 59) / 60)
    else if seconds == 60 then Some(count)
    else if count * (seconds / 60) > U64_MAX then None
    else Some(count * (seconds / 60))
  }

  function IntervalToMinutes(count: nat, unit: string): Option<nat> {
    var seconds := UnitSeconds(unit);
    if seconds.None? then None
    else
      var minutes := UncheckedMinutes(count, seconds.value);
      if minutes.None? || minutes.value == 0 || minutes.value > MAX_LOOP_MINUTES then None else minutes
  }

  /** An interval is accepted exactly if it is positive and at most thirty days; it is rounded
      up to whole minutes, so it never becomes shorter. */
  lemma IntervalRoundsUp(count: nat, unit: string)
    requires count <= U64_MAX
    ensures UnitSeconds(unit).None? ==> IntervalToMinutes(count, unit).None?
    ensures UnitSeconds(unit).Some? ==>
              var total, r := count * UnitSeconds(unit).value, IntervalToMinutes(count, unit);
              && (r.Some? <==> 0 < total <= MAX_LOOP_MINUTES * 60)
              && (r.Some? ==> 60 * (r.value - 1) < total <= 60 * r.value)
  {
    hide Lower;
    if UnitSeconds(unit).Some? {
      var seconds := UnitSeconds(unit).value;
      hide UnitSeconds;
      assert seconds == 1 || seconds == 60 || seconds == 3600 || seconds == 86400;
    }
  }

  /** One of the names, but for case. */
  ghost predicate IsOneOf(unit: string, names: seq<string>) { exists n :: n in names && SameButCase(unit, n) }

  /** The names of the units, whatever their case. */
  lemma UnitNames(unit: string)
    ensures UnitSeconds(unit) == Some(1) <==> IsOneOf(unit, ["s", "sec", "secs", "second", "seconds"])
    ensures UnitSeconds(unit) == Some(60) <==> IsOneOf(unit, ["m", "min", "mins", "minute", "minutes"])
    ensures UnitSeconds(unit) == Some(3600) <==> IsOneOf(unit, ["h", "hr", "hrs", "hour", "hours"])
    ensures UnitSeconds(unit) == Some(86400) <==> IsOneOf(unit, ["d", "day", "days"])
    ensures UnitSeconds(unit).Some? ==> UnitSeconds(unit).value in {1, 60, 3600, 86400}
  {
    hide Lower, SameButCase, IsOneOf;
    NamesAreLower(["s", "sec", "secs", "second", "seconds"], unit);
    NamesAreLower(["m", "min", "mins", "minute", "minutes"], unit);
    NamesAreLower(["h", "hr", "hrs", "hour", "hours"], unit);
    NamesAreLower(["d", "day", "days"], unit);
  }

  /** A text in lower case is a name exactly if it is one but for case. */
  lemma NamesAreLower(names: seq<string>, unit: string)
    requires forall i :: 0 <= i < |names| ==> IsLower(names[i])
    ensures Lower(unit) in names <==> IsOneOf(unit, names)
  {
    hide Lower, SameButCase;
    forall i | 0 <= i < |names| ensures Lower(unit) == names[i] <==> SameButCase(unit, names[i]) {
      LowerIgnoresCase(unit, names[i]);
      LowerOfLower(names[i]);
    }
  }

  predicate IsLower(s: string) { forall i :: 0 <= i < |s| ==> 'a' <= s[i] <= 'z' }

  lemma LowerOfLower(s: string)
    requires IsLower(s)
    ensures Lower(s) == s
  {
  }

  /* ---------- the nearest cadence ---------- */

  const MINUTE_CANDIDATES: seq<nat> := [1, 2, 3, 4, 5, 6, 10, 12, 15, 20, 30]
  const HOUR_CANDIDATES: seq<nat> := [1, 2, 3, 4, 6, 8, 12]

  function Candidates(): seq<nat> {
    MINUTE_CANDIDATES + seq(|HOUR_CANDIDATES|, i requires 0 <= i < |HOUR_CANDIDATES| => HOUR_CANDIDATES[i] * 60)
    + seq(30, i => (i + 1) * DAY)
  }

  function AbsDiff(a: nat, b: nat): nat { if a < b then b - a else a - b }

  /** Whether a candidate is preferred: nearer, or as near and shorter. */
  predicate AtLeastAsGood(a: nat, b: nat, requested: nat) {
    AbsDiff(a, requested) < AbsDiff(b, requested) || (AbsDiff(a, requested) == AbsDiff(b, requested) && a <= b)
  }

  function Best(candidates: seq<nat>, requested: nat): (r: nat)
    requires candidates != []
    ensures r in candidates && forall c :: c in candidates ==> AtLeastAsGood(r, c, requested)
  {
    if |candidates| == 1 then candidates[0]
    else
      var rest := Best(candidates[1..], requested);
      assert forall c :: c in candidates ==> c == candidates[0] || c in candidates[1..];
      if AtLeastAsGood(candidates[0], rest, requested) then candidates[0] else rest
  }

  function NearestCleanMinutes(requested: nat): (r: nat) {
    Best(Candidates(), requested)
  }

  /** A cadence is clean if it divides the hour, the day, or is a number of days. */
  predicate IsClean(m: nat) {
    || (0 < m < 60 && 60 % m == 0)
    || (60 <= m < DAY && m % 60 == 0 && 24 % (m / 60) == 0)
    || (DAY <= m <= MAX_LOOP_MINUTES && m % DAY == 0)
  }

  /** The candidates are exactly the clean cadences, so the choice leaves none out. */
  lemma {:induction false} CandidatesAreTheCleanOnes(m: nat)
    ensures m in Candidates() <==> IsClean(m)
  {
    hide IsClean;
    var hours, days := seq(|HOUR_CANDIDATES|, i requires 0 <= i < |HOUR_CANDIDATES| => HOUR_CANDIDATES[i] * 60), seq(30, i => (i + 1) * DAY);
    assert Candidates() == MINUTE_CANDIDATES + hours + days;
    assert hours == [60, 120, 180, 240, 360, 480, 720];
    assert forall i :: 0 <= i < |days| ==> days[i] >= DAY;
    assert forall i :: 0 <= i < |hours| ==> 60 <= hours[i] < DAY;
    assert forall i :: 0 <= i < |MINUTE_CANDIDATES| ==> MINUTE_CANDIDATES[i] < 60;
    if m < 60 {
      CleanMinutes(m);
    } else if m < DAY {
      CleanHours(m);
    } else {
      CleanDays(m, days);
    }
  }

  lemma CleanDays(m: nat, days: seq<nat>)
    requires DAY <= m && days == seq(30, i => (i + 1) * DAY)
    ensures m in days <==> IsClean(m)
  {
    if m % DAY == 0 && m <= MAX_LOOP_MINUTES { assert days[m / DAY - 1] == m; }
  }

  /** How often a number up to 60 goes into 60, and up to 24 into 24. */
  function Into60(m: nat): nat
    requires 0 < m <= 60
  {
    if m > 30 then 1 else if m > 20 then 2 else if m > 15 then 3 else if m > 12 then 4 else if m > 10 then 5
    else if m > 8 then 6 else if m > 7 then 7 else if m > 6 then 8 else if m > 5 then 10 else if m > 4 then 12
    else if m > 3 then 15 else if m > 2 then 20 else if m > 1 then 30 else 60
  }

  function Into24(h: nat): nat
    requires 0 < h <= 24
  {
    if h > 12 then 1 else if h > 8 then 2 else if h > 6 then 3 else if h > 4 then 4
    else if h > 3 then 6 else if h > 2 then 8 else if h > 1 then 12 else 24
  }

  lemma CleanMinutes(m: nat)
    requires m < 60
    ensures m in MINUTE_CANDIDATES <==> IsClean(m)
  {
    if m > 0 { RemainderOf(60, Into60(m), m); }
  }

  lemma CleanHours(m: nat)
    requires 60 <= m < DAY
    ensures m in [60, 120, 180, 240, 360, 480, 720] <==> IsClean(m)
  {
    RemainderOf(24, Into24(m / 60), m / 60);
  }

  /** The choice is the nearest clean cadence, the shorter one of two as near. */
  lemma {:induction false} NearestCleanIsNearest(requested: nat, other: nat)
    requires IsClean(other)
    ensures var r := NearestCleanMinutes(requested); IsClean(r) && AtLeastAsGood(r, other, requested)
    ensures IsClean(requested) <==> NearestCleanMinutes(requested) == requested
  {
    CandidatesAreTheCleanOnes(other);
    CandidatesAreTheCleanOnes(requested);
    CandidatesAreTheCleanOnes(NearestCleanMinutes(requested));
  }

  /** A clean cadence within a third of the request. */
  function Close(requested: nat): nat
    requires 0 < requested <= MAX_LOOP_MINUTES
  {
    if requested <= 6 then requested else if requested <= 8 then 6 else if requested <= 15 then 10 else if requested <= 22 then 15
    else if requested <= 45 then 30 else if requested <= 90 then 60 else if requested <= 180 then 120
    else if requested <= 360 then 240 else if requested <= 540 then 360 else if requested <= 1080 then 720
    else (requested + DAY / 2) / DAY * DAY
  }

  lemma CloseIsClean(requested: nat)
    requires 0 < requested <= MAX_LOOP_MINUTES
    ensures IsClean(Close(requested)) && 3 * AbsDiff(Close(requested), requested) <= requested
  {
    hide IsClean;
    var c := Close(requested);
    if requested > 1080 {
      CloseDays(requested);
    } else if requested <= 45 {
      assert c in MINUTE_CANDIDATES;
      CleanMinutes(c);
    } else {
      assert c in [60, 120, 180, 240, 360, 480, 720];
      CleanHours(c);
    }
  }

  lemma CloseDays(requested: nat)
    requires 1080 < requested <= MAX_LOOP_MINUTES
    ensures IsClean(Close(requested)) && 3 * AbsDiff(Close(requested), requested) <= requested
  {
    assert Close(requested) == (requested + DAY / 2) / DAY * DAY;
    assert Close(requested) % DAY == 0;
  }

  /** Rounding to a clean cadence changes the request by at most a third. */
  lemma {:induction false} RoundingIsBounded(requested: nat)
    requires 0 < requested <= MAX_LOOP_MINUTES
    ensures 3 * AbsDiff(NearestCleanMinutes(requested), requested) <= requested
  {
    var c := Close(requested);
    CloseIsClean(requested);
    hide Close, IsClean, NearestCleanMinutes;
    NearestCleanIsNearest(requested, c);
  }

  /* ---------- cron text ---------- */

  /** The cron text of a cadence, and how it is shown. */
  function MinutesToCron(minutes: nat): (string, string) {
    if minutes < 60 then
      (if minutes == 1 then "* * * * *" else "*/" + Decimal(minutes) + " * * * *", Decimal(minutes) + "m")
    else if minutes < DAY then
      var hours := minutes / 60;
      (if hours == 1 then "0 * * * *" else "0 */" + Decimal(hours) + " * * *", Decimal(hours) + "h")
    else
      var days := minutes / DAY;
      (if days == 1 then "0 0 * * *" else "0 0 */" + Decimal(days) + " * *", Decimal(days) + "d")
  }

  /** A clean cadence is shown as a count and a unit that stand for just that cadence. */
  lemma ShownAsItIs(minutes: nat) returns (count: nat, unit: string)
    requires IsClean(minutes)
    ensures MinutesToCron(minutes).1 == Decimal(count) + unit && IntervalToMinutes(count, unit) == Some(minutes)
    ensures unit in ["m", "h", "d"]
  {
    hide Decimal, UnitSeconds, IntervalToMinutes;
    ShortNames();
    if minutes < 60 {
      count, unit := minutes, "m";
    } else if minutes < DAY {
      count, unit := minutes / 60, "h";
    } else {
      count, unit := minutes / DAY, "d";
    }
    IntervalRoundsUp(count, unit);
  }

  lemma ShortNames()
    ensures UnitSeconds("m") == Some(60) && UnitSeconds("h") == Some(3600) && UnitSeconds("d") == Some(86400)
  {
    UnitNames("m");
    UnitNames("h");
    UnitNames("d");
    hide UnitSeconds;
    assert SameButCase("m", "m") && SameButCase("h", "h") && SameButCase("d", "d");
  }
}
