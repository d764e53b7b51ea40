/** What the cron text of a /loop cadence means (src/commands.rs, src/cron.rs): read back by the
    scheduler it fires exactly at the multiples of the cadence, for cadences up to a day.
 */
module LoopSchedule {
  import opened Wrappers
  import opened TextBasics
  import opened CronExpression
  import opened CronGrammar
  import opened LoopCadence

  /** The fields that cadences use: all values, zero, or every so many. */
  ghost predicate IsCadenceItem(f: Item) {
    f.Star? || f == One(0) || (f.Every? && 2 <= f.step < 100)
  }

  function FiveFields(a: Item, b: Item, c: Item): string {
    Print(a) + " " + Print(b) + " " + Print(c) + " * *"
  }

  /** The fields of a cadence. */
  function SpellingOf(minutes: nat): (Item, Item, Item) {
    if minutes < 60 then (if minutes == 1 then Star else Every(minutes), Star, Star)
    else if minutes < DAY then (One(0), if minutes / 60 == 1 then Star else Every(minutes / 60), Star)
    else (One(0), One(0), if minutes / DAY == 1 then Star else Every(minutes / DAY))
  }

  lemma MinuteText(x: string)
    ensures x + " " + "*" + " " + "*" + " * *" == x + " * * * *"
  {
  }

  lemma HourText(x: string, d: string)
    ensures "0" + " " + x + " " + "*" + " * *" == "0 " + x + " * * *"
    ensures "0 " + ("*/" + d) + " * * *" == "0 */" + d + " * * *"
  {
  }

  lemma DayText(x: string, d: string)
    ensures "0" + " " + "0" + " " + x + " * *" == "0 0 " + x + " * *"
    ensures "0 0 " + ("*/" + d) + " * *" == "0 0 */" + d + " * *"
  {
  }

  lemma CronTextIsSpelled(minutes: nat)
    ensures var (a, b, c) := SpellingOf(minutes); MinutesToCron(minutes).0 == FiveFields(a, b, c)
  {
    hide Decimal;
    var (a, b, c) := SpellingOf(minutes);
    DecimalZero();
    if minutes < 60 {
      MinuteText(Print(a));
    } else if minutes < DAY {
      HourText(Print(b), Decimal(minutes / 60));
    } else {
      DayText(Print(c), Decimal(minutes / DAY));
    }
  }

  /* ---------- reading the text ---------- */

  ghost predicate IsWord(w: string) {
    w != "" && forall i :: 0 <= i < |w| ==> !IsWhitespace(w[i])
  }

  lemma {:induction false} WordEndOf(w: string, rest: string)
    requires (forall i :: 0 <= i < |w| ==> !IsWhitespace(w[i])) && (rest == "" || IsWhitespace(rest[0]))
    ensures WordEnd(w + rest) == |w|
  {
    if w == "" {
      assert w + rest == rest;
    } else {
      assert (w + rest)[1..] == w[1..] + rest;
      WordEndOf(w[1..], rest);
    }
  }

  lemma {:induction false} FirstWord(w: string, rest: string)
    requires IsWord(w)
    ensures Words(w + " " + rest) == [w] + Words(rest)
    ensures Words(w) == [w]
  {
    WordEndOf(w, " " + rest);
    var s := w + " " + rest;
    assert s == w + (" " + rest);
    assert s[..|w|] == w && s[|w|..] == " " + rest;
    assert (" " + rest)[1..] == rest;
    WordEndOf(w, "");
    assert w + "" == w && w[..|w|] == w && w[|w|..] == "";
  }

  lemma DecimalZero()
    ensures Decimal(0) == "0"
  {
  }

  lemma PrintIsWord(f: Item)
    requires IsCadenceItem(f)
    ensures IsWord(Print(f)) && forall i :: 0 <= i < |Print(f)| ==> Print(f)[i] != '\0' && Print(f)[i] < '\U{80}'
  {
    DecimalZero();
    if f.Every? {
      var d := Decimal(f.step);
      forall i | 0 <= i < |d| ensures !IsWhitespace(d[i]) && d[i] != '\0' && d[i] < '\U{80}' {
        assert IsDigit(d[i]);
      }
      assert Print(f) == ['*', '/'] + d;
    }
  }

  lemma {:induction false} WordsOfFive(a: Item, b: Item, c: Item)
    requires IsCadenceItem(a) && IsCadenceItem(b) && IsCadenceItem(c)
    ensures Words(FiveFields(a, b, c)) == [Print(a), Print(b), Print(c), "*", "*"]
  {
    hide Words, Print, IsWord;
    PrintIsWord(a);
    PrintIsWord(b);
    PrintIsWord(c);
    FiveWords(Print(a), Print(b), Print(c));
  }

  lemma {:induction false} FiveWords(x: string, y: string, z: string)
    requires IsWord(x) && IsWord(y) && IsWord(z)
    ensures Words(x + " " + y + " " + z + " * *") == [x, y, z, "*", "*"]
  {
    hide Words, IsWord;
    IsWordStar();
    Regroup(x, y, z);
    var last, rest2 := "*" + " " + "*", z + " " + ("*" + " " + "*");
    FirstWord("*", "*");
    FirstWord(z, last);
    FirstWord(y, rest2);
    FirstWord(x, y + " " + rest2);
  }

  lemma Regroup(x: string, y: string, z: string)
    ensures x + " " + y + " " + z + " * *" == x + " " + (y + " " + (z + " " + ("*" + " " + "*")))
  {
  }

  lemma IsWordStar()
    ensures IsWord("*")
  {
  }

  lemma SteppedMembers(minimum: nat, maximum: nat, step: nat)
    requires step > 0
    ensures forall v :: v in Stepped(minimum, maximum, step, false) <==> Within(v, minimum, maximum) && OnGrid(minimum, v, step)
    ensures step == 1 ==> Stepped(minimum, maximum, step, false) == FullRange(minimum, maximum)
  {
    hide OnGrid;
    forall v | Within(v, minimum, maximum) && OnGrid(minimum, v, step) ensures v in Stepped(minimum, maximum, step, false) {
      assert Normal(v, false) == v;
    }
    if step == 1 {
      forall v | Within(v, minimum, maximum) ensures OnGrid(minimum, v, 1) { GridOfOne(minimum, v); }
    }
  }

  lemma GridOfOne(start: nat, v: nat)
    ensures OnGrid(start, v, 1)
  {
  }

  /** A field of a cadence reads back as its values; only `*` covers the whole range. */
  lemma {:induction false} FieldReadsBack(f: Item, minimum: nat, maximum: nat)
    requires minimum < maximum <= U32_MAX && IsCadenceItem(f) && (f.One? ==> minimum == 0)
    ensures InBounds(f, minimum, maximum, false)
    ensures FieldOf(Print(f), minimum, maximum, false) == Some(Field(Values(f, minimum, maximum, false), f.Star?))
  {
    hide Print, Stepped, OnGrid, FullRange;
    var items := [f];
    assert items[1..] == [];
    ListReadsBack(items, minimum, maximum, false);
    var values := Values(f, minimum, maximum, false);
    assert AllInBounds(items, minimum, maximum, false);
    assert AllValues(items, minimum, maximum, false) == values + {} == values;
    OnlyStarIsFull(f, minimum, maximum);
  }

  lemma OnlyStarIsFull(f: Item, minimum: nat, maximum: nat)
    requires minimum < maximum && IsCadenceItem(f) && (f.One? ==> minimum == 0)
    ensures InBounds(f, minimum, maximum, false)
    ensures Values(f, minimum, maximum, false) == FullRange(minimum, maximum) <==> f.Star?
  {
    assert Within(minimum + 1, minimum, maximum);
    assert minimum + 1 in FullRange(minimum, maximum);
    SteppedMembers(minimum, maximum, 1);
    if f.Every? {
      SteppedMembers(minimum, maximum, f.step);
      RemainderOf(1, 0, f.step);
      assert !OnGrid(minimum, minimum + 1, f.step);
    }
  }

  /* ---------- the whole expression ---------- */

  /** What the text of a cadence reads back as. */
  ghost function CadenceFields(minutes: nat): CronFields
    requires IsClean(minutes)
  {
    SpellingInBounds(minutes);
    var (a, b, c) := SpellingOf(minutes);
    CronFields(Field(Values(a, 0, 59, false), a.Star?), Field(Values(b, 0, 23, false), b.Star?), Field(Values(c, 1, 31, false), c.Star?),
               Field(FullRange(1, 12), true), Field(FullRange(0, 6), true))
  }

  lemma {:induction false} StarWeekday()
    ensures FieldOf("*", 0, 6, true) == Some(Field(FullRange(0, 6), true))
  {
    hide OnGrid;
    ListReadsBack([Star], 0, 6, true);
    var values := Stepped(0, 7, 1, true);
    forall v: nat | v <= 6 ensures v in values {
      GridOfOne(0, v);
      assert Normal(v, true) == v;
    }
    assert forall v: nat :: Within(v, 0, 6) <==> v <= 6;
    assert values == FullRange(0, 6);
    assert [Star][1..] == [];
    assert values + {} == values;
  }

  lemma ShortDecimal(n: nat)
    requires n < 100
    ensures |Decimal(n)| <= 2
  {
    if n >= 10 { assert |Decimal(n / 10)| == 1; }
  }

  lemma {:induction false} TextIsAcceptable(a: Item, b: Item, c: Item)
    requires IsCadenceItem(a) && IsCadenceItem(b) && IsCadenceItem(c)
    ensures var s := FiveFields(a, b, c); !IsBlank(s) && ByteLen(s) <= MAX_CRON_EXPRESSION_BYTES && '\0' !in s
  {
    hide Decimal, IsWord, ByteLen, IsWhitespace;
    PrintIsShort(a);
    PrintIsShort(b);
    PrintIsShort(c);
    PrintIsWord(a);
    PrintIsWord(b);
    PrintIsWord(c);
    PrintStartsAWord(a);
    hide Print;
    FiveTextsAreAcceptable(Print(a), Print(b), Print(c));
  }

  lemma {:induction false} FiveTextsAreAcceptable(a: string, b: string, c: string)
    requires |a| <= 4 && |b| <= 4 && |c| <= 4 && a != "" && !IsWhitespace(a[0])
    requires forall i :: 0 <= i < |a| ==> a[i] != '\0' && a[i] < '\U{80}'
    requires forall i :: 0 <= i < |b| ==> b[i] != '\0' && b[i] < '\U{80}'
    requires forall i :: 0 <= i < |c| ==> c[i] != '\0' && c[i] < '\U{80}'
    ensures var s := a + " " + b + " " + c + " * *"; !IsBlank(s) && ByteLen(s) <= MAX_CRON_EXPRESSION_BYTES && '\0' !in s
  {
    hide IsWhitespace, ByteLen;
    var s := a + " " + b + " " + c + " * *";
    assert s[0] == a[0];
    AsciiByteLen(s);
  }

  lemma PrintIsShort(f: Item)
    requires IsCadenceItem(f)
    ensures |Print(f)| <= 4
  {
    DecimalZero();
    if f.Every? { ShortDecimal(f.step); }
  }

  lemma PrintStartsAWord(f: Item)
    requires IsCadenceItem(f)
    ensures Print(f) != "" && !IsWhitespace(Print(f)[0])
  {
    PrintIsWord(f);
  }

  lemma SpellingInBounds(minutes: nat)
    requires IsClean(minutes)
    ensures var (a, b, c) := SpellingOf(minutes);
            && IsCadenceItem(a) && IsCadenceItem(b) && IsCadenceItem(c) && !c.One?
            && InBounds(a, 0, 59, false) && InBounds(b, 0, 23, false) && InBounds(c, 1, 31, false)
  {
  }

  /** The printed text of every clean cadence is accepted by the parser. */
  lemma {:induction false} CadenceParses(minutes: nat)
    requires IsClean(minutes)
    ensures CronOf(MinutesToCron(minutes).0) == Some(CadenceFields(minutes))
  {
    hide FieldOf, Values, FullRange, Print, Words, ByteLen, IsBlank, MinutesToCron, FiveFields, SpellingOf, IsClean;
    var (a, b, c) := SpellingOf(minutes);
    CronTextIsSpelled(minutes);
    SpellingInBounds(minutes);
    TextIsAcceptable(a, b, c);
    WordsOfFive(a, b, c);
    FieldReadsBack(a, 0, 59);
    FieldReadsBack(b, 0, 23);
    FieldReadsBack(c, 1, 31);
    StarReadsBack();
    StarWeekday();
  }

  lemma StarReadsBack()
    ensures FieldOf("*", 1, 12, false) == Some(Field(FullRange(1, 12), true))
  {
    FieldReadsBack(Star, 1, 12);
  }

  /* ---------- when it fires ---------- */

  predicate ValidMoment(m: Moment) {
    m.minute < 60 && m.hour < 24 && 1 <= m.day <= 31 && 1 <= m.month <= 12 && m.weekday < 7
  }

  /** What the three fields of a cadence ask of a moment. */
  lemma {:induction false} CadenceMatches(minutes: nat, m: Moment)
    requires IsClean(minutes) && ValidMoment(m)
    ensures CronMatches(CadenceFields(minutes), m) <==>
            if minutes < 60 then m.minute % minutes == 0
            else if minutes < DAY then m.minute == 0 && m.hour % (minutes / 60) == 0
            else m.minute == 0 && m.hour == 0 && (m.day - 1) % (minutes / DAY) == 0
  {
    hide Stepped, FullRange, OnGrid, SpellingOf;
    SpellingInBounds(minutes);
    var (a, b, c) := SpellingOf(minutes);
    MonthMatches(m);
    ItemMatches(a, 0, 59, m.minute);
    ItemMatches(b, 0, 23, m.hour);
    ItemMatches(c, 1, 31, m.day);
    CadenceGrid(minutes, m);
  }

  lemma MonthMatches(m: Moment)
    requires ValidMoment(m)
    ensures m.month in FullRange(1, 12)
  {
    assert Within(m.month, 1, 12);
  }

  /** Whether a value within the range matches the field of a cadence. */
  ghost predicate Hits(f: Item, minimum: nat, v: nat) {
    match f
    case Star => true
    case Every(step) => step > 0 && OnGrid(minimum, v, step)
    case _ => v == 0
  }

  lemma {:induction false} ItemMatches(f: Item, minimum: nat, maximum: nat, v: nat)
    requires IsCadenceItem(f) && InBounds(f, minimum, maximum, false) && minimum <= v <= maximum
    ensures v in Values(f, minimum, maximum, false) <==> Hits(f, minimum, v)
  {
    hide Stepped, OnGrid;
    assert Within(v, minimum, maximum);
    SteppedMembers(minimum, maximum, if f.Every? then f.step else 1);
    GridOfOne(minimum, v);
  }

  lemma CadenceGrid(minutes: nat, m: Moment)
    requires IsClean(minutes) && ValidMoment(m)
    ensures var (a, b, c) := SpellingOf(minutes);
            Hits(a, 0, m.minute) && Hits(b, 0, m.hour) && Hits(c, 1, m.day) <==>
            if minutes < 60 then m.minute % minutes == 0
            else if minutes < DAY then m.minute == 0 && m.hour % (minutes / 60) == 0
            else m.minute == 0 && m.hour == 0 && (m.day - 1) % (minutes / DAY) == 0
  {
    OneDividesAll(m.minute);
    OneDividesAll(m.hour);
    OneDividesAll(m.day - 1);
  }

  lemma OneDividesAll(n: nat)
    ensures n % 1 == 0
  {
  }

  lemma {:induction false} AddedMultiple(q: int, n: nat, m: nat)
    requires m > 0
    ensures (q * m + n) % m == n % m
  {
    var k := n / m;
    assert n == k * m + n % m;
    assert (q + k) * m == q * m + k * m;
    RemainderOf(q * m + n, q + k, m);
  }

  /** For a cadence of at most a day, a moment matches exactly when the minutes since midnight
      are a multiple of the cadence. */
  lemma {:induction false} MatchesMultiples(minutes: nat, m: Moment)
    requires IsClean(minutes) && minutes <= DAY && ValidMoment(m)
    ensures CronMatches(CadenceFields(minutes), m) <==> (m.hour * 60 + m.minute) % minutes == 0
  {
    hide CronMatches, CadenceFields;
    CadenceMatches(minutes, m);
    if minutes < 60 {
      WithinTheHour(minutes, m.hour, m.minute);
    } else if minutes < DAY {
      WithinTheDay(minutes / 60, m.hour, m.minute);
    } else {
      RemainderOf(m.hour * 60 + m.minute, 0, DAY);
      OneDividesAll(m.day - 1);
    }
  }

  lemma {:induction false} WithinTheHour(minutes: nat, hour: nat, minute: nat)
    requires 0 < minutes && 60 % minutes == 0
    ensures (hour * 60 + minute) % minutes == minute % minutes
  {
    var k := 60 / minutes;
    assert 60 == k * minutes;
    assert hour * (k * minutes) == hour * k * minutes;
    AddedMultiple(hour * k, minute, minutes);
  }

  lemma {:induction false} WithinTheDay(hours: nat, hour: nat, minute: nat)
    requires 0 < hours && minute < 60
    ensures (hour * 60 + minute) % (hours * 60) == 0 <==> minute == 0 && hour % hours == 0
  {
    var q, r := hour / hours, hour % hours;
    assert hour == q * hours + r;
    assert q * (hours * 60) == q * hours * 60;
    RemainderOf(hour * 60 + minute, q, hours * 60);
  }

  /* ---------- on a uniform clock ---------- */

  datatype Date = Date(day: nat, month: nat, weekday: nat)

  type Calendar = int -> Date

  ghost predicate ValidCalendar(calendar: Calendar) {
    forall k :: 1 <= calendar(k).day <= 31 && 1 <= calendar(k).month <= 12 && calendar(k).weekday < 7
  }

  /** A clock on which every day has 24 hours of 60 minutes; the calendar is arbitrary. */
  function Uniform(calendar: Calendar): Clock {
    (t: int) =>
      var date := calendar(t / DAY);
      Moment(t % 60, t / 60 % 24, date.day, date.month, date.weekday)
  }

  lemma MinuteOfDay(t: int)
    ensures (t / 60 % 24) * 60 + t % 60 == t % DAY
  {
    var q := t / 60;
    var d := q / 24;
    assert t == q * 60 + t % 60 && q == d * 24 + q % 24;
    RemainderOf(t, d, DAY);
  }

  lemma DayIsMultiple(minutes: nat)
    requires IsClean(minutes) && minutes <= DAY
    ensures DAY == DAY / minutes * minutes
  {
    if minutes < 60 {
      var k := 60 / minutes;
      assert 60 == k * minutes;
      assert DAY == (24 * k) * minutes;
      RemainderOf(DAY, 24 * k, minutes);
    } else if minutes < DAY {
      var h := minutes / 60;
      var k := 24 / h;
      assert minutes == h * 60 && 24 == k * h;
      assert DAY == k * minutes;
      RemainderOf(DAY, k, minutes);
    }
  }

  /** In the text of every cadence up to a day, minute `t` of a uniform clock matches exactly
      when `t` is a multiple of the cadence, midnights and month ends included. */
  lemma {:induction false} FiresAtMultiples(minutes: nat, calendar: Calendar, t: int)
    requires IsClean(minutes) && minutes <= DAY && ValidCalendar(calendar)
    ensures CronOf(MinutesToCron(minutes).0).Some?
    ensures CronMatches(CronOf(MinutesToCron(minutes).0).value, Uniform(calendar)(t)) <==> t % minutes == 0
  {
    hide CronMatches, CronOf, MinutesToCron, CadenceFields, IsClean;
    CadenceParses(minutes);
    var m := Uniform(calendar)(t);
    MinuteOfDay(t);
    MatchesMultiples(minutes, m);
    DayIsMultiple(minutes);
    CleanIsPositive(minutes);
    var d, k := t / DAY, DAY / minutes;
    assert t == d * DAY + t % DAY;
    assert d * DAY == d * k * minutes by { assert d * (k * minutes) == d * k * minutes; }
    AddedMultiple(d * k, t % DAY, minutes);
  }

  lemma CleanIsPositive(minutes: nat)
    requires IsClean(minutes)
    ensures 0 < minutes <= MAX_LOOP_MINUTES
  {
  }

  /** The next run of such a cadence is its next multiple on the clock. */
  lemma {:induction false} NextRunIsNextMultiple(minutes: nat, calendar: Calendar, now: int)
    requires IsClean(minutes) && minutes <= DAY && ValidCalendar(calendar)
    ensures CronOf(MinutesToCron(minutes).0).Some?
    ensures var r := NextRunOf(CronOf(MinutesToCron(minutes).0).value, Uniform(calendar), now);
            r.Some? && r.value % (minutes * MINUTE_MS) == 0 && now < r.value <= now + minutes * MINUTE_MS
  {
    hide CronMatches, CronOf, MinutesToCron, IsClean, Uniform;
    FiresAtMultiples(minutes, calendar, 0);
    CleanIsPositive(minutes);
    var f, clock := CronOf(MinutesToCron(minutes).0).value, Uniform(calendar);
    var first := FirstMinute(now);
    var q := (first - 1) / minutes;
    var next := (q + 1) * minutes;
    assert first - 1 == q * minutes + (first - 1) % minutes;
    assert next == q * minutes + minutes;
    RemainderOf(next, q + 1, minutes);
    FiresAtMultiples(minutes, calendar, next);
    var v := FirstMatch(f, clock, first, first + HORIZON_MINUTES);
    assert first <= next <= first + HORIZON_MINUTES && CronMatches(f, clock(next));
    assert v.Some? && v.value <= next;
    FiresAtMultiples(minutes, calendar, v.value);
    MultipleInMs(v.value, minutes);
  }

  lemma {:induction false} MultipleInMs(v: int, minutes: nat)
    requires minutes > 0 && v % minutes == 0
    ensures (v * MINUTE_MS) % (minutes * MINUTE_MS) == 0
  {
    var q := v / minutes;
    assert v == q * minutes;
    assert v * MINUTE_MS == q * (minutes * MINUTE_MS);
    RemainderOf(v * MINUTE_MS, q, minutes * MINUTE_MS);
  }

  /* ---------- cadences of several days ---------- */

  /** Each firing is followed by the next one exactly a cadence later. */
  ghost predicate FiresEvenly(f: CronFields, clock: Clock, minutes: nat) {
    forall t :: CronMatches(f, clock(t)) ==>
                  CronMatches(f, clock(t + minutes)) && forall u :: t < u < t + minutes ==> !CronMatches(f, clock(u))
  }

  /** From day `start` on, a month of 31 days and the first day of the next. */
  ghost predicate LongMonth(calendar: Calendar, start: int) {
    && calendar(start + 31).day == 1
    && forall k :: start <= k < start + 31 ==> calendar(k).day == k - start + 1
  }

  /** The last firing in a month of 31 days comes too close to the first of the next month. */
  lemma {:induction false} MonthEndComesEarly(days: nat, calendar: Calendar, start: int)
    requires 2 <= days <= 30 && ValidCalendar(calendar) && LongMonth(calendar, start)
    ensures var f, clock, last := CadenceFields(days * DAY), Uniform(calendar), (start + 30 / days * days) * DAY;
            && CronMatches(f, clock(last)) && CronMatches(f, clock((start + 31) * DAY))
            && last < (start + 31) * DAY < last + days * DAY
  {
    hide CronMatches, CadenceFields, IsClean;
    LastOfMonth(days);
    var q := 30 / days;
    var day := start + q * days;
    Midnight(day);
    Midnight(start + 31);
    CadenceMatches(days * DAY, Uniform(calendar)(day * DAY));
    CadenceMatches(days * DAY, Uniform(calendar)((start + 31) * DAY));
  }

  /** The last multiple of the cadence up to 30 is less than one step away from 31. */
  lemma {:induction false} LastOfMonth(days: nat)
    requires 2 <= days <= 30
    ensures var q := 30 / days; 0 <= q * days <= 30 && q * days + days > 31 && q * days % days == 0
    ensures IsClean(days * DAY) && days * DAY / DAY == days && 0 % days == 0
  {
    var q := 30 / days;
    assert 30 == q * days + 30 % days;
    RemainderOf(q * days, q, days);
    RemainderOf(0, 0, days);
    NotThirtyOne(q + 1, days);
    assert (q + 1) * days == q * days + days;
    CleanNumberOfDays(days);
  }

  lemma CleanNumberOfDays(days: nat)
    requires 1 <= days <= 30
    ensures IsClean(days * DAY) && days * DAY / DAY == days
  {
  }

  lemma NotThirtyOne(q: int, days: nat)
    requires 2 <= days <= 30
    ensures q * days != 31
  {
    ThirtyOneIsPrime(days);
    if q * days == 31 {
      RemainderOf(31, q, days);
      assert false;
    }
  }

  lemma Midnight(day: int)
    ensures day * DAY / DAY == day && day * DAY % 60 == 0 && day * DAY / 60 % 24 == 0
  {
    assert day * DAY / 60 == day * 24;
  }

  lemma ThirtyOneIsPrime(m: nat)
    requires 2 <= m <= 30
    ensures 31 % m != 0
  {
    RemainderOf(31, Into31(m), m);
  }

  function Into31(m: nat): nat
    requires 2 <= m <= 30
  {
    if m > 15 then 1 else if m > 10 then 2 else if m > 7 then 3 else if m > 6 then 4 else if m > 5 then 5
    else if m > 4 then 6 else if m > 3 then 7 else if m > 2 then 10 else 15
  }

  lemma {:induction false} EvenUpToADay(minutes: nat, calendar: Calendar)
    requires IsClean(minutes) && minutes <= DAY && ValidCalendar(calendar)
    ensures FiresEvenly(CadenceFields(minutes), Uniform(calendar), minutes)
  {
    hide CronMatches, CronOf, MinutesToCron, CadenceFields, Uniform, ValidCalendar, IsClean;
    CadenceParses(minutes);
    CleanIsPositive(minutes);
    var f, clock := CadenceFields(minutes), Uniform(calendar);
    forall t | CronMatches(f, clock(t))
      ensures CronMatches(f, clock(t + minutes)) && forall u :: t < u < t + minutes ==> !CronMatches(f, clock(u))
    {
      FiresAtMultiples(minutes, calendar, t);
      var q := t / minutes;
      assert t == q * minutes && t + minutes == (q + 1) * minutes;
      RemainderOf(t + minutes, q + 1, minutes);
      FiresAtMultiples(minutes, calendar, t + minutes);
      forall u | t < u < t + minutes ensures !CronMatches(f, clock(u)) {
        RemainderOf(u, q, minutes);
        FiresAtMultiples(minutes, calendar, u);
      }
    }
  }

  /** Cadences fire evenly exactly up to a day: from two days on, the text counts the days of a
      month, and every long month breaks the rhythm. */
  lemma {:induction false} EvenExactlyUpToADay(minutes: nat, calendar: Calendar, start: int)
    requires IsClean(minutes) && ValidCalendar(calendar) && LongMonth(calendar, start)
    ensures CronOf(MinutesToCron(minutes).0).Some?
    ensures FiresEvenly(CronOf(MinutesToCron(minutes).0).value, Uniform(calendar), minutes) <==> minutes <= DAY
  {
    hide CronMatches, CronOf, MinutesToCron, CadenceFields, Uniform, LongMonth, ValidCalendar;
    CadenceParses(minutes);
    if minutes <= DAY {
      EvenUpToADay(minutes, calendar);
    } else {
      var f, clock, days := CadenceFields(minutes), Uniform(calendar), minutes / DAY;
      MonthEndComesEarly(days, calendar, start);
      var last := (start + 30 / days * days) * DAY;
      assert CronMatches(f, clock(last)) && last < (start + 31) * DAY < last + minutes;
    }
  }
}
