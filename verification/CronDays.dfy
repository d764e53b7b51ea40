/** Which moments a cron expression matches (src/cron.rs), stated on the printed text: for each
    field by what the items of its list name, and for the two day fields by which of them leave
    something out.
 */
module CronDays {
  import opened Wrappers
  import opened TextBasics
  import opened CronExpression
  import opened CronGrammar

  /* ---------- what a printed list names ---------- */

  /** An item names a value of its field; on weekdays 7 is one more way to write 0. */
  ghost predicate Names(item: Item, v: nat, minimum: nat, maximum: nat, sunday: bool) {
    match item
    case Star => minimum <= v <= maximum
    case Every(step) =>
      step > 0 && minimum <= v <= maximum && ((v - minimum) % step == 0 || (sunday && v == 0 && 7 % step == 0))
    case One(n) => v == n || (sunday && v == 0 && n == 7)
    case Between(first, last) => first <= v <= last || (sunday && v == 0 && last == 7)
    case BetweenEvery(first, last, step) =>
      step > 0 && ((first <= v <= last && (v - first) % step == 0) || (sunday && v == 0 && first <= 7 <= last && (7 - first) % step == 0))
  }

  ghost predicate ListNames(items: seq<Item>, v: nat, minimum: nat, maximum: nat, sunday: bool) {
    exists i :: 0 <= i < |items| && Names(items[i], v, minimum, maximum, sunday)
  }

  /** The values of an item are those that it names. */
  lemma {:induction false} ValuesAreNamed(item: Item, v: nat, minimum: nat, maximum: nat, sunday: bool)
    requires (sunday ==> minimum == 0 && maximum == 6) && InBounds(item, minimum, maximum, sunday) && minimum <= v <= maximum
    ensures v in Values(item, minimum, maximum, sunday) <==> Names(item, v, minimum, maximum, sunday)
  {
    match item {
      case Star => SteppedNamed(minimum, Last(maximum, sunday), 1, v, minimum, maximum, sunday);
      case Every(step) => SteppedNamed(minimum, Last(maximum, sunday), step, v, minimum, maximum, sunday);
      case One(n) =>
      case Between(first, last) => SteppedNamed(first, last, 1, v, minimum, maximum, sunday);
      case BetweenEvery(first, last, step) => SteppedNamed(first, last, step, v, minimum, maximum, sunday);
    }
  }

  lemma {:induction false} SteppedNamed(first: nat, last: nat, step: nat, v: nat, minimum: nat, maximum: nat, sunday: bool)
    requires step > 0 && (sunday ==> minimum == 0 && maximum == 6) && minimum <= first <= last <= Last(maximum, sunday)
    requires minimum <= v <= maximum
    ensures v in Stepped(first, last, step, sunday) <==>
            (first <= v <= last && (v - first) % step == 0) || (sunday && v == 0 && first <= 7 <= last && (7 - first) % step == 0)
  {
    if first <= v <= last && (v - first) % step == 0 {
      assert OnGrid(first, v, step) && Normal(v, sunday) == v;
    }
    if sunday && v == 0 && first <= 7 <= last && (7 - first) % step == 0 {
      assert OnGrid(first, 7, step) && Normal(7, sunday) == 0;
    }
  }

  lemma {:induction false} AllValuesAreNamed(items: seq<Item>, v: nat, minimum: nat, maximum: nat, sunday: bool)
    requires (sunday ==> minimum == 0 && maximum == 6) && AllInBounds(items, minimum, maximum, sunday) && minimum <= v <= maximum
    ensures v in AllValues(items, minimum, maximum, sunday) <==> ListNames(items, v, minimum, maximum, sunday)
  {
    hide Values, Names, InBounds;
    if items != [] {
      ValuesAreNamed(items[0], v, minimum, maximum, sunday);
      AllValuesAreNamed(items[1..], v, minimum, maximum, sunday);
      if ListNames(items, v, minimum, maximum, sunday) {
        var i :| 0 <= i < |items| && Names(items[i], v, minimum, maximum, sunday);
        if i > 0 { assert items[1..][i - 1] == items[i]; }
      }
    }
  }

  /* ---------- printed expressions ---------- */

  /** The items of the five fields. */
  datatype Lists = Lists(minute: seq<Item>, hour: seq<Item>, day: seq<Item>, month: seq<Item>, weekday: seq<Item>)

  ghost predicate Printable(l: Lists) {
    && l.minute != [] && l.hour != [] && l.day != [] && l.month != [] && l.weekday != []
    && AllInBounds(l.minute, 0, 59, false) && AllInBounds(l.hour, 0, 23, false) && AllInBounds(l.day, 1, 31, false)
    && AllInBounds(l.month, 1, 12, false) && AllInBounds(l.weekday, 0, 6, true)
  }

  function PrintCron(l: Lists): string
    requires l.minute != [] && l.hour != [] && l.day != [] && l.month != [] && l.weekday != []
  {
    PrintList(l.minute) + " " + (PrintList(l.hour) + " " + (PrintList(l.day) + " " + (PrintList(l.month) + " " + PrintList(l.weekday))))
  }

  /** Digits and the marks of the grammar. */
  predicate IsPlain(c: char) { '0' <= c <= '9' || c == '*' || c == '-' || c == '/' || c == ',' }

  ghost predicate Plain(s: string) { forall i :: 0 <= i < |s| ==> IsPlain(s[i]) }

  lemma PlainSum(a: string, b: string)
    ensures Plain(a + b) <==> Plain(a) && Plain(b)
  {
    assert forall i :: 0 <= i < |a| ==> (a + b)[i] == a[i];
    assert forall i :: 0 <= i < |b| ==> (a + b)[|a| + i] == b[i];
  }

  lemma DecimalIsPlain(n: nat)
    ensures Plain(Decimal(n))
  {
    var d := Decimal(n);
    forall i | 0 <= i < |d| ensures IsPlain(d[i]) { assert IsDigit(d[i]); }
  }

  lemma {:induction false} PrintIsPlain(item: Item)
    ensures Plain(Print(item)) && Print(item) != ""
  {
    hide Decimal, Plain;
    MarksArePlain();
    match item {
      case Star =>
      case Every(step) =>
        DecimalIsPlain(step);
        PlainSum("*/", Decimal(step));
      case One(n) => DecimalIsPlain(n);
      case Between(first, last) => RangeIsPlain(first, last);
      case BetweenEvery(first, last, step) =>
        RangeIsPlain(first, last);
        DecimalIsPlain(step);
        PlainSum(Decimal(first) + "-" + Decimal(last), "/");
        PlainSum(Decimal(first) + "-" + Decimal(last) + "/", Decimal(step));
    }
  }

  lemma MarksArePlain()
    ensures Plain("*") && Plain("*/") && Plain("-") && Plain("/") && Plain(",")
  {
  }

  lemma RangeIsPlain(first: nat, last: nat)
    ensures Plain(Decimal(first) + "-" + Decimal(last))
  {
    hide Decimal, Plain;
    MarksArePlain();
    DecimalIsPlain(first);
    DecimalIsPlain(last);
    PlainSum(Decimal(first), "-");
    PlainSum(Decimal(first) + "-", Decimal(last));
  }

  lemma {:induction false} ListIsPlain(items: seq<Item>)
    requires items != []
    ensures Plain(PrintList(items)) && PrintList(items) != ""
    decreases |items|
  {
    hide Print, Plain;
    MarksArePlain();
    PrintIsPlain(items[0]);
    if |items| > 1 {
      ListIsPlain(items[1..]);
      PlainSum(Print(items[0]), ",");
      PlainSum(Print(items[0]) + ",", PrintList(items[1..]));
    }
  }

  lemma {:induction false} WordAt(a: string, rest: string)
    requires Plain(a) && a != ""
    ensures Words(a) == [a] && Words(a + " " + rest) == [a] + Words(rest)
  {
    hide IsPlain;
    PlainHasNoSpace(a);
    var s := a + " " + rest;
    assert s[..|a|] == a && s[|a|..] == " " + rest && (" " + rest)[1..] == rest;
    assert WordEnd(a) == |a| && a[..|a|] == a && a[|a|..] == "";
    assert s[0] == a[0];
    WordEndIs(s, |a|);
  }

  lemma PlainHasNoSpace(a: string)
    requires Plain(a)
    ensures forall i :: 0 <= i < |a| ==> !IsWhitespace(a[i]) && a[i] != '\0' && a[i] < '\U{80}'
  {
  }

  lemma WordEndIs(s: string, n: nat)
    requires n < |s| && IsWhitespace(s[n]) && forall i :: 0 <= i < n ==> !IsWhitespace(s[i])
    ensures WordEnd(s) == n
  {
  }

  lemma {:induction false} PrintedWords(l: Lists)
    requires l.minute != [] && l.hour != [] && l.day != [] && l.month != [] && l.weekday != []
    ensures Words(PrintCron(l)) == [PrintList(l.minute), PrintList(l.hour), PrintList(l.day), PrintList(l.month), PrintList(l.weekday)]
  {
    hide Words, PrintList, Plain;
    ListIsPlain(l.minute);
    ListIsPlain(l.hour);
    ListIsPlain(l.day);
    ListIsPlain(l.month);
    ListIsPlain(l.weekday);
    var e := PrintList(l.month) + " " + PrintList(l.weekday);
    var d := PrintList(l.day) + " " + e;
    var c := PrintList(l.hour) + " " + d;
    WordAt(PrintList(l.weekday), "");
    WordAt(PrintList(l.month), PrintList(l.weekday));
    WordAt(PrintList(l.day), e);
    WordAt(PrintList(l.hour), d);
    WordAt(PrintList(l.minute), c);
  }

  /** A printed text is made of printable ASCII characters and begins with one that is no space. */
  lemma {:induction false} PrintedIsAscii(l: Lists)
    requires l.minute != [] && l.hour != [] && l.day != [] && l.month != [] && l.weekday != []
    ensures !IsBlank(PrintCron(l)) && '\0' !in PrintCron(l) && ByteLen(PrintCron(l)) == |PrintCron(l)|
  {
    hide PrintList, Plain, ByteLen;
    var s := PrintCron(l);
    ListIsAscii(l.minute);
    ListIsAscii(l.hour);
    ListIsAscii(l.day);
    ListIsAscii(l.month);
    ListIsAscii(l.weekday);
    assert !IsWhitespace(s[0]) by { assert s[0] == PrintList(l.minute)[0]; }
    forall i | 0 <= i < |s| ensures s[i] < '\U{80}' && s[i] != '\0' {
      assert s[i] in PrintList(l.minute) || s[i] in PrintList(l.hour) || s[i] in PrintList(l.day) || s[i] in PrintList(l.month)
             || s[i] in PrintList(l.weekday) || s[i] == ' ';
    }
    AsciiByteLen(s);
  }

  lemma ListIsAscii(items: seq<Item>)
    requires items != []
    ensures PrintList(items) != "" && forall c :: c in PrintList(items) ==> !IsWhitespace(c) && c != '\0' && c < '\U{80}'
  {
    hide PrintList;
    ListIsPlain(items);
    PlainHasNoSpace(PrintList(items));
  }

  /** Every value of a field is named. */
  ghost predicate NamesAll(items: seq<Item>, minimum: nat, maximum: nat, sunday: bool) {
    forall v: nat :: minimum <= v <= maximum ==> ListNames(items, v, minimum, maximum, sunday)
  }

  /** What a printed field is read as. */
  ghost predicate IsField(f: Field, items: seq<Item>, minimum: nat, maximum: nat, sunday: bool) {
    && (forall v: nat :: minimum <= v <= maximum ==> (v in f.values <==> ListNames(items, v, minimum, maximum, sunday)))
    && (f.fullRange <==> NamesAll(items, minimum, maximum, sunday))
  }

  lemma {:induction false} FieldReadsBack(items: seq<Item>, minimum: nat, maximum: nat, sunday: bool)
    requires items != [] && minimum <= maximum <= U32_MAX && (sunday ==> minimum == 0 && maximum == 6)
    requires AllInBounds(items, minimum, maximum, sunday)
    ensures FieldOf(PrintList(items), minimum, maximum, sunday).Some?
    ensures IsField(FieldOf(PrintList(items), minimum, maximum, sunday).value, items, minimum, maximum, sunday)
  {
    hide AllInBounds, AllValues, ListNames, PrintList, Split, ListValues;
    ListReadsBack(items, minimum, maximum, sunday);
    FieldValuesInRange(Split(PrintList(items), ','), minimum, maximum, sunday);
    var values := AllValues(items, minimum, maximum, sunday);
    forall v: nat | minimum <= v <= maximum ensures v in values <==> ListNames(items, v, minimum, maximum, sunday) {
      AllValuesAreNamed(items, v, minimum, maximum, sunday);
    }
    if NamesAll(items, minimum, maximum, sunday) {
      assert values == FullRange(minimum, maximum);
    }
  }

  /** A printed expression is accepted if it is short enough, and each field is read as what its
      items name. */
  lemma {:induction false} ExpressionReadsBack(l: Lists)
    requires Printable(l)
    ensures CronOf(PrintCron(l)).Some? <==> |PrintCron(l)| <= MAX_CRON_EXPRESSION_BYTES
    ensures CronOf(PrintCron(l)).Some? ==>
              var f := CronOf(PrintCron(l)).value;
              && IsField(f.minute, l.minute, 0, 59, false) && IsField(f.hour, l.hour, 0, 23, false)
              && IsField(f.dayOfMonth, l.day, 1, 31, false) && IsField(f.month, l.month, 1, 12, false)
              && IsField(f.dayOfWeek, l.weekday, 0, 6, true)
  {
    hide PrintList, FieldOf, IsField, AllInBounds, Words, ByteLen, PrintCron;
    PrintedWords(l);
    PrintedIsAscii(l);
    FieldReadsBack(l.minute, 0, 59, false);
    FieldReadsBack(l.hour, 0, 23, false);
    FieldReadsBack(l.day, 1, 31, false);
    FieldReadsBack(l.month, 1, 12, false);
    FieldReadsBack(l.weekday, 0, 6, true);
  }

  /* ---------- the moments a printed expression matches ---------- */

  ghost predicate OnTheCalendar(m: Moment) {
    m.minute <= 59 && m.hour <= 23 && 1 <= m.day <= 31 && 1 <= m.month <= 12 && m.weekday <= 6
  }

  /** Minute, hour and month are named. */
  ghost predicate TimeNamed(l: Lists, m: Moment) {
    && ListNames(l.minute, m.minute, 0, 59, false) && ListNames(l.hour, m.hour, 0, 23, false)
    && ListNames(l.month, m.month, 1, 12, false)
  }

  ghost predicate DayNamed(l: Lists, m: Moment) { ListNames(l.day, m.day, 1, 31, false) }

  ghost predicate WeekdayNamed(l: Lists, m: Moment) { ListNames(l.weekday, m.weekday, 0, 6, true) }

  ghost predicate EveryDay(l: Lists) { NamesAll(l.day, 1, 31, false) }

  ghost predicate EveryWeekday(l: Lists) { NamesAll(l.weekday, 0, 6, true) }

  /** A printed expression and a moment: with a day field that leaves nothing out, the other one
      decides; if both leave something out, either of them is enough. */
  lemma {:induction false} MatchesWhatIsNamed(l: Lists, m: Moment)
    requires Printable(l) && |PrintCron(l)| <= MAX_CRON_EXPRESSION_BYTES && OnTheCalendar(m)
    ensures CronOf(PrintCron(l)).Some?
    ensures var matches := CronMatches(CronOf(PrintCron(l)).value, m);
            && (matches ==> TimeNamed(l, m))
            && (EveryDay(l) && EveryWeekday(l) ==> (matches <==> TimeNamed(l, m)))
            && (EveryDay(l) && !EveryWeekday(l) ==> (matches <==> TimeNamed(l, m) && WeekdayNamed(l, m)))
            && (!EveryDay(l) && EveryWeekday(l) ==> (matches <==> TimeNamed(l, m) && DayNamed(l, m)))
            && (!EveryDay(l) && !EveryWeekday(l) ==> (matches <==> TimeNamed(l, m) && (DayNamed(l, m) || WeekdayNamed(l, m))))
  {
    hide CronOf, PrintCron, Printable, ListNames, NamesAll;
    ExpressionReadsBack(l);
  }

  lemma {:induction false} StarNamesAll(minimum: nat, maximum: nat, sunday: bool)
    ensures NamesAll([Star], minimum, maximum, sunday) && AllInBounds([Star], minimum, maximum, sunday)
  {
    forall v: nat | minimum <= v <= maximum ensures ListNames([Star], v, minimum, maximum, sunday) {
      assert Names([Star][0], v, minimum, maximum, sunday);
    }
  }

  lemma StarIsShort(items: seq<Item>)
    requires items != []
    ensures |PrintList([Star])| == 1 <= |PrintList(items)|
  {
    hide Print;
    ListIsPlain(items);
    assert Print(Star) == "*" by { StarIs(); }
  }

  lemma StarIs()
    ensures Print(Star) == "*"
  {
  }

  /** With both day fields restricted, an expression matches exactly when the one with any weekday
      or the one with any day of the month does. */
  lemma {:induction false} EitherDayIsEnough(l: Lists, m: Moment)
    requires Printable(l) && |PrintCron(l)| <= MAX_CRON_EXPRESSION_BYTES && OnTheCalendar(m) && !EveryDay(l) && !EveryWeekday(l)
    ensures var anyWeekday, anyDay := CronOf(PrintCron(l.(weekday := [Star]))), CronOf(PrintCron(l.(day := [Star])));
            && CronOf(PrintCron(l)).Some? && anyWeekday.Some? && anyDay.Some?
            && (CronMatches(CronOf(PrintCron(l)).value, m) <==> CronMatches(anyWeekday.value, m) || CronMatches(anyDay.value, m))
  {
    hide CronOf, CronMatches, PrintList, AllInBounds, ListNames, NamesAll;
    StarNamesAll(0, 6, true);
    StarNamesAll(1, 31, false);
    StarIsShort(l.weekday);
    StarIsShort(l.day);
    MatchesWhatIsNamed(l, m);
    MatchesWhatIsNamed(l.(weekday := [Star]), m);
    MatchesWhatIsNamed(l.(day := [Star]), m);
  }

  /** The next run of an expression for any day of the month and some weekdays is on one of those;
      that of one for any weekday and some days of the month is on one of those. */
  lemma {:induction false} NextRunIsOnANamedDay(l: Lists, clock: Clock, now: int)
    requires Printable(l) && |PrintCron(l)| <= MAX_CRON_EXPRESSION_BYTES && forall t :: OnTheCalendar(clock(t))
    ensures CronOf(PrintCron(l)).Some?
    ensures var r := NextRunOf(CronOf(PrintCron(l)).value, clock, now);
            r.Some? ==>
              var m := clock(r.value / 60_000);
              && r.value > now && r.value % 60_000 == 0 && TimeNamed(l, m)
              && (EveryDay(l) && !EveryWeekday(l) ==> WeekdayNamed(l, m))
              && (!EveryDay(l) && EveryWeekday(l) ==> DayNamed(l, m))
              && (!EveryDay(l) && !EveryWeekday(l) ==> DayNamed(l, m) || WeekdayNamed(l, m))
  {
    hide CronOf, CronMatches, PrintCron, AllInBounds, ListNames, NamesAll;
    MatchesWhatIsNamed(l, clock(0));
    var f := CronOf(PrintCron(l)).value;
    var r := NextRunOf(f, clock, now);
    if r.Some? {
      NextRunMatches(f, clock, now);
      MatchesWhatIsNamed(l, clock(r.value / 60_000));
    }
  }

  lemma NextRunMatches(f: CronFields, clock: Clock, now: int)
    requires NextRunOf(f, clock, now).Some?
    ensures var r := NextRunOf(f, clock, now).value; r > now && r % 60_000 == 0 && CronMatches(f, clock(r / 60_000))
  {
    hide CronMatches;
    var r := FirstMatch(f, clock, FirstMinute(now), FirstMinute(now) + HORIZON_MINUTES).value;
    assert r * MINUTE_MS / MINUTE_MS == r;
  }
}
