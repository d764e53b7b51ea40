/** Model of cron expressions (src/cron.rs): their grammar, the moments they match, and the
    search for the next one.
 */
module CronExpression {
  import opened Wrappers
  import opened TextBasics

  const MAX_CRON_EXPRESSION_BYTES: nat := 128
  const U32_MAX: nat := 0xFFFF_FFFF

  /** The values a field matches, and whether they are all there are. */
  datatype Field = Field(values: set<nat>, fullRange: bool)

  datatype CronFields = CronFields(minute: Field, hour: Field, dayOfMonth: Field, month: Field, dayOfWeek: Field)

  /* ---------- splitting text ---------- */

  /** The pieces of a text between occurrences of a character. */
  function Split(s: string, c: char): (r: seq<string>)
    ensures r != []
  {
    if s == "" then [""]
    else if s[0] == c then [""] + Split(s[1..], c)
    else
      var rest := Split(s[1..], c);
      [[s[0]] + rest[0]] + rest[1..]
  }

  /** The text before and after the first occurrence of a character. */
  function SplitOnce(s: string, c: char): (r: Option<(string, string)>)
    ensures r.None? <==> c !in s
    ensures r.Some? ==> s == r.value.0 + [c] + r.value.1 && c !in r.value.0
  {
    if s == "" then None
    else if s[0] == c then Some(("", s[1..]))
    else
      var rest := SplitOnce(s[1..], c);
      if rest.None? then None else Some(([s[0]] + rest.value.0, rest.value.1))
  }

  /** The first word of a text and what follows it. */
  function WordEnd(s: string): (n: nat)
    ensures n <= |s| && (forall i :: 0 <= i < n ==> !IsWhitespace(s[i])) && (n < |s| ==> IsWhitespace(s[n]))
  {
    if s == "" || IsWhitespace(s[0]) then 0 else 1 + WordEnd(s[1..])
  }

  /** The words of a text. */
  function Words(s: string): seq<string>
    decreases |s|
  {
    if s == "" then []
    else if IsWhitespace(s[0]) then Words(s[1..])
    else [s[..WordEnd(s)]] + Words(s[WordEnd(s)..])
  }

  /* ---------- numbers ---------- */

  predicate IsDigit(c: char) { '0' <= c <= '9' }

  function DigitsValue(s: string): nat
    requires forall i :: 0 <= i < |s| ==> IsDigit(s[i])
  {
    if s == "" then 0
    else
      assert IsDigit(s[|s| - 1]);
      DigitsValue(s[..|s| - 1]) * 10 + (s[|s| - 1] as int - '0' as int)
  }

  /** A number made of ASCII digits that fits 32 bits. */
  function ParseNumber(s: string): Option<nat> {
    if s == "" || (exists i :: 0 <= i < |s| && !IsDigit(s[i])) then None
    else if DigitsValue(s) > U32_MAX then None
    else Some(DigitsValue(s))
  }

  /** The decimal spelling of a number. */
  function Decimal(n: nat): (s: string)
    ensures s != "" && forall i :: 0 <= i < |s| ==> IsDigit(s[i])
  {
    var digit := [('0' as int + n % 10) as char];
    if n < 10 then digit else Decimal(n / 10) + digit
  }

  lemma {:induction false} ParseDecimal(n: nat)
    ensures DigitsValue(Decimal(n)) == n
    ensures n <= U32_MAX ==> ParseNumber(Decimal(n)) == Some(n)
  {
    var s := Decimal(n);
    if n < 10 {
      assert s[..|s| - 1] == "";
    } else {
      ParseDecimal(n / 10);
      assert s[..|s| - 1] == Decimal(n / 10);
    }
  }

  /** A text is read as a number exactly if it is that number's decimal spelling, after any zeros,
      and the number fits 32 bits. */
  lemma {:induction false} NumberIsDecimal(s: string, n: nat)
    ensures ParseNumber(s) == Some(n) <==> n <= 0xFFFF_FFFF && exists zeros :: s == Zeros(zeros) + Decimal(n)
  {
    if ParseNumber(s) == Some(n) {
      var zeros := LeadingZeros(s);
      assert s == Zeros(zeros) + Decimal(n);
    }
    forall zeros | s == Zeros(zeros) + Decimal(n)
      ensures DigitsValue(Decimal(n)) == n && s != "" && AllDigits(s) && DigitsValue(s) == n
    {
      ParseDecimal(n);
      ZerosDoNotCount(zeros, Decimal(n));
      DecimalIsDigits(n);
    }
  }

  ghost function Zeros(n: nat): string { seq(n, _ => '0') }

  ghost predicate AllDigits(s: string) { forall i :: 0 <= i < |s| ==> IsDigit(s[i]) }

  /** Decimal spellings use the digits from 0 to 9. */
  lemma {:induction false} DecimalIsDigits(n: nat)
    ensures forall i :: 0 <= i < |Decimal(n)| ==> Decimal(n)[i] in "0123456789"
  {
    if n >= 10 { DecimalIsDigits(n / 10); }
    DigitIsListed(n % 10);
  }

  lemma DigitIsListed(d: nat)
    requires d < 10
    ensures ('0' as int + d) as char in "0123456789"
  {
    assert "0123456789"[d] == ('0' as int + d) as char;
  }

  lemma {:induction false} ZerosDoNotCount(zeros: nat, s: string)
    requires AllDigits(s)
    ensures AllDigits(Zeros(zeros) + s) && DigitsValue(Zeros(zeros) + s) == DigitsValue(s)
  {
    var z := Zeros(zeros);
    if s == "" {
      assert z + s == z;
      ZerosAreZero(zeros);
    } else {
      var t := z + s;
      assert t[..|t| - 1] == z + s[..|s| - 1];
      ZerosDoNotCount(zeros, s[..|s| - 1]);
    }
  }

  lemma {:induction false} ZerosAreZero(zeros: nat)
    ensures DigitsValue(Zeros(zeros)) == 0
  {
    if zeros > 0 {
      assert Zeros(zeros)[..zeros - 1] == Zeros(zeros - 1);
      ZerosAreZero(zeros - 1);
    }
  }

  lemma {:induction false} LeadingZeros(s: string) returns (zeros: nat)
    requires s != "" && AllDigits(s)
    ensures s == Zeros(zeros) + Decimal(DigitsValue(s))
  {
    var front, d := s[..|s| - 1], s[|s| - 1] as int - '0' as int;
    assert IsDigit(s[|s| - 1]);
    if front == "" {
      zeros := 0;
      assert s == [('0' as int + d) as char];
    } else {
      var v := DigitsValue(front);
      zeros := LeadingZeros(front);
      assert (v * 10 + d) / 10 == v && (v * 10 + d) % 10 == d;
      if v == 0 {
        zeros := zeros + 1;
        assert s == front + [('0' as int + d) as char];
        assert Decimal(0) == "0";
      } else {
        assert s == front + [('0' as int + d) as char];
      }
    }
  }

  /* ---------- fields ---------- */

  /** Where a number stands in the field: 7 is Sunday again. */
  function Normal(v: nat, sunday: bool): nat { if sunday && v == 7 then 0 else v }

  predicate OnGrid(start: nat, v: nat, step: nat)
    requires step > 0
  {
    (v - start) % step == 0
  }

  /** The numbers start, start + step, ... up to end. */
  ghost function Stepped(start: nat, end: nat, step: nat, sunday: bool): set<nat>
    requires step > 0
  {
    set v | start <= v <= end && OnGrid(start, v, step) :: Normal(v, sunday)
  }

  /** A list item without its step, and the step; a missing step is 1. */
  function BaseAndStep(part: string): Option<(string, nat)> {
    var cut := SplitOnce(part, '/');
    if cut.None? then Some((part, 1))
    else if cut.value.0 == "" || cut.value.1 == "" then None
    else
      var step := ParseNumber(cut.value.1);
      if step.None? || step.value == 0 then None else Some((cut.value.0, step.value))
  }

  /** The range that an item's base stands for; absent for a single value or an error. */
  function RangeOf(base: string, minimum: nat, maximum: nat, sunday: bool): Option<(nat, nat)> {
    if base == "*" then Some((minimum, maximum + if sunday then 1 else 0))
    else
      var cut := SplitOnce(base, '-');
      if cut.None? then None
      else
        var start, end := ParseNumber(cut.value.0), ParseNumber(cut.value.1);
        if start.None? || end.None? then None else Some((start.value, end.value))
  }

  /** The values of one list item. */
  ghost function ItemValues(part: string, minimum: nat, maximum: nat, sunday: bool): Option<set<nat>> {
    var cut := BaseAndStep(part);
    if part == "" || cut.None? then None
    else
      var (base, step) := cut.value;
      var range := RangeOf(base, minimum, maximum, sunday);
      if base == "*" || '-' in base then
        if range.None? || range.value.0 < minimum || range.value.1 > maximum + (if sunday then 1 else 0)
           || range.value.0 > range.value.1 || step == 0
        then None
        else Some(Stepped(range.value.0, range.value.1, step, sunday))
      else
        var n := ParseNumber(base);
        if step != 1 || n.None? || !(minimum <= Normal(n.value, sunday) <= maximum) then None
        else Some({Normal(n.value, sunday)})
  }

  /** The values of a list of items: all of theirs, if every item is well formed. */
  ghost function ListValues(parts: seq<string>, minimum: nat, maximum: nat, sunday: bool): Option<set<nat>> {
    if parts == [] then Some({})
    else
      var first, rest := ItemValues(parts[0], minimum, maximum, sunday), ListValues(parts[1..], minimum, maximum, sunday);
      if first.None? || rest.None? then None else Some(first.value + rest.value)
  }

  predicate Within(v: nat, minimum: nat, maximum: nat) { minimum <= v <= maximum }

  ghost function FullRange(minimum: nat, maximum: nat): set<nat> {
    set v: nat | v <= maximum && Within(v, minimum, maximum)
  }

  /** The field a text stands for. */
  ghost function FieldOf(source: string, minimum: nat, maximum: nat, sunday: bool): Option<Field> {
    var values := ListValues(Split(source, ','), minimum, maximum, sunday);
    if values.None? then None else Some(Field(values.value, values.value == FullRange(minimum, maximum)))
  }

  /* ---------- what a field can be ---------- */

  lemma {:induction false} ItemValuesInRange(part: string, minimum: nat, maximum: nat, sunday: bool)
    requires minimum <= maximum && (sunday ==> minimum == 0 && maximum == 6)
    requires ItemValues(part, minimum, maximum, sunday).Some?
    ensures ItemValues(part, minimum, maximum, sunday).value <= FullRange(minimum, maximum)
    ensures ItemValues(part, minimum, maximum, sunday).value != {}
  {
    hide BaseAndStep, ParseNumber;
    var (base, step) := BaseAndStep(part).value;
    if base == "*" || '-' in base {
      var (start, end) := RangeOf(base, minimum, maximum, sunday).value;
      assert OnGrid(start, start, step);
      assert Normal(start, sunday) in Stepped(start, end, step, sunday);
    }
  }

  /** A field that parses has values, and all of them lie in its range. */
  lemma {:induction false} FieldValuesInRange(parts: seq<string>, minimum: nat, maximum: nat, sunday: bool)
    requires minimum <= maximum && (sunday ==> minimum == 0 && maximum == 6)
    requires ListValues(parts, minimum, maximum, sunday).Some?
    ensures ListValues(parts, minimum, maximum, sunday).value <= FullRange(minimum, maximum)
    ensures parts != [] ==> ListValues(parts, minimum, maximum, sunday).value != {}
  {
    hide ItemValues;
    if parts != [] {
      ItemValuesInRange(parts[0], minimum, maximum, sunday);
      FieldValuesInRange(parts[1..], minimum, maximum, sunday);
    }
  }

  lemma {:induction false} FullRangeSize(minimum: nat, maximum: nat)
    requires minimum <= maximum + 1
    ensures |FullRange(minimum, maximum)| == maximum - minimum + 1
    decreases maximum + 1 - minimum
  {
    if minimum <= maximum {
      FullRangeSize(minimum + 1, maximum);
      assert FullRange(minimum, maximum) == FullRange(minimum + 1, maximum) + {minimum};
    } else {
      assert FullRange(minimum, maximum) == {};
    }
  }

  lemma {:induction false} FullBySize(values: set<nat>, minimum: nat, maximum: nat)
    requires minimum <= maximum && values <= FullRange(minimum, maximum)
    ensures |values| == maximum - minimum + 1 <==> values == FullRange(minimum, maximum)
  {
    FullRangeSize(minimum, maximum);
    var rest := FullRange(minimum, maximum) - values;
    assert values + rest == FullRange(minimum, maximum);
    assert |values| + |rest| == |FullRange(minimum, maximum)|;
  }

  method StepThrough(start: nat, end: nat, step: nat, sunday: bool) returns (values: set<nat>)
    requires step > 0
    ensures values == Stepped(start, end, step, sunday)
  {
    hide OnGrid;
    values := {};
    var value := start;
    ghost var k := 0;
    while value <= end
      invariant start <= value && value == start + k * step
      invariant values == set v | start <= v < value && v <= end && OnGrid(start, v, step) :: Normal(v, sunday)
      decreases end + 1 - value
    {
      GridNeighbours(start, k, step);
      values := values + {Normal(value, sunday)};
      value := value + step;
      k := k + 1;
    }
  }

  /** Reads one item: `*`, a number, or a range, with a step after `*` and ranges. */
  method ParseItem(part: string, minimum: nat, maximum: nat, sunday: bool) returns (r: Option<set<nat>>)
    requires minimum <= maximum && (sunday ==> minimum == 0 && maximum == 6)
    ensures r == ItemValues(part, minimum, maximum, sunday)
  {
    if part == "" {
      return None;
    }
    var cut := BaseAndStep(part);
    if cut.None? {
      return None;
    }
    var (base, step) := cut.value;
    hide BaseAndStep, ParseNumber, SplitOnce, Stepped;
    StepIsPositive(part);
    var start, end;
    if base == "*" || '-' in base {
      var range := RangeOf(base, minimum, maximum, sunday);
      if range.None? {
        return None;
      }
      start, end := range.value.0, range.value.1;
    } else {
      if step != 1 {
        return None;
      }
      var n := ParseNumber(base);
      if n.None? || !(minimum <= Normal(n.value, sunday) <= maximum) {
        return None;
      }
      return Some({Normal(n.value, sunday)});
    }
    if start < minimum || end > maximum + (if sunday then 1 else 0) || start > end {
      return None;
    }
    var values := StepThrough(start, end, step, sunday);
    return Some(values);
  }

  lemma StepIsPositive(part: string)
    ensures BaseAndStep(part).Some? ==> BaseAndStep(part).value.1 > 0
  {
  }

  /** The grid runs from one point straight to the next. */
  lemma {:induction false} GridNeighbours(start: nat, k: nat, step: nat)
    requires step > 0
    ensures OnGrid(start, start + k * step, step) && start + (k + 1) * step == start + k * step + step
    ensures forall v :: start + k * step < v < start + k * step + step ==> !OnGrid(start, v, step)
  {
    RemainderOf(k * step, k, step);
    forall v | start + k * step < v < start + k * step + step ensures !OnGrid(start, v, step) {
      RemainderOf(v - start, k, step);
    }
  }

  lemma {:induction false} RemainderOf(n: int, q: int, step: nat)
    requires step > 0 && q * step <= n < q * step + step
    ensures n % step == n - q * step && n / step == q
  {
    var d := n / step;
    assert n == d * step + n % step;
    assert (d - q) * step == d * step - q * step == -((q - d) * step);
    if d > q {
      AtLeastOnce(d - q, step);
      assert false;
    } else if d < q {
      AtLeastOnce(q - d, step);
      assert false;
    }
  }

  lemma AtLeastOnce(k: int, step: nat)
    requires k >= 1
    ensures k * step >= step
  {
  }

  /** Reads one field of an expression. */
  method ParseField(source: string, minimum: nat, maximum: nat, sunday: bool) returns (r: Option<Field>)
    requires minimum <= maximum && (sunday ==> minimum == 0 && maximum == 6)
    ensures r == FieldOf(source, minimum, maximum, sunday)
  {
    hide ItemValues, Split, FullRange;
    var values: set<nat> := {};
    var parts := Split(source, ',');
    assert parts[0..] == parts;
    WithNothing(ListValues(parts, minimum, maximum, sunday));
    for i := 0 to |parts|
      invariant ListValues(parts, minimum, maximum, sunday)
                == WithValues(values, ListValues(parts[i..], minimum, maximum, sunday))
    {
      var item := ParseItem(parts[i], minimum, maximum, sunday);
      assert parts[i..][0] == parts[i] && parts[i..][1..] == parts[i + 1..];
      if item.None? {
        return None;
      }
      WithMoreValues(values, item.value, ListValues(parts[i + 1..], minimum, maximum, sunday));
      values := values + item.value;
    }
    assert values + {} == values;
    FieldValuesInRange(parts, minimum, maximum, sunday);
    FullBySize(values, minimum, maximum);
    return Some(Field(values, |values| == maximum - minimum + 1));
  }

  ghost function WithValues(values: set<nat>, rest: Option<set<nat>>): Option<set<nat>> {
    if rest.None? then None else Some(values + rest.value)
  }

  lemma WithNothing(rest: Option<set<nat>>)
    ensures WithValues({}, rest) == rest
  {
    if rest.Some? { assert {} + rest.value == rest.value; }
  }

  lemma WithMoreValues(a: set<nat>, b: set<nat>, rest: Option<set<nat>>)
    ensures WithValues(a, WithValues(b, rest)) == WithValues(a + b, rest)
  {
    if rest.Some? { assert a + (b + rest.value) == a + b + rest.value; }
  }

  /* ---------- expressions ---------- */

  ghost function CronOf(text: string): Option<CronFields> {
    var parts := Words(text);
    if IsBlank(text) || ByteLen(text) > MAX_CRON_EXPRESSION_BYTES || '\0' in text || |parts| != 5 then None
    else
      var minute, hour := FieldOf(parts[0], 0, 59, false), FieldOf(parts[1], 0, 23, false);
      var day, month, weekday := FieldOf(parts[2], 1, 31, false), FieldOf(parts[3], 1, 12, false), FieldOf(parts[4], 0, 6, true);
      if minute.None? || hour.None? || day.None? || month.None? || weekday.None? then None
      else Some(CronFields(minute.value, hour.value, day.value, month.value, weekday.value))
  }

  method ParseCronExpression(text: string) returns (r: Option<CronFields>)
    ensures r == CronOf(text)
  {
    hide FieldOf, Words, ByteLen;
    if IsBlank(text) || ByteLen(text) > MAX_CRON_EXPRESSION_BYTES || '\0' in text {
      return None;
    }
    var parts := Words(text);
    if |parts| != 5 {
      return None;
    }
    var minute := ParseField(parts[0], 0, 59, false);
    if minute.None? { return None; }
    var hour := ParseField(parts[1], 0, 23, false);
    if hour.None? { return None; }
    var day := ParseField(parts[2], 1, 31, false);
    if day.None? { return None; }
    var month := ParseField(parts[3], 1, 12, false);
    if month.None? { return None; }
    var weekday := ParseField(parts[4], 0, 6, true);
    if weekday.None? { return None; }
    return Some(CronFields(minute.value, hour.value, day.value, month.value, weekday.value));
  }

  /* ---------- matching ---------- */

  /** Local time at the start of a minute. */
  datatype Moment = Moment(minute: nat, hour: nat, day: nat, month: nat, weekday: nat)

  predicate CronMatches(f: CronFields, m: Moment) {
    if m.minute !in f.minute.values || m.hour !in f.hour.values || m.month !in f.month.values then false
    else
      var byDay, byWeekday := m.day in f.dayOfMonth.values, m.weekday in f.dayOfWeek.values;
      match (f.dayOfMonth.fullRange, f.dayOfWeek.fullRange)
      case (true, true) => true
      case (true, false) => byWeekday
      case (false, true) => byDay
      case (false, false) => byDay || byWeekday
  }

  /** Local time as a function of the minutes since the epoch. */
  type Clock = int -> Moment

  const MINUTE_MS: int := 60_000
  const HORIZON_MINUTES: int := 366 * 24 * 60

  /** The minute a search starts with: the first one that begins after `now`. */
  function FirstMinute(now: int): int { now / MINUTE_MS + 1 }

  /** The first matching minute from `from` up to `last`. */
  function FirstMatch(f: CronFields, clock: Clock, from: int, last: int): (r: Option<int>)
    ensures r.Some? ==> from <= r.value <= last && CronMatches(f, clock(r.value))
    ensures r.Some? ==> forall t :: from <= t < r.value ==> !CronMatches(f, clock(t))
    ensures r.None? ==> forall t :: from <= t <= last ==> !CronMatches(f, clock(t))
    decreases last + 1 - from
  {
    if from > last then None
    else if CronMatches(f, clock(from)) then Some(from)
    else FirstMatch(f, clock, from + 1, last)
  }

  /** The next time, in milliseconds, that an expression matches. */
  function NextRunOf(f: CronFields, clock: Clock, now: int): Option<int> {
    var r := FirstMatch(f, clock, FirstMinute(now), FirstMinute(now) + HORIZON_MINUTES);
    if r.None? then None else Some(r.value * MINUTE_MS)
  }

  /** Searches minute by minute, up to 366 days ahead. */
  method NextCronRun(f: CronFields, clock: Clock, now: int) returns (r: Option<int>)
    ensures r == NextRunOf(f, clock, now)
    ensures r.Some? ==> r.value > now && r.value % MINUTE_MS == 0 && CronMatches(f, clock(r.value / MINUTE_MS))
    ensures r.Some? ==> forall t :: now < t * MINUTE_MS < r.value ==> !CronMatches(f, clock(t))
    ensures r.None? ==> forall t :: now < t * MINUTE_MS && t <= FirstMinute(now) + HORIZON_MINUTES ==> !CronMatches(f, clock(t))
  {
    hide CronMatches;
    var first := FirstMinute(now);
    var last := first + HORIZON_MINUTES;
    var minute := first;
    while minute <= last
      invariant first <= minute <= last + 1
      invariant FirstMatch(f, clock, first, last) == FirstMatch(f, clock, minute, last)
    {
      if CronMatches(f, clock(minute)) {
        assert minute * MINUTE_MS / MINUTE_MS == minute;
        return Some(minute * MINUTE_MS);
      }
      minute := minute + 1;
    }
    return None;
  }
}
