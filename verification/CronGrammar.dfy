/** The grammar of cron fields as a printer (src/cron.rs): of the printed lists the parser accepts
    exactly those whose items are in bounds, and reads back the values they stand for.
 */
module CronGrammar {
  import opened Wrappers
  import opened TextBasics
  import opened CronExpression

  /** An item of a field: all values, every so many of them, one, or a range of them. */
  datatype Item = Star | Every(step: nat) | One(n: nat) | Between(first: nat, last: nat) | BetweenEvery(first: nat, last: nat, step: nat)

  function Print(item: Item): string {
    match item
    case Star => "*"
    case Every(step) => "*/" + Decimal(step)
    case One(n) => Decimal(n)
    case Between(first, last) => Decimal(first) + "-" + Decimal(last)
    case BetweenEvery(first, last, step) => Decimal(first) + "-" + Decimal(last) + "/" + Decimal(step)
  }

  function PrintList(items: seq<Item>): string
    requires items != []
  {
    if |items| == 1 then Print(items[0]) else Print(items[0]) + "," + PrintList(items[1..])
  }

  /** The last value of a field; 7 is one more name for Sunday. */
  function Last(maximum: nat, sunday: bool): nat { maximum + if sunday then 1 else 0 }

  ghost predicate InBounds(item: Item, minimum: nat, maximum: nat, sunday: bool) {
    match item
    case Star => true
    case Every(step) => 0 < step <= U32_MAX
    case One(n) => n <= U32_MAX && minimum <= Normal(n, sunday) <= maximum
    case Between(first, last) => minimum <= first <= last <= Last(maximum, sunday) && last <= U32_MAX
    case BetweenEvery(first, last, step) =>
      minimum <= first <= last <= Last(maximum, sunday) && last <= U32_MAX && 0 < step <= U32_MAX
  }

  /** The values an item stands for. */
  ghost function Values(item: Item, minimum: nat, maximum: nat, sunday: bool): set<nat>
    requires InBounds(item, minimum, maximum, sunday)
  {
    match item
    case Star => Stepped(minimum, Last(maximum, sunday), 1, sunday)
    case Every(step) => Stepped(minimum, Last(maximum, sunday), step, sunday)
    case One(n) => {Normal(n, sunday)}
    case Between(first, last) => Stepped(first, last, 1, sunday)
    case BetweenEvery(first, last, step) => Stepped(first, last, step, sunday)
  }

  /* ---------- plain text ---------- */

  ghost predicate Lacks(s: string, c: char) {
    forall i :: 0 <= i < |s| ==> s[i] != c
  }

  lemma DecimalLacks(n: nat, c: char)
    requires !IsDigit(c)
    ensures Lacks(Decimal(n), c)
  {
    var d := Decimal(n);
    forall i | 0 <= i < |d| ensures d[i] != c { assert IsDigit(d[i]); }
  }

  lemma LacksSum(a: string, b: string, c: char)
    ensures Lacks(a + b, c) <==> Lacks(a, c) && Lacks(b, c)
  {
    assert forall i :: 0 <= i < |a| ==> (a + b)[i] == a[i];
    assert forall i :: 0 <= i < |b| ==> (a + b)[|a| + i] == b[i];
  }

  /** No item contains a comma. */
  lemma {:induction false} PrintLacksComma(item: Item)
    ensures Lacks(Print(item), ',')
  {
    hide Decimal, Lacks;
    LacksLiterals();
    match item {
      case Star =>
      case Every(step) =>
        DecimalLacks(step, ',');
        LacksSum("*/", Decimal(step), ',');
      case One(n) => DecimalLacks(n, ',');
      case Between(first, last) => RangeLacksComma(first, last);
      case BetweenEvery(first, last, step) =>
        RangeLacksComma(first, last);
        DecimalLacks(step, ',');
        LacksSum(Decimal(first) + "-" + Decimal(last), "/", ',');
        LacksSum(Decimal(first) + "-" + Decimal(last) + "/", Decimal(step), ',');
    }
  }

  lemma LacksLiterals()
    ensures Lacks("*", ',') && Lacks("*/", ',') && Lacks("-", ',') && Lacks("/", ',') && Lacks("-", '/') && Lacks("*", '/')
  {
  }

  lemma RangeLacksComma(first: nat, last: nat)
    ensures Lacks(Decimal(first) + "-" + Decimal(last), ',') && Lacks(Decimal(first) + "-" + Decimal(last), '/')
  {
    hide Decimal, Lacks;
    LacksLiterals();
    forall c | c == ',' || c == '/' ensures Lacks(Decimal(first) + "-" + Decimal(last), c) {
      DecimalLacks(first, c);
      DecimalLacks(last, c);
      LacksSum(Decimal(first), "-", c);
      LacksSum(Decimal(first) + "-", Decimal(last), c);
    }
  }

  lemma {:induction false} SplitOnceAt(a: string, c: char, b: string)
    requires Lacks(a, c)
    ensures SplitOnce(a + [c] + b, c) == Some((a, b))
  {
    var s := a + [c] + b;
    if a == "" {
      assert s[1..] == b;
    } else {
      assert s[1..] == a[1..] + [c] + b;
      SplitOnceAt(a[1..], c, b);
      assert [a[0]] + a[1..] == a;
    }
  }

  lemma {:induction false} NothingToCut(s: string, c: char)
    requires Lacks(s, c)
    ensures SplitOnce(s, c).None?
  {
    assert c !in s;
  }

  lemma {:induction false} SplitAt(a: string, c: char, b: string)
    requires Lacks(a, c)
    ensures Split(a + [c] + b, c) == [a] + Split(b, c)
  {
    var s := a + [c] + b;
    if a == "" {
      assert s[1..] == b;
    } else {
      assert s[1..] == a[1..] + [c] + b;
      SplitAt(a[1..], c, b);
      assert [a[0]] + a[1..] == a;
      assert ([a[1..]] + Split(b, c))[1..] == Split(b, c);
    }
  }

  lemma {:induction false} NothingToSplit(s: string, c: char)
    requires Lacks(s, c)
    ensures Split(s, c) == [s]
  {
    if s != "" {
      NothingToSplit(s[1..], c);
      assert [s[0]] + s[1..] == s;
    }
  }

  /* ---------- reading back ---------- */

  lemma ParsePrinted(n: nat)
    ensures ParseNumber(Decimal(n)) == if n <= U32_MAX then Some(n) else None
  {
    ParseDecimal(n);
  }

  lemma {:induction false} StepReadsBack(base: string, step: nat)
    requires base != "" && Lacks(base, '/')
    ensures BaseAndStep(base + "/" + Decimal(step)) == if 0 < step <= U32_MAX then Some((base, step)) else None
    ensures BaseAndStep(base) == Some((base, 1))
  {
    hide Decimal, ParseNumber;
    SplitOnceAt(base, '/', Decimal(step));
    NothingToCut(base, '/');
    ParsePrinted(step);
  }

  lemma {:induction false} RangeReadsBack(first: nat, last: nat, minimum: nat, maximum: nat, sunday: bool)
    ensures var base := Decimal(first) + "-" + Decimal(last);
            && '-' in base && base != "*"
            && RangeOf(base, minimum, maximum, sunday)
               == if first <= U32_MAX && last <= U32_MAX then Some((first, last)) else None
  {
    hide Decimal, ParseNumber;
    var base := Decimal(first) + "-" + Decimal(last);
    DecimalLacks(first, '-');
    SplitOnceAt(Decimal(first), '-', Decimal(last));
    ParsePrinted(first);
    ParsePrinted(last);
    assert base[|Decimal(first)|] == '-';
  }

  /** An item is read back if it is in bounds, and refused if it is not. */
  lemma {:induction false} ItemReadsBack(item: Item, minimum: nat, maximum: nat, sunday: bool)
    requires minimum <= maximum <= U32_MAX && (sunday ==> minimum == 0 && maximum == 6)
    ensures ItemValues(Print(item), minimum, maximum, sunday)
         == if InBounds(item, minimum, maximum, sunday) then Some(Values(item, minimum, maximum, sunday)) else None
  {
    hide Decimal, ParseNumber, Stepped, BaseAndStep, Lacks, RangeOf;
    LacksLiterals();
    StarIsRange(minimum, maximum, sunday);
    match item {
      case Star => StepReadsBack("*", 1);
      case Every(step) =>
        assert "*" + "/" + Decimal(step) == "*/" + Decimal(step);
        StepReadsBack("*", step);
      case One(n) =>
        DecimalLacks(n, '/');
        NumberIsNoRange(n);
        StepReadsBack(Decimal(n), 1);
        ParsePrinted(n);
      case Between(first, last) =>
        RangeLacksComma(first, last);
        RangeReadsBack(first, last, minimum, maximum, sunday);
        StepReadsBack(Decimal(first) + "-" + Decimal(last), 1);
      case BetweenEvery(first, last, step) =>
        RangeLacksComma(first, last);
        RangeReadsBack(first, last, minimum, maximum, sunday);
        StepReadsBack(Decimal(first) + "-" + Decimal(last), step);
    }
  }

  lemma StarIsRange(minimum: nat, maximum: nat, sunday: bool)
    ensures RangeOf("*", minimum, maximum, sunday) == Some((minimum, Last(maximum, sunday)))
  {
  }

  lemma NumberIsNoRange(n: nat)
    ensures '-' !in Decimal(n) && Decimal(n) != "*"
  {
    DecimalLacks(n, '-');
    DecimalLacks(n, '*');
    assert Decimal(n)[0] != '*';
  }

  ghost predicate AllInBounds(items: seq<Item>, minimum: nat, maximum: nat, sunday: bool) {
    forall i :: 0 <= i < |items| ==> InBounds(items[i], minimum, maximum, sunday)
  }

  ghost function AllValues(items: seq<Item>, minimum: nat, maximum: nat, sunday: bool): set<nat>
    requires AllInBounds(items, minimum, maximum, sunday)
  {
    if items == [] then {}
    else Values(items[0], minimum, maximum, sunday) + AllValues(items[1..], minimum, maximum, sunday)
  }

  /** A printed list is read back as the values of all its items, and refused if one is out of bounds. */
  lemma {:induction false} ListReadsBack(items: seq<Item>, minimum: nat, maximum: nat, sunday: bool)
    requires items != [] && minimum <= maximum <= U32_MAX && (sunday ==> minimum == 0 && maximum == 6)
    ensures ListValues(Split(PrintList(items), ','), minimum, maximum, sunday)
         == if AllInBounds(items, minimum, maximum, sunday) then Some(AllValues(items, minimum, maximum, sunday)) else None
    decreases |items|
  {
    hide ItemValues, Values, InBounds, Print, Split;
    var item := items[0];
    ItemReadsBack(item, minimum, maximum, sunday);
    PrintLacksComma(item);
    if |items| == 1 {
      NothingToSplit(Print(item), ',');
      assert [Print(item)][1..] == [] && items[1..] == [];
    } else {
      SplitAt(Print(item), ',', PrintList(items[1..]));
      ListReadsBack(items[1..], minimum, maximum, sunday);
      assert items == [item] + items[1..];
      assert ([Print(item)] + Split(PrintList(items[1..]), ','))[1..] == Split(PrintList(items[1..]), ',');
    }
  }
}
