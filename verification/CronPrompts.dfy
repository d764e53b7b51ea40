/** Model of the prompts that the scheduler composes (src/cron.rs): user text travels as
    escaped JSON inside a data element.
 */
module CronPrompts {
  import opened Wrappers
  import opened TextBasics

  const MAX_PROMPT_BYTES: nat := 64 * 1024
  const MAX_REASON_BYTES: nat := 1024
  const MAX_READY_BYTES: nat := 4 * 1024 * 1024
  const RESERVED_BYTES: nat := (MAX_PROMPT_BYTES + MAX_REASON_BYTES) * 6 + 8 * 1024
  /** What scheduled prompts may fill, so that a dynamic wakeup still fits. */
  const CRON_BYTES: nat := MAX_READY_BYTES - RESERVED_BYTES

  /** Replaces every occurrence of a character. */
  function Replace(s: string, c: char, with: string): string {
    if s == "" then "" else (if s[0] == c then with else [s[0]]) + Replace(s[1..], c, with)
  }

  /** JSON spelling of a text with markup delimiters spelled as escapes. */
  function EscapeForData(value: string): string {
    Replace(Replace(Replace(Quote(value), '&', "\\u0026"), '<', "\\u003c"), '>', "\\u003e")
  }

  const DATA_END: string := "</promptJson>\n</scheduled-task>"

  /** Fixed instructions of the program, of which only the length matters here. */
  function Wording(length: nat): (s: string)
    ensures |s| == length
  {
    seq(length, _ => '.')
  }

  function MissedHeader(id: string): string {
    "<scheduled-task event=\"missed-one-shot\" id=\"" + id + "\">\n" + Wording(230) + "\n<promptJson>"
  }

  function DueHeader(id: string, recurring: bool): string {
    "<scheduled-task event=\"due\" id=\"" + id + "\" recurring=\"" + (if recurring then "true" else "false")
    + "\">\n" + Wording(193) + "\n<promptJson>"
  }

  /** The prompt of a due task; one that was missed asks for confirmation first. */
  function ScheduledPrompt(id: string, prompt: string, recurring: bool, missed: bool): string {
    (if missed then MissedHeader(id) else DueHeader(id, recurring)) + EscapeForData(prompt) + DATA_END
  }

  lemma ScheduledPromptNotEmpty(id: string, prompt: string, recurring: bool, missed: bool)
    ensures ScheduledPrompt(id, prompt, recurring, missed) != ""
  {
    hide MissedHeader, DueHeader, EscapeForData;
    assert DATA_END != "";
  }

  function WakeupPrompt(id: string, reason: string, prompt: string): string {
    "<scheduled-task event=\"dynamic-wakeup\" id=\"" + id + "\">\n" + Wording(275) + "\n<reasonJson>"
    + EscapeForData(reason) + "</reasonJson>\n<promptJson>" + EscapeForData(prompt) + "</promptJson>\n</scheduled-task>"
  }

  /* ---------- the escaping, character by character ---------- */

  function DataEscapeChar(c: char): string {
    if c == '&' then "\\u0026" else if c == '<' then "\\u003c" else if c == '>' then "\\u003e" else EscapeChar(c)
  }

  function DataEscape(s: string): string {
    if s == "" then "" else DataEscapeChar(s[0]) + DataEscape(s[1..])
  }

  lemma {:induction false} ReplaceConcat(a: string, b: string, c: char, with: string)
    ensures Replace(a + b, c, with) == Replace(a, c, with) + Replace(b, c, with)
  {
    if a == "" {
      assert a + b == b;
    } else {
      assert (a + b)[1..] == a[1..] + b;
      ReplaceConcat(a[1..], b, c, with);
    }
  }

  lemma {:induction false} ReplaceNothing(s: string, c: char, with: string)
    requires c !in s
    ensures Replace(s, c, with) == s
  {
    if s != "" { ReplaceNothing(s[1..], c, with); }
  }

  /** The three replacements, one after another. */
  function ReplaceMarkup(s: string): string {
    Replace(Replace(Replace(s, '&', "\\u0026"), '<', "\\u003c"), '>', "\\u003e")
  }

  lemma {:induction false} MarkupConcat(a: string, b: string)
    ensures ReplaceMarkup(a + b) == ReplaceMarkup(a) + ReplaceMarkup(b)
  {
    hide Replace;
    ReplaceConcat(a, b, '&', "\\u0026");
    var a1, b1 := Replace(a, '&', "\\u0026"), Replace(b, '&', "\\u0026");
    ReplaceConcat(a1, b1, '<', "\\u003c");
    ReplaceConcat(Replace(a1, '<', "\\u003c"), Replace(b1, '<', "\\u003c"), '>', "\\u003e");
  }

  lemma MarkupFree(s: string)
    requires '&' !in s && '<' !in s && '>' !in s
    ensures ReplaceMarkup(s) == s
  {
    hide Replace;
    ReplaceNothing(s, '&', "\\u0026");
    ReplaceNothing(s, '<', "\\u003c");
    ReplaceNothing(s, '>', "\\u003e");
  }

  lemma {:induction false} MarkupOfChar(c: char)
    ensures ReplaceMarkup(EscapeChar(c)) == DataEscapeChar(c)
  {
    if c == '&' || c == '<' || c == '>' {
      MarkupOfDelimiter(c);
    } else {
      EscapeCharIsMarkupFree(c);
      MarkupFree(EscapeChar(c));
    }
  }

  lemma EscapeCharIsMarkupFree(c: char)
    requires c != '&' && c != '<' && c != '>'
    ensures '&' !in EscapeChar(c) && '<' !in EscapeChar(c) && '>' !in EscapeChar(c)
  {
    if c < ' ' {
      var digits := "0123456789abcdef";
      assert '&' !in digits && '<' !in digits && '>' !in digits;
    }
  }

  lemma {:induction false} MarkupOfDelimiter(c: char)
    requires c == '&' || c == '<' || c == '>'
    ensures ReplaceMarkup([c]) == DataEscapeChar(c) && EscapeChar(c) == [c]
  {
    hide Replace;
    ReplaceOne(c, '&', "\\u0026");
    ReplaceOne(c, '<', "\\u003c");
    ReplaceOne(c, '>', "\\u003e");
    ReplaceNothing("\\u0026", '<', "\\u003c");
    ReplaceNothing("\\u0026", '>', "\\u003e");
    ReplaceNothing("\\u003c", '>', "\\u003e");
  }

  lemma ReplaceOne(d: char, c: char, with: string)
    ensures Replace([d], c, with) == if d == c then with else [d]
  {
    assert [d][1..] == "";
    assert with + "" == with && [d] + "" == [d];
  }

  lemma {:induction false} MarkupOfEscape(s: string)
    ensures ReplaceMarkup(Escape(s)) == DataEscape(s)
  {
    hide ReplaceMarkup, EscapeChar, DataEscapeChar;
    if s == "" {
      MarkupFree("");
    } else {
      MarkupConcat(EscapeChar(s[0]), Escape(s[1..]));
      MarkupOfChar(s[0]);
      MarkupOfEscape(s[1..]);
    }
  }

  lemma {:induction false} EscapeForDataIs(value: string)
    ensures EscapeForData(value) == "\"" + DataEscape(value) + "\""
  {
    assert EscapeForData(value) == ReplaceMarkup(Quote(value));
    hide ReplaceMarkup, Escape, DataEscape;
    MarkupConcat("\"" + Escape(value), "\"");
    MarkupConcat("\"", Escape(value));
    MarkupFree("\"");
    MarkupOfEscape(value);
  }

  /* ---------- the payload stays inside its element and survives ---------- */

  lemma {:induction false} DataEscapeIsMarkupFree(s: string)
    ensures '&' !in DataEscape(s) && '<' !in DataEscape(s) && '>' !in DataEscape(s)
  {
    hide EscapeChar;
    if s != "" {
      DataEscapeIsMarkupFree(s[1..]);
      if s[0] != '&' && s[0] != '<' && s[0] != '>' { EscapeCharIsMarkupFree(s[0]); }
    }
  }

  lemma {:induction false} ParseDataEscapedChar(c: char, s: string)
    ensures ParseString(DataEscapeChar(c) + s) == Prepend(c, ParseString(s))
  {
    if c == '&' || c == '<' || c == '>' {
      ParseDelimiter(c, s);
    } else {
      ParseEscapedChar(c, s);
    }
  }

  lemma {:induction false} ParseDelimiter(c: char, s: string)
    requires c == '&' || c == '<' || c == '>'
    ensures ParseString(DataEscapeChar(c) + s) == Prepend(c, ParseString(s))
  {
    hide Prepend;
    var e := DataEscapeChar(c);
    var t := e + s;
    assert t[0] == '\\' && t[1] == 'u';
    assert t[2..][0] == '0' && t[2..][1] == '0' && t[2..][2] == e[4] && t[2..][3] == e[5];
    assert HexValue('0') == Some(0) && HexValue('2') == Some(2) && HexValue('3') == Some(3);
    assert HexValue('6') == Some(6) && HexValue('c') == Some(12) && HexValue('e') == Some(14);
    assert Hex4(t[2..]) == Some(c as int);
    assert t[6..] == s;
  }

  lemma {:induction false} ParseDataEscaped(s: string, rest: string)
    ensures ParseString(DataEscape(s) + "\"" + rest) == Some((s, rest))
  {
    hide DataEscapeChar;
    if s == "" {
      assert ("" + "\"" + rest)[1..] == rest;
    } else {
      ParseDataEscaped(s[1..], rest);
      var tail := DataEscape(s[1..]) + "\"" + rest;
      assert DataEscape(s) + "\"" + rest == DataEscapeChar(s[0]) + tail;
      ParseDataEscapedChar(s[0], tail);
      assert [s[0]] + s[1..] == s;
    }
  }

  /** The payload cannot close its element, and read as JSON it is the original text. */
  lemma {:induction false} PayloadIsSafeAndFaithful(value: string)
    ensures var p := EscapeForData(value);
            && '<' !in p && '>' !in p && '&' !in p
            && |p| >= 2 && p[0] == '\"' && ParseString(p[1..]) == Some((value, ""))
  {
    hide DataEscape, ParseString, EscapeForData;
    EscapeForDataIs(value);
    DataEscapeIsMarkupFree(value);
    ParseDataEscaped(value, "");
    assert ("\"" + DataEscape(value) + "\"")[1..] == DataEscape(value) + "\"" + "";
  }

  /** The prompt of a due task names the task, says whether it was missed, and carries its text,
      which PayloadIsSafeAndFaithful reads back, as the one thing in its data element. */
  lemma PromptCarriesText(id: string, prompt: string, recurring: bool, missed: bool) returns (before: string)
    ensures ScheduledPrompt(id, prompt, recurring, missed)
         == before + "<promptJson>" + EscapeForData(prompt) + "</promptJson>\n</scheduled-task>"
    ensures missed ==> "<scheduled-task event=\"missed-one-shot\" id=\"" + id + "\">" <= before
    ensures !missed ==> "<scheduled-task event=\"due\" id=\"" + id + "\" recurring=\"" + (if recurring then "true" else "false") + "\">" <= before
  {
    hide EscapeForData, MissedHeader, DueHeader;
    if missed {
      before := MissedHeaderIs(id);
    } else {
      before := DueHeaderIs(id, recurring);
    }
  }

  lemma MissedHeaderIs(id: string) returns (before: string)
    ensures MissedHeader(id) == before + "<promptJson>" && "<scheduled-task event=\"missed-one-shot\" id=\"" + id + "\">" <= before
  {
    before := "<scheduled-task event=\"missed-one-shot\" id=\"" + id + "\">" + ("\n" + Wording(230) + "\n");
  }

  lemma DueHeaderIs(id: string, recurring: bool) returns (before: string)
    ensures DueHeader(id, recurring) == before + "<promptJson>"
    ensures "<scheduled-task event=\"due\" id=\"" + id + "\" recurring=\"" + (if recurring then "true" else "false") + "\">" <= before
  {
    before := "<scheduled-task event=\"due\" id=\"" + id + "\" recurring=\"" + (if recurring then "true" else "false") + "\">"
              + ("\n" + Wording(193) + "\n");
  }

  /** The prompt of a wakeup carries its reason and its text in elements of their own. */
  lemma WakeupCarriesTexts(id: string, reason: string, prompt: string) returns (before: string)
    ensures WakeupPrompt(id, reason, prompt)
         == before + "<reasonJson>" + EscapeForData(reason) + "</reasonJson>\n<promptJson>" + EscapeForData(prompt)
            + "</promptJson>\n</scheduled-task>"
    ensures "<scheduled-task event=\"dynamic-wakeup\" id=\"" + id + "\">" <= before
  {
    hide EscapeForData;
    before := "<scheduled-task event=\"dynamic-wakeup\" id=\"" + id + "\">" + ("\n" + Wording(275) + "\n");
    assert "<scheduled-task event=\"dynamic-wakeup\" id=\"" + id + "\">\n" + Wording(275) + "\n<reasonJson>" == before + "<reasonJson>";
  }

  /* ---------- sizes ---------- */

  lemma {:induction false} ByteLenConcat(a: string, b: string)
    ensures ByteLen(a + b) == ByteLen(a) + ByteLen(b)
  {
    hide CharBytes;
    if a == "" {
      assert a + b == b;
    } else {
      assert (a + b)[1..] == a[1..] + b;
      ByteLenConcat(a[1..], b);
    }
  }

  lemma {:induction false} DataEscapeCharBytes(c: char)
    ensures ByteLen(DataEscapeChar(c)) <= 6 * CharBytes(c)
  {
    var e := DataEscapeChar(c);
    if e == [c] {
      assert e[1..] == "";
      assert ByteLen(e) == CharBytes(c) + ByteLen("");
    } else {
      assert |e| <= 6;
      EscapeCharIsAscii(c);
      AsciiByteLen(e);
    }
  }

  lemma EscapeCharIsAscii(c: char)
    requires DataEscapeChar(c) != [c]
    ensures forall i :: 0 <= i < |DataEscapeChar(c)| ==> DataEscapeChar(c)[i] < '\U{80}'
  {
    assert forall i :: 0 <= i < 16 ==> "0123456789abcdef"[i] < '\U{80}';
  }

  lemma {:induction false} DataEscapeBytes(s: string)
    ensures ByteLen(DataEscape(s)) <= 6 * ByteLen(s)
  {
    hide CharBytes, DataEscapeChar;
    if s != "" {
      ByteLenConcat(DataEscapeChar(s[0]), DataEscape(s[1..]));
      DataEscapeCharBytes(s[0]);
      DataEscapeBytes(s[1..]);
    }
  }

  lemma {:induction false} EscapeForDataBytes(value: string)
    ensures ByteLen(EscapeForData(value)) <= 6 * ByteLen(value) + 2
  {
    hide DataEscape, CharBytes, EscapeForData;
    EscapeForDataIs(value);
    DataEscapeBytes(value);
    ByteLenConcat("\"" + DataEscape(value), "\"");
    ByteLenConcat("\"", DataEscape(value));
    AsciiByteLen("\"");
  }

  lemma {:induction false} BytesOfFive(a: string, b: string, c: string, d: string, e: string)
    ensures ByteLen(a + b + c + d + e) == ByteLen(a) + ByteLen(b) + ByteLen(c) + ByteLen(d) + ByteLen(e)
  {
    hide ByteLen;
    ByteLenConcat(a, b);
    ByteLenConcat(a + b, c);
    ByteLenConcat(a + b + c, d);
    ByteLenConcat(a + b + c + d, e);
  }

  /** Every wakeup within the limits on prompt and reason fits the reserved space. */
  lemma {:induction false} WakeupFitsReservation(id: string, reason: string, prompt: string)
    requires |id| <= 8 && ByteLen(reason) <= MAX_REASON_BYTES && ByteLen(prompt) <= MAX_PROMPT_BYTES
    ensures ByteLen(WakeupPrompt(id, reason, prompt)) <= RESERVED_BYTES
  {
    hide ByteLen, EscapeForData;
    var a := "<scheduled-task event=\"dynamic-wakeup\" id=\"" + id + "\">\n" + Wording(275) + "\n<reasonJson>";
    var c, e := "</reasonJson>\n<promptJson>", "</promptJson>\n</scheduled-task>";
    BytesOfFive(a, EscapeForData(reason), c, EscapeForData(prompt), e);
    ByteLenBound(a);
    ByteLenBound(c);
    ByteLenBound(e);
    EscapeForDataBytes(reason);
    EscapeForDataBytes(prompt);
  }
}
