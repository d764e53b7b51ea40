/** The memory file round trip: exactly when parsing a rendered file gives the entries
    back, and what it gives otherwise.
 */
module MemoryRoundTrip {
  import opened Wrappers
  import opened TextBasics
  import opened MemoryCodec

  /* ---------- searching across separators ---------- */

  /** A marker that begins with its only `<`, spelled alike inside and outside JSON. */
  ghost predicate PlainMarker(m: string) {
    && |m| > 11 && m[0] == '<'
    && forall i :: 0 <= i < |m| ==> Plain(m[i])
  }

  /** A character that JSON does not escape and that separates nothing in the file. */
  predicate Plain(c: char) {
    c >= ' ' && c != '\"' && c != '\\' && c != '[' && c != ']' && c != ':'
  }

  lemma MarkersArePlain()
    ensures PlainMarker(ENTRY_START) && PlainMarker(ENTRY_END)
    ensures |ENTRY_START| == 21 && |ENTRY_END| == 22
  {
  }

  lemma PrefixAcross(a: string, c: char, b: string, m: string)
    requires c !in m
    ensures m <= a + [c] + b <==> m <= a
  {
    var s := a + [c] + b;
    assert s[|a|] == c && s[..|a|] == a;
  }

  /** An occurrence cannot run over a character that is not in the marker. */
  lemma {:induction false} FindAcross(a: string, c: char, b: string, m: string)
    requires m != "" && c !in m
    ensures Find(a + [c] + b, m) == if Find(a, m).Some? then Find(a, m)
                                    else if Find(b, m).Some? then Some(|a| + 1 + Find(b, m).value)
                                    else None
  {
    var s := a + [c] + b;
    PrefixAcross(a, c, b, m);
    if a == "" {
      assert s[1..] == b;
    } else {
      assert s[1..] == a[1..] + [c] + b;
      FindAcross(a[1..], c, b, m);
    }
  }

  /** Characters other than the first one of the marker are skipped. */
  lemma {:induction false} FindAfter(p: string, s: string, m: string)
    requires m != "" && m[0] !in p
    ensures Find(p + s, m) == if Find(s, m).Some? then Some(|p| + Find(s, m).value) else None
  {
    if p == "" {
      assert p + s == s;
    } else {
      assert (p + s)[1..] == p[1..] + s;
      FindAfter(p[1..], s, m);
      assert (p + s)[0] == p[0];
    }
  }

  lemma FindInShort(s: string, m: string)
    requires |s| < |m|
    ensures Find(s, m).None?
  {
  }

  lemma FindAtFront(m: string, s: string)
    ensures Find(m + s, m) == Some(0)
  {
  }

  lemma {:induction false} FindInLonger(s: string, t: string, m: string)
    requires Find(s, m).Some?
    ensures Find(s + t, m) == Find(s, m)
  {
    assert m <= s ==> m <= s + t;
    if !(m <= s) {
      assert (s + t)[1..] == s[1..] + t;
      FindInLonger(s[1..], t, m);
    }
  }

  /* ---------- searching inside JSON ---------- */

  lemma EscapeCharFacts(c: char)
    ensures Plain(c) ==> EscapeChar(c) == [c]
    ensures !Plain(c) ==> '<' !in EscapeChar(c)
    ensures EscapeChar(c) != "" && (EscapeChar(c)[0] == '\\' || (EscapeChar(c) == [c] && c >= ' ' && c != '\"' && c != '\\'))
  {
    if c < ' ' {
      assert '<' !in "0123456789abcdef";
    }
  }

  lemma {:induction false} EscapePrefix(s: string, m: string)
    requires forall i :: 0 <= i < |m| ==> Plain(m[i])
    ensures m <= Escape(s) <==> m <= s
  {
    hide EscapeChar, Plain;
    if m != "" && s != "" {
      EscapeCharFacts(s[0]);
      EscapePrefix(s[1..], m[1..]);
      var e := EscapeChar(s[0]);
      assert m == [m[0]] + m[1..] && s == [s[0]] + s[1..];
      if Plain(s[0]) {
        assert Escape(s) == [s[0]] + Escape(s[1..]);
      } else {
        assert Plain(m[0]);
        NotPlainEscape(s[0], m[0]);
        assert Escape(s)[0] == e[0];
      }
    }
  }

  lemma NotPlainEscape(c: char, d: char)
    requires !Plain(c) && Plain(d)
    ensures EscapeChar(c) != "" && EscapeChar(c)[0] != d && c != d
  {
  }

  /** JSON spelling neither makes nor breaks an occurrence of a marker. */
  lemma {:induction false} FindInEscaped(s: string, m: string)
    requires PlainMarker(m)
    ensures Find(Escape(s), m).Some? <==> Find(s, m).Some?
  {
    hide EscapeChar, Plain;
    if s == "" {
    } else {
      EscapePrefix(s, m);
      FindInEscaped(s[1..], m);
      EscapeCharFacts(s[0]);
      FindUnfolds(s, m);
      FindUnfolds(Escape(s), m);
      if Plain(s[0]) {
        assert Escape(s)[1..] == Escape(s[1..]);
      } else {
        FindAfter(EscapeChar(s[0]), Escape(s[1..]), m);
        assert Plain(m[0]);
      }
    }
  }

  lemma FindUnfolds(s: string, m: string)
    requires s != "" && m != ""
    ensures Find(s, m).Some? <==> m <= s || Find(s[1..], m).Some?
  {
    if |s| < |m| { FindInShort(s[1..], m); }
  }

  /** A marker is found in the JSON array exactly when it is found in one of the tags. */
  lemma {:induction false} FindInQuoted(tag: string, rest: string, m: string)
    requires PlainMarker(m)
    ensures Find(Quote(tag) + rest, m).Some? <==> Contains(tag, m) || Find(rest, m).Some?
  {
    hide Find, Escape;
    PlainExcludes(m);
    var q := Escape(tag) + "\"" + rest;
    assert Quote(tag) + rest == "" + "\"" + q;
    FindAcross("", '\"', q, m);
    FindAcross(Escape(tag), '\"', rest, m);
    FindInEscaped(tag, m);
    FindInShort("", m);
  }

  lemma PlainExcludes(m: string)
    requires PlainMarker(m)
    ensures '\n' !in m && '\"' !in m && '[' !in m && ']' !in m && ':' !in m && m != ""
  {
  }

  ghost predicate AnyContains(tags: seq<string>, m: string) {
    exists i :: 0 <= i < |tags| && Contains(tags[i], m)
  }

  lemma NoneContain(m: string)
    ensures !AnyContains([], m)
  {
  }

  lemma {:induction false} FindInQuoteRest(tags: seq<string>, m: string)
    requires PlainMarker(m)
    ensures Find(QuoteRest(tags), m).Some? <==> AnyContains(tags, m)
  {
    hide Find, Quote, Contains, AnyContains;
    if tags == [] {
      FindInShort("", m);
      NoneContain(m);
    } else {
      FindInQuoteRest(tags[1..], m);
      var rest := QuoteRest(tags[1..]);
      assert QuoteRest(tags) == "," + (Quote(tags[0]) + rest);
      FindInQuoted(tags[0], rest, m);
      FindAfter(",", Quote(tags[0]) + rest, m);
      AnyContainsCons(tags, m);
    }
  }

  /** A marker is found in the tags line exactly when one of the tags contains it. */
  lemma {:induction false} FindInTagsLine(e: Entry, m: string)
    requires PlainMarker(m)
    ensures Find(TagsLine(e), m).Some? <==> AnyContains(e.tags, m)
  {
    hide Find, Quote, QuoteRest, Contains, AnyContains;
    PlainExcludes(m);
    var body := if e.tags == [] then "" else Quote(e.tags[0]) + QuoteRest(e.tags[1..]);
    var inner := " " + "[" + (body + "]" + " -->");
    assert TagsToJson(e.tags) == "[" + body + "]";
    assert TagsLine(e) == "<!-- tags" + ":" + inner;
    FindAcross("<!-- tags", ':', inner, m);
    FindAcross(" ", '[', body + "]" + " -->", m);
    FindAcross(body, ']', " -->", m);
    FindInShort("<!-- tags", m);
    FindInShort(" ", m);
    FindInShort(" -->", m);
    FindInBody(e.tags, body, m);
  }

  lemma {:induction false} FindInBody(tags: seq<string>, body: string, m: string)
    requires PlainMarker(m)
    requires body == if tags == [] then "" else Quote(tags[0]) + QuoteRest(tags[1..])
    ensures Find(body, m).Some? <==> AnyContains(tags, m)
  {
    hide Find, Quote, QuoteRest, Contains;
    if tags == [] {
      FindInShort("", m);
    } else {
      FindInQuoted(tags[0], QuoteRest(tags[1..]), m);
      FindInQuoteRest(tags[1..], m);
      AnyContainsCons(tags, m);
    }
  }

  lemma {:induction false} AnyContainsCons(tags: seq<string>, m: string)
    requires tags != []
    ensures AnyContains(tags, m) <==> Contains(tags[0], m) || AnyContains(tags[1..], m)
  {
    hide Contains;
    if AnyContains(tags[1..], m) {
      var i :| 0 <= i < |tags[1..]| && Contains(tags[1..][i], m);
      assert tags[i + 1] == tags[1..][i];
    }
    if AnyContains(tags, m) && !Contains(tags[0], m) {
      var i :| 0 <= i < |tags| && Contains(tags[i], m);
      assert tags[1..][i - 1] == tags[i];
    }
  }

  lemma {:induction false} FindInTitleLine(e: Entry, m: string)
    requires PlainMarker(m)
    ensures Find(TitleLine(e), m).Some? <==> Contains(e.title, m)
  {
    hide Find;
    assert '<' !in TITLE_PREFIX;
    FindAfter(TITLE_PREFIX, e.title, m);
  }

  /* ---------- the tags come back ---------- */

  lemma {:induction false} ParseQuoted(tag: string, rest: string)
    ensures (Quote(tag) + rest)[0] == '\"' && ParseString((Quote(tag) + rest)[1..]) == Some((tag, rest))
    ensures Quote(tag) != ""
  {
    hide ParseString, Escape;
    ParseEscaped(tag, rest);
    assert (Quote(tag) + rest)[1..] == Escape(tag) + "\"" + rest;
  }

  lemma {:induction false} ParseElement(tag: string, tail: string, earlier: seq<string>)
    ensures ParseElements("," + (Quote(tag) + tail), earlier) == ParseElements(tail, earlier + [tag])
  {
    hide ParseString, Quote;
    var q := Quote(tag) + tail;
    ParseQuoted(tag, tail);
    NoSpaceToSkip("," + q);
    NoSpaceToSkip(q);
    assert ("," + q)[1..] == q;
    ElementsUnfold("," + q, earlier);
  }

  lemma ElementsUnfold(s: string, earlier: seq<string>)
    requires SkipSpace(s) == s && s != "" && s[0] == ',' && SkipSpace(s[1..]) == s[1..] && s[1..] != "" && s[1] == '\"'
    ensures var r := ParseString(s[1..][1..]);
            ParseElements(s, earlier) == if r.None? then None else ParseElements(r.value.1, earlier + [r.value.0])
  {
    hide ParseString, SkipSpace;
  }

  lemma NoSpaceToSkip(s: string)
    requires s != "" && s[0] > ' '
    ensures SkipSpace(s) == s
  {
  }

  lemma {:induction false} ParseQuoteRest(tags: seq<string>, earlier: seq<string>)
    ensures ParseElements(QuoteRest(tags) + "]", earlier) == Some(earlier + tags)
    decreases |tags|
  {
    hide ParseString, Quote, ParseElements;
    if tags == [] {
      ParseLastBracket(earlier);
      assert earlier + [] == earlier && "" + "]" == "]";
    } else {
      var tail := QuoteRest(tags[1..]) + "]";
      assert QuoteRest(tags) + "]" == "," + (Quote(tags[0]) + tail);
      ParseElement(tags[0], tail, earlier);
      ParseQuoteRest(tags[1..], earlier + [tags[0]]);
      assert earlier + [tags[0]] + tags[1..] == earlier + tags;
    }
  }

  lemma ParseLastBracket(earlier: seq<string>)
    ensures ParseElements("]", earlier) == Some(earlier)
  {
    hide ParseString;
    assert "]"[1..] == "";
  }

  /** Every list of tags survives the JSON spelling. */
  lemma {:induction false} TagsRoundTrip(tags: seq<string>)
    ensures JsonToTags(TagsToJson(tags)) == Some(tags)
  {
    hide ParseString, Quote, ParseElements;
    var json := TagsToJson(tags);
    if tags == [] {
      assert json[1..] == "]" && "]"[1..] == "";
    } else {
      var tail := QuoteRest(tags[1..]) + "]";
      assert json == "[" + (Quote(tags[0]) + tail);
      assert json[1..] == Quote(tags[0]) + tail;
      ParseQuoted(tags[0], tail);
      ParseQuoteRest(tags[1..], [tags[0]]);
      assert [tags[0]] + tags[1..] == tags;
    }
  }

  /* ---------- lines ---------- */

  lemma {:induction false} SplitLineAt(a: string, b: string)
    requires '\n' !in a
    ensures SplitLine(a + "\n" + b) == Some((a, b))
  {
    var s := a + "\n" + b;
    if a == "" {
      assert s[1..] == b;
    } else {
      assert s[1..] == a[1..] + "\n" + b;
      SplitLineAt(a[1..], b);
      assert [a[0]] + a[1..] == a;
    }
  }

  lemma {:induction false} SplitLineNone(s: string)
    requires '\n' !in s
    ensures SplitLine(s).None?
  {
    if s != "" { SplitLineNone(s[1..]); }
  }

  lemma {:induction false} EscapeHasNoBreak(s: string)
    ensures '\n' !in Escape(s) && '\r' !in Escape(s)
  {
    hide EscapeChar;
    if s != "" {
      EscapeHasNoBreak(s[1..]);
      EscapeCharHasNoBreak(s[0]);
    }
  }

  lemma EscapeCharHasNoBreak(c: char)
    ensures '\n' !in EscapeChar(c) && '\r' !in EscapeChar(c)
  {
    assert '\n' !in "0123456789abcdef" && '\r' !in "0123456789abcdef";
  }

  lemma {:induction false} QuoteRestHasNoBreak(tags: seq<string>)
    ensures '\n' !in QuoteRest(tags)
  {
    hide Escape;
    if tags != [] {
      EscapeHasNoBreak(tags[0]);
      QuoteRestHasNoBreak(tags[1..]);
    }
  }

  lemma {:induction false} TagsLineHasNoBreak(e: Entry)
    ensures '\n' !in TagsLine(e)
  {
    hide Escape, QuoteRest;
    if e.tags != [] {
      EscapeHasNoBreak(e.tags[0]);
      QuoteRestHasNoBreak(e.tags[1..]);
    }
  }

  /* ---------- trimming ---------- */

  lemma {:induction false} TrimEndOfSum(p: string, s: string)
    ensures TrimEndCrLf(p + s) == if TrimEndCrLf(s) == "" then TrimEndCrLf(p) else p + TrimEndCrLf(s)
    decreases |s|
  {
    if s == "" {
      assert p + s == p;
    } else {
      assert (p + s)[..|p + s| - 1] == p + s[..|s| - 1];
      if IsCrLf(s[|s| - 1]) { TrimEndOfSum(p, s[..|s| - 1]); }
    }
  }

  lemma {:induction false} TrimEndIsPrefix(s: string)
    ensures TrimEndCrLf(s) <= s
    ensures s != "" && IsCrLf(s[|s| - 1]) ==> TrimEndCrLf(s) != s
    ensures TrimEndCrLf(s) == s || IsCrLf(s[|s| - 1])
    decreases |s|
  {
    if s != "" && IsCrLf(s[|s| - 1]) { TrimEndIsPrefix(s[..|s| - 1]); }
  }

  /* ---------- one entry ---------- */

  /** The title and tags lines of an entry. */
  function Head(e: Entry): string { TitleLine(e) + "\n" + TagsLine(e) }

  /** An entry as the parser reads it back: trailing line breaks of the content are gone. */
  function Stripped(e: Entry): Entry { e.(content := TrimEndCrLf(e.content)) }

  ghost predicate TagsMarkerFree(e: Entry) {
    !AnyContains(e.tags, ENTRY_START) && !AnyContains(e.tags, ENTRY_END)
  }

  /** What decides whether a rendered entry can be read back. */
  ghost predicate Readable(e: Entry, sensitive: string -> bool) {
    TagsMarkerFree(e) && TrimEndCrLf(e.content) != "" && !sensitive(TrimEndCrLf(e.content))
  }

  lemma {:induction false} FindInHead(e: Entry, m: string)
    requires PlainMarker(m) && !Contains(e.title, m)
    ensures Find(Head(e), m).Some? <==> AnyContains(e.tags, m)
    ensures '\n' !in m
  {
    hide Find, TitleLine, TagsLine, AnyContains;
    PlainExcludes(m);
    FindAcross(TitleLine(e), '\n', TagsLine(e), m);
    FindInTitleLine(e, m);
    FindInTagsLine(e, m);
  }

  lemma {:induction false} FindInSection(e: Entry, m: string)
    requires PlainMarker(m) && !Contains(e.title, m) && !Contains(e.content, m)
    ensures Find(Section(e), m).Some? <==> AnyContains(e.tags, m)
    ensures '\n' !in m
  {
    hide Find, TitleLine, TagsLine, AnyContains;
    FindInHead(e, m);
    assert Section(e) == Head(e) + "\n" + e.content;
    FindAcross(Head(e), '\n', e.content, m);
  }

  lemma {:induction false} TrimmedSection(e: Entry)
    ensures var c := TrimEndCrLf(e.content);
            TrimEndCrLf(Section(e) + "\n") == if c == "" then Head(e) else Head(e) + "\n" + c
  {
    hide TitleLine, TagsToJson, TrimEndCrLf;
    var p := Head(e) + "\n";
    assert Section(e) + "\n" == p + (e.content + "\n");
    TrimEndOfSum(p, e.content + "\n");
    TrimEndOfSum(e.content, "\n");
    TrimEndOfSum(Head(e), "\n");
    TrimNewline();
    TrimEndIsPrefix(Head(e));
    assert Head(e)[|Head(e)| - 1] == '>';
    assert p + TrimEndCrLf(e.content) == Head(e) + "\n" + TrimEndCrLf(e.content);
  }

  lemma TrimNewline()
    ensures TrimEndCrLf("\n") == "" && TrimEndCrLf("") == ""
  {
    assert "\n"[..0] == "";
  }

  lemma {:induction false} ByteLenOfPrefix(p: string, s: string)
    requires p <= s
    ensures ByteLen(p) <= ByteLen(s)
  {
    if p != "" { ByteLenOfPrefix(p[1..], s[1..]); }
  }

  lemma {:induction false} StrippedValid(e: Entry, sensitive: string -> bool)
    requires ValidEntry(e, sensitive)
    ensures ValidEntry(Stripped(e), sensitive) <==>
            TrimEndCrLf(e.content) != "" && !sensitive(TrimEndCrLf(e.content))
  {
    hide Find, ValidTitle, ValidTag, TrimEndCrLf, ByteLen;
    var c := TrimEndCrLf(e.content);
    TrimEndIsPrefix(e.content);
    ByteLenOfPrefix(c, e.content);
    assert c + e.content[|c|..] == e.content;
    if Contains(c, ENTRY_START) { FindInLonger(c, e.content[|c|..], ENTRY_START); }
    if Contains(c, ENTRY_END) { FindInLonger(c, e.content[|c|..], ENTRY_END); }
  }

  lemma {:induction false} ParseFullSection(e: Entry, sensitive: string -> bool)
    requires '\n' !in e.title
    ensures ParseEntry(Head(e) + "\n" + e.content, sensitive)
         == if ValidEntry(e, sensitive) then Ok(e) else Err(InvalidEntry)
  {
    hide ValidEntry, TagsToJson, JsonToTags, SplitLine;
    var s := Head(e) + "\n" + e.content;
    assert s == TitleLine(e) + "\n" + (TagsLine(e) + "\n" + e.content);
    SplitLineAt(TitleLine(e), TagsLine(e) + "\n" + e.content);
    TagsLineHasNoBreak(e);
    SplitLineAt(TagsLine(e), e.content);
    var value := TagsLine(e)[|TAGS_PREFIX|..];
    assert value == TagsToJson(e.tags) + TAGS_SUFFIX;
    assert value[..|value| - |TAGS_SUFFIX|] == TagsToJson(e.tags);
    TagsRoundTrip(e.tags);
    assert TitleLine(e)[|TITLE_PREFIX|..] == e.title;
  }

  /** A section cut off within its tags line is no entry. */
  lemma {:induction false} ParseCutSection(e: Entry, q: string, sensitive: string -> bool)
    requires '\n' !in e.title && q <= Head(e)
    ensures ParseEntry(q, sensitive).Err?
  {
    hide ValidEntry, TagsLine, JsonToTags, SplitLine;
    TagsLineHasNoBreak(e);
    if |q| <= |TitleLine(e)| {
      assert q == TitleLine(e)[..|q|];
      SplitLineNone(q);
    } else {
      var b := q[|TitleLine(e)| + 1..];
      assert q == TitleLine(e) + "\n" + b;
      assert b <= TagsLine(e) by {
        assert Head(e)[|TitleLine(e)| + 1..] == TagsLine(e);
      }
      SplitLineAt(TitleLine(e), b);
      SplitLineNone(b);
    }
  }

  /** The text of an entry from its start marker on, followed by `rest`. */
  function Block(e: Entry, rest: string): string {
    ENTRY_START + "\n" + (Section(e) + "\n" + (ENTRY_END + "\n" + rest))
  }

  lemma {:induction false} BlockBody(e: Entry, rest: string)
    ensures TrimStartCrLf(Block(e, rest)[|ENTRY_START|..]) == Section(e) + "\n" + (ENTRY_END + "\n" + rest)
    ensures ENTRY_START <= Block(e, rest) && TrimStartBlank(Block(e, rest)) == Block(e, rest)
  {
    hide TagsLine;
    var body := Section(e) + "\n" + (ENTRY_END + "\n" + rest);
    assert Block(e, rest)[|ENTRY_START|..] == "\n" + body;
    assert ("\n" + body)[1..] == body;
    assert body[0] == '#';
    assert Block(e, rest)[0] == '<';
  }

  /** A rendered entry is read back, content stripped, exactly when it is readable. */
  lemma {:induction false} ParseBlock(e: Entry, rest: string, sensitive: string -> bool)
    requires ValidEntry(e, sensitive)
    ensures if Readable(e, sensitive) then ParseFirst(Block(e, rest), sensitive) == Ok((Stripped(e), "\n" + rest))
            else ParseFirst(Block(e, rest), sensitive).Err?
  {
    MarkersArePlain();
    BlockBody(e, rest);
    if AnyContains(e.tags, ENTRY_END) {
      EndMarkerInTags(e, rest, sensitive);
    } else {
      EndMarkerFound(e, rest, sensitive);
    }
  }

  lemma {:induction false} EndMarkerInTags(e: Entry, rest: string, sensitive: string -> bool)
    requires ValidEntry(e, sensitive) && AnyContains(e.tags, ENTRY_END) && PlainMarker(ENTRY_END)
    ensures ParseFirst(Block(e, rest), sensitive).Err?
  {
    hide Find, Section, Head, AnyContains, ParseEntry, TrimEndCrLf, ValidContent, ValidTag, TrimStartCrLf, Block;
    BlockBody(e, rest);
    var body := Section(e) + "\n" + (ENTRY_END + "\n" + rest);
    FindInHead(e, ENTRY_END);
    var tail := "\n" + e.content + "\n" + (ENTRY_END + "\n" + rest);
    HeadStartsSection(e);
    assert body == Head(e) + tail;
    FindInLonger(Head(e), tail, ENTRY_END);
    var end := Find(body, ENTRY_END).value;
    TrimEndIsPrefix(body[..end]);
    assert body[..end] <= Head(e) by { assert body[..end] == Head(e)[..end]; }
    ParseCutSection(e, TrimEndCrLf(body[..end]), sensitive);
  }

  lemma HeadStartsSection(e: Entry)
    ensures Section(e) == Head(e) + "\n" + e.content
  {
    hide TitleLine, TagsLine;
  }

  lemma {:induction false} EndMarkerFound(e: Entry, rest: string, sensitive: string -> bool)
    requires ValidEntry(e, sensitive) && !AnyContains(e.tags, ENTRY_END)
    requires PlainMarker(ENTRY_END) && PlainMarker(ENTRY_START)
    ensures if Readable(e, sensitive) then ParseFirst(Block(e, rest), sensitive) == Ok((Stripped(e), "\n" + rest))
            else ParseFirst(Block(e, rest), sensitive).Err?
  {
    hide Find, Section, Head, AnyContains, ParseEntry, TrimEndCrLf, ValidTag, TrimStartCrLf, Block;
    BlockBody(e, rest);
    var after := ENTRY_END + "\n" + rest;
    var body := Section(e) + "\n" + after;
    FindInSection(e, ENTRY_END);
    FindAcross(Section(e), '\n', after, ENTRY_END);
    FindAtFront(ENTRY_END, "\n" + rest);
    assert after == ENTRY_END + ("\n" + rest);
    assert Find(body, ENTRY_END) == Some(|Section(e)| + 1);
    assert body[..|Section(e)| + 1] == Section(e) + "\n";
    assert body[|Section(e)| + 1 + |ENTRY_END|..] == "\n" + rest;
    TrimmedSection(e);
    SectionParsed(e, TrimEndCrLf(Section(e) + "\n"), sensitive);
  }

  lemma {:induction false} SectionParsed(e: Entry, section: string, sensitive: string -> bool)
    requires ValidEntry(e, sensitive) && !AnyContains(e.tags, ENTRY_END)
    requires PlainMarker(ENTRY_END) && PlainMarker(ENTRY_START)
    requires var c := TrimEndCrLf(e.content); section == if c == "" then Head(e) else Head(e) + "\n" + c
    ensures Readable(e, sensitive) <==> !Contains(section, ENTRY_START) && ParseEntry(section, sensitive).Ok?
    ensures Readable(e, sensitive) ==> ParseEntry(section, sensitive) == Ok(Stripped(e))
  {
    hide Find, Section, AnyContains, ParseEntry, TrimEndCrLf, ValidTag, TitleLine, TagsLine, Head;
    var c := TrimEndCrLf(e.content);
    FindInHead(e, ENTRY_START);
    if AnyContains(e.tags, ENTRY_START) {
      FindInLonger(Head(e), if c == "" then "" else "\n" + c, ENTRY_START);
      assert section == Head(e) + (if c == "" then "" else "\n" + c);
    } else if c == "" {
      ParseCutSection(e, section, sensitive);
    } else {
      StrippedSectionParsed(e, c, sensitive);
    }
  }

  lemma {:induction false} StrippedSectionParsed(e: Entry, c: string, sensitive: string -> bool)
    requires ValidEntry(e, sensitive) && c == TrimEndCrLf(e.content) && c != ""
    requires PlainMarker(ENTRY_START) && Find(Head(e), ENTRY_START).None?
    ensures !Contains(Head(e) + "\n" + c, ENTRY_START)
    ensures ParseEntry(Head(e) + "\n" + c, sensitive) == if sensitive(c) then Err(InvalidEntry) else Ok(Stripped(e))
  {
    hide Find, Section, ParseEntry, TrimEndCrLf, ValidTag, TitleLine, TagsLine;
    StrippedValid(e, sensitive);
    SameHead(e);
    ParseFullSection(Stripped(e), sensitive);
    TrimEndIsPrefix(e.content);
    assert c + e.content[|c|..] == e.content;
    if Contains(c, ENTRY_START) { FindInLonger(c, e.content[|c|..], ENTRY_START); }
    PlainExcludes(ENTRY_START);
    FindAcross(Head(e), '\n', c, ENTRY_START);
  }

  lemma SameHead(e: Entry)
    ensures TitleLine(Stripped(e)) == TitleLine(e) && TagsLine(Stripped(e)) == TagsLine(e)
  {
  }

  /* ---------- whole files ---------- */

  lemma BlankAfterEntry(e: Entry, rest: string)
    ensures TrimStartBlank("\n" + rest) == TrimStartBlank(rest)
    ensures TrimStartBlank(RenderEntry(e) + rest) == Block(e, rest)
  {
    hide Section;
    assert ("\n" + rest)[1..] == rest;
    assert RenderEntry(e) + rest == "\n" + Block(e, rest);
    assert ("\n" + Block(e, rest))[1..] == Block(e, rest);
    BlockBody(e, rest);
  }

  lemma {:induction false} ParseRenderedEntries(es: seq<Entry>, earlier: seq<Entry>, sensitive: string -> bool)
    requires forall i :: 0 <= i < |es| ==> ValidEntry(es[i], sensitive)
    requires |earlier| + |es| <= MAX_ENTRIES
    ensures var r := ParseRest(RenderAll(es), earlier, sensitive);
            if forall i :: 0 <= i < |es| ==> Readable(es[i], sensitive)
            then r == Ok(earlier + seq(|es|, i requires 0 <= i < |es| => Stripped(es[i])))
            else r.Err?
    decreases |es|
  {
    hide Find, Readable, ValidEntry, ParseFirst, TrimStartBlank, Block, RenderEntry;
    var stripped := seq(|es|, i requires 0 <= i < |es| => Stripped(es[i]));
    if es == [] {
      EmptyIsBlank();
      assert earlier + stripped == earlier;
    } else {
      var rest := RenderAll(es[1..]);
      BlankAfterEntry(es[0], rest);
      BlockNotEmpty(es[0], rest);
      ParseBlock(es[0], rest, sensitive);
      if Readable(es[0], sensitive) {
        var earlier' := earlier + [Stripped(es[0])];
        ParseRestAfterBlank(rest, earlier', sensitive);
        ParseRenderedEntries(es[1..], earlier', sensitive);
        var tail := seq(|es[1..]|, i requires 0 <= i < |es[1..]| => Stripped(es[1..][i]));
        assert earlier' + tail == earlier + stripped;
        assert (forall i :: 0 <= i < |es| ==> Readable(es[i], sensitive)) <==>
               (forall i :: 0 <= i < |es[1..]| ==> Readable(es[1..][i], sensitive)) by {
          forall i | 0 <= i < |es| && (forall j :: 0 <= j < |es[1..]| ==> Readable(es[1..][j], sensitive))
            ensures Readable(es[i], sensitive)
          {
            if i > 0 { assert es[i] == es[1..][i - 1]; }
          }
        }
      }
    }
  }

  lemma EmptyIsBlank()
    ensures TrimStartBlank("") == ""
  {
  }

  lemma BlockNotEmpty(e: Entry, rest: string)
    ensures Block(e, rest) != ""
  {
  }

  lemma ParseRestAfterBlank(rest: string, entries: seq<Entry>, sensitive: string -> bool)
    ensures ParseRest("\n" + rest, entries, sensitive) == ParseRest(rest, entries, sensitive)
  {
    hide ParseFirst;
    assert ("\n" + rest)[1..] == rest;
  }

  /** Parsing a rendered file succeeds exactly when every entry is readable, and then gives
      the entries with the trailing line breaks of their contents removed. */
  lemma {:induction false} RoundTrip(es: seq<Entry>, sensitive: string -> bool)
    requires Rendered(es, sensitive).Ok?
    ensures var parsed := Parsed(Rendered(es, sensitive).value, sensitive);
            if forall i :: 0 <= i < |es| ==> Readable(es[i], sensitive)
            then parsed == Ok(seq(|es|, i requires 0 <= i < |es| => Stripped(es[i])))
            else parsed.Err?
  {
    hide Readable, ValidEntry, ParseRest, RenderAll;
    ParseRenderedEntries(es, [], sensitive);
    var text := HEADER + RenderAll(es);
    assert text[|HEADER|..] == RenderAll(es);
    var stripped := seq(|es|, i requires 0 <= i < |es| => Stripped(es[i]));
    assert [] + stripped == stripped;
  }

  /** An entry comes back unchanged exactly when its tags contain no marker and its content
      does not end in a line break. */
  ghost predicate Faithful(e: Entry) {
    TagsMarkerFree(e) && e.content != "" && !IsCrLf(e.content[|e.content| - 1])
  }

  /** The exact round trip: the list itself comes back if and only if every entry is faithful. */
  lemma {:induction false} ExactRoundTrip(es: seq<Entry>, sensitive: string -> bool)
    requires Rendered(es, sensitive).Ok?
    ensures Parsed(Rendered(es, sensitive).value, sensitive) == Ok(es) <==> forall i :: 0 <= i < |es| ==> Faithful(es[i])
  {
    hide Rendered, Parsed, TagsMarkerFree, TrimEndCrLf;
    RenderedEntriesValid(es, sensitive);
    RoundTrip(es, sensitive);
    var stripped := seq(|es|, i requires 0 <= i < |es| => Stripped(es[i]));
    forall i | 0 <= i < |es|
      ensures Faithful(es[i]) <==> Readable(es[i], sensitive) && stripped[i] == es[i]
    {
      TrimEndIsPrefix(es[i].content);
    }
    if forall i :: 0 <= i < |es| ==> Faithful(es[i]) {
      assert stripped == es;
    }
  }

  lemma RenderedEntriesValid(es: seq<Entry>, sensitive: string -> bool)
    requires Rendered(es, sensitive).Ok?
    ensures forall i :: 0 <= i < |es| ==> es[i].content != "" && !sensitive(es[i].content)
  {
    hide RenderAll, ValidTag, ValidTitle;
    forall i | 0 <= i < |es| ensures es[i].content != "" && !sensitive(es[i].content) {
      assert ValidEntry(es[i], sensitive);
    }
  }
}
