/** What the reader of memory entries accepts (src/auto_memory.rs): a tag list is any JSON array of
    strings, and the section of an entry has just the lines that the printer writes.
 */
module MemoryGrammar {
  import opened Wrappers
  import opened TextBasics
  import opened JsonSpelling
  import opened MemoryCodec

  /* ---------- tags ---------- */

  /** Whitespace of JSON. */
  ghost predicate Blank(s: string) { forall c :: c in s ==> c as int in {9, 10, 13, 32} }

  /** A string of JSON, quotes included. */
  ghost predicate SpellsString(t: string, value: string) {
    exists ts :: SpellsAll(ts, value) && t == "\"" + Flat(ts) + "\""
  }

  /** What follows an element of an array: a comma before each further one, and the bracket. */
  ghost predicate SpellsRest(s: string, tags: seq<string>)
    decreases |tags|
  {
    if tags == [] then exists a, b :: Blank(a) && Blank(b) && s == a + ("]" + b)
    else exists a, b, t, r :: Blank(a) && Blank(b) && SpellsString(t, tags[0]) && SpellsRest(r, tags[1..]) && s == a + ("," + (b + (t + r)))
  }

  /** An array of strings. */
  ghost predicate SpellsArray(s: string, tags: seq<string>) {
    if tags == [] then exists a, b, c :: Blank(a) && Blank(b) && Blank(c) && s == a + ("[" + (b + ("]" + c)))
    else exists a, b, t, r :: Blank(a) && Blank(b) && SpellsString(t, tags[0]) && SpellsRest(r, tags[1..]) && s == a + ("[" + (b + (t + r)))
  }

  lemma {:induction false} SpaceIsSkipped(a: string, s: string)
    requires Blank(a) && (s == "" || s[0] as int !in {9, 10, 13, 32})
    ensures SkipSpace(a + s) == s
  {
    if a == "" {
      assert a + s == s;
    } else {
      assert a[0] in a && (a + s)[1..] == a[1..] + s;
      assert forall c :: c in a[1..] ==> c in a;
      SpaceIsSkipped(a[1..], s);
    }
  }

  lemma {:induction false} Skipped(s: string) returns (a: string)
    ensures Blank(a) && s == a + SkipSpace(s) && (SkipSpace(s) != "" ==> SkipSpace(s)[0] as int !in {9, 10, 13, 32})
  {
    if SkipSpace(s) == s {
      a := "";
    } else {
      var more := Skipped(s[1..]);
      a := [s[0]] + more;
    }
  }

  lemma StringIsRead(t: string, value: string, r: string)
    requires SpellsString(t, value)
    ensures t != "" && (t + r)[0] == '\"' && ParseString((t + r)[1..]) == Some((value, r))
  {
    hide ParseString, SpellsAll, Flat;
    var ts :| SpellsAll(ts, value) && t == "\"" + Flat(ts) + "\"";
    assert (t + r)[1..] == Flat(ts) + "\"" + r;
    SpelledIsRead(ts, value, r);
  }

  lemma ReadIsString(s: string) returns (t: string)
    requires s != "" && s[0] == '\"' && ParseString(s[1..]).Some?
    ensures var r := ParseString(s[1..]).value; SpellsString(t, r.0) && s == t + r.1
  {
    hide ParseString, SpellsAll, Flat;
    var r := ParseString(s[1..]).value;
    var ts := ReadIsSpelled(s[1..], r.0, r.1);
    t := "\"" + Flat(ts) + "\"";
    assert s == "\"" + s[1..];
  }

  lemma {:induction false} RestIsRead(s: string, tags: seq<string>, earlier: seq<string>)
    requires SpellsRest(s, tags)
    ensures ParseElements(s, earlier) == Some(earlier + tags)
    decreases |tags|
  {
    hide ParseElements, SpellsString, Blank;
    if tags == [] {
      var a, b :| Blank(a) && Blank(b) && s == a + ("]" + b);
      BracketIsRead(a, b, earlier);
      assert earlier + tags == earlier;
    } else {
      var a, b, t, r :| Blank(a) && Blank(b) && SpellsString(t, tags[0]) && SpellsRest(r, tags[1..]) && s == a + ("," + (b + (t + r)));
      ElementIsRead(a, b, t, r, tags[0], earlier);
      RestIsRead(r, tags[1..], earlier + [tags[0]]);
      assert earlier + [tags[0]] + tags[1..] == earlier + tags;
    }
  }

  lemma BracketIsRead(a: string, b: string, earlier: seq<string>)
    requires Blank(a) && Blank(b)
    ensures ParseElements(a + ("]" + b), earlier) == Some(earlier)
  {
    hide SkipSpace, Blank;
    SpaceIsSkipped(a, "]" + b);
    SpaceIsSkipped(b, "");
    assert b + "" == b && ("]" + b)[1..] == b;
  }

  lemma ElementIsRead(a: string, b: string, t: string, r: string, value: string, earlier: seq<string>)
    requires Blank(a) && Blank(b) && SpellsString(t, value)
    ensures ParseElements(a + ("," + (b + (t + r))), earlier) == ParseElements(r, earlier + [value])
  {
    hide SkipSpace, ParseString, SpellsString, Blank;
    SpaceIsSkipped(a, "," + (b + (t + r)));
    assert ("," + (b + (t + r)))[1..] == b + (t + r);
    StringIsRead(t, value, r);
    SpaceIsSkipped(b, t + r);
  }

  lemma {:induction false} ReadIsRest(s: string, earlier: seq<string>) returns (tags: seq<string>)
    requires ParseElements(s, earlier).Some?
    ensures ParseElements(s, earlier) == Some(earlier + tags) && SpellsRest(s, tags)
    decreases |s|
  {
    hide SkipSpace, ParseString, SpellsString, Blank;
    var a := Skipped(s);
    var t := SkipSpace(s);
    var b := Skipped(t[1..]);
    var u := SkipSpace(t[1..]);
    if t[0] == ']' {
      tags := [];
      assert t == "]" + t[1..] && t[1..] == b + "" == b && s == a + ("]" + b);
      assert earlier + tags == earlier;
    } else {
      var v := ReadIsString(u);
      var first := ParseString(u[1..]).value;
      var more := ReadIsRest(first.1, earlier + [first.0]);
      tags := [first.0] + more;
      assert tags[1..] == more && earlier + [first.0] + more == earlier + tags;
      assert t == "," + t[1..] && s == a + ("," + (b + (v + first.1)));
    }
  }

  /** A text is read as a list of tags exactly if it is a JSON array that spells them. */
  lemma TagsReadExactly(s: string, tags: seq<string>)
    ensures JsonToTags(s) == Some(tags) <==> SpellsArray(s, tags)
  {
    hide SkipSpace, ParseString, ParseElements, SpellsString, SpellsRest, Blank;
    if JsonToTags(s) == Some(tags) { ReadIsArray(s, tags); }
    if SpellsArray(s, tags) { ArrayIsRead(s, tags); }
  }

  lemma ArrayIsRead(s: string, tags: seq<string>)
    requires SpellsArray(s, tags)
    ensures JsonToTags(s) == Some(tags)
  {
    hide SkipSpace, ParseString, ParseElements, SpellsString, SpellsRest, Blank;
    if tags == [] {
      var a, b, c :| Blank(a) && Blank(b) && Blank(c) && s == a + ("[" + (b + ("]" + c)));
      SpaceIsSkipped(a, "[" + (b + ("]" + c)));
      assert ("[" + (b + ("]" + c)))[1..] == b + ("]" + c);
      SpaceIsSkipped(b, "]" + c);
      SpaceIsSkipped(c, "");
      assert ("]" + c)[1..] == c == c + "";
    } else {
      var a, b, t, r :| Blank(a) && Blank(b) && SpellsString(t, tags[0]) && SpellsRest(r, tags[1..]) && s == a + ("[" + (b + (t + r)));
      StringIsRead(t, tags[0], r);
      SpaceIsSkipped(a, "[" + (b + (t + r)));
      assert ("[" + (b + (t + r)))[1..] == b + (t + r);
      SpaceIsSkipped(b, t + r);
      RestIsRead(r, tags[1..], [tags[0]]);
      var u := t + r;
      assert u[0] == '\"' && ParseString(u[1..]) == Some((tags[0], r));
      assert SkipSpace(s) == "[" + (b + u) && SkipSpace(b + u) == u;
      assert [tags[0]] + tags[1..] == tags;
    }
  }

  lemma ReadIsArray(s: string, tags: seq<string>)
    requires JsonToTags(s) == Some(tags)
    ensures SpellsArray(s, tags)
  {
    hide SkipSpace, ParseString, ParseElements, SpellsString, SpellsRest, Blank;
    var a := Skipped(s);
    var t := SkipSpace(s);
    var b := Skipped(t[1..]);
    var u := SkipSpace(t[1..]);
    if u[0] == ']' {
      var c := Skipped(u[1..]);
      assert t == "[" + t[1..] && u == "]" + u[1..] && u[1..] == c + "" == c;
      assert s == a + ("[" + (b + ("]" + c)));
    } else {
      var v := ReadIsString(u);
      var first := ParseString(u[1..]).value;
      var more := ReadIsRest(first.1, [first.0]);
      assert tags == [first.0] + more && tags[1..] == more;
      assert t == "[" + t[1..] && s == a + ("[" + (b + (v + first.1)));
    }
  }

  /* ---------- sections ---------- */

  /** A text begins with a line exactly if that holds no newline and one follows it. */
  lemma {:induction false} LineIs(s: string, a: string, b: string)
    ensures SplitLine(s) == Some((a, b)) <==> '\n' !in a && s == a + "\n" + b
  {
    if s != "" && s[0] != '\n' {
      if SplitLine(s) == Some((a, b)) {
        LineIs(s[1..], a[1..], b);
        assert s == [s[0]] + s[1..];
      }
      if '\n' !in a && s == a + "\n" + b {
        assert a != "" && a[0] == s[0] && s[1..] == a[1..] + "\n" + b;
        assert '\n' !in a[1..] && [s[0]] + a[1..] == a;
        LineIs(s[1..], a[1..], b);
      }
    } else if s != "" {
      assert s == a + "\n" + b && a != "" ==> s[0] == a[0] && a[0] in a;
      assert s == "\n" + s[1..] && ("" + "\n" + b)[1..] == b;
    }
  }

  /** The section of an entry is read as that entry exactly if it has a title line, a line with a
      JSON array of its tags, and the content, and the entry is valid. */
  lemma EntryReadsExactly(section: string, e: Entry, sensitive: string -> bool)
    ensures ParseEntry(section, sensitive) == Ok(e) <==>
            && ValidEntry(e, sensitive) && '\n' !in e.title
            && exists listed :: SpellsArray(listed, e.tags) && '\n' !in listed
                               && section == "## " + e.title + "\n" + ("<!-- tags: " + listed + " -->" + "\n" + e.content)
  {
    hide ParseEntry, ValidEntry, SpellsArray;
    if ParseEntry(section, sensitive) == Ok(e) { var listed := ReadIsSection(section, e, sensitive); }
    forall listed | ValidEntry(e, sensitive) && '\n' !in e.title && SpellsArray(listed, e.tags) && '\n' !in listed
                   && section == "## " + e.title + "\n" + ("<!-- tags: " + listed + " -->" + "\n" + e.content)
      ensures ParseEntry(section, sensitive) == Ok(e)
    {
      SectionIsRead(listed, e, sensitive);
    }
  }

  lemma ReadIsSection(section: string, e: Entry, sensitive: string -> bool) returns (listed: string)
    requires ParseEntry(section, sensitive) == Ok(e)
    ensures ValidEntry(e, sensitive) && '\n' !in e.title && SpellsArray(listed, e.tags) && '\n' !in listed
    ensures section == "## " + e.title + "\n" + ("<!-- tags: " + listed + " -->" + "\n" + e.content)
  {
    hide SplitLine, JsonToTags, ValidEntry, SpellsArray;
    var first := SplitLine(section).value;
    LineIs(section, first.0, first.1);
    var second := SplitLine(first.1).value;
    LineIs(first.1, second.0, second.1);
    var value := second.0[|TAGS_PREFIX|..];
    listed := value[..|value| - |TAGS_SUFFIX|];
    TagsReadExactly(listed, e.tags);
    hide ParseEntry;
    assert first.0 == TITLE_PREFIX + first.0[|TITLE_PREFIX|..];
    assert value == listed + TAGS_SUFFIX && second.0 == TAGS_PREFIX + value;
    assert second.0 == "<!-- tags: " + listed + " -->";
    assert forall c :: c in first.0[|TITLE_PREFIX|..] ==> c in first.0;
    assert forall c :: c in listed ==> c in value;
    assert forall c :: c in value ==> c in second.0;
  }

  lemma SectionIsRead(listed: string, e: Entry, sensitive: string -> bool)
    requires ValidEntry(e, sensitive) && '\n' !in e.title && SpellsArray(listed, e.tags) && '\n' !in listed
    ensures ParseEntry("## " + e.title + "\n" + ("<!-- tags: " + listed + " -->" + "\n" + e.content), sensitive) == Ok(e)
  {
    hide SplitLine, JsonToTags, ValidEntry, SpellsArray;
    var tail := "<!-- tags: " + listed + " -->" + "\n" + e.content;
    LineIs("## " + e.title + "\n" + tail, "## " + e.title, tail);
    LineIs(tail, "<!-- tags: " + listed + " -->", e.content);
    TagsReadExactly(listed, e.tags);
    var line := "<!-- tags: " + listed + " -->";
    var value := line[|TAGS_PREFIX|..];
    assert value == listed + " -->";
    assert value[..|value| - |TAGS_SUFFIX|] == listed && value[|value| - |TAGS_SUFFIX|..] == " -->";
    assert ("## " + e.title)[|TITLE_PREFIX|..] == e.title;
  }
}
