/** Model of the workspace memory file (src/auto_memory.rs): the printer and the parser
    of the entry list. Deciding what looks like a secret is a parameter, `sensitive`.
 */
module MemoryCodec {

  import opened Wrappers
  import opened TextBasics

  datatype Error =
    | MissingHeader | BadStart | MissingEnd | Nested | BadEntry | TooMany | TooLarge | InvalidEntry

  datatype Entry = Entry(title: string, tags: seq<string>, content: string)

  const HEADER: string := "# Workspace memory\n"
  const ENTRY_START: string := "<!-- memory-entry -->"
  const ENTRY_END: string := "<!-- /memory-entry -->"
  const TITLE_PREFIX: string := "## "
  const TAGS_PREFIX: string := "<!-- tags: "
  const TAGS_SUFFIX: string := " -->"
  const MAX_MEMORY_BYTES: nat := 256 * 1024
  const MAX_ENTRIES: nat := 256
  const MAX_TITLE_BYTES: nat := 128
  const MAX_TAGS: nat := 16
  const MAX_TAG_BYTES: nat := 64
  const MAX_CONTENT_BYTES: nat := 16 * 1024

  /* ---------- text ---------- */

  /** The first position at which `m` occurs. */
  function Find(s: string, m: string): (r: Option<nat>)
    ensures r.Some? ==> r.value + |m| <= |s|
  {
    if |s| < |m| then None
    else if m <= s then Some(0)
    else if s == "" then None
    else
      var r := Find(s[1..], m);
      if r.None? then None else Some(r.value + 1)
  }

  predicate Contains(s: string, m: string) { Find(s, m).Some? }

  /** The parts around the first newline. */
  function SplitLine(s: string): Option<(string, string)> {
    if s == "" then None
    else if s[0] == '\n' then Some(("", s[1..]))
    else
      var r := SplitLine(s[1..]);
      if r.None? then None else Some(([s[0]] + r.value.0, r.value.1))
  }

  predicate IsCrLf(c: char) { c == '\r' || c == '\n' }

  function TrimEndCrLf(s: string): string
    decreases |s|
  {
    if s != "" && IsCrLf(s[|s| - 1]) then TrimEndCrLf(s[..|s| - 1]) else s
  }

  function TrimStartCrLf(s: string): (r: string)
    ensures |r| <= |s|
  {
    if s != "" && IsCrLf(s[0]) then TrimStartCrLf(s[1..]) else s
  }

  function TrimStartBlank(s: string): (r: string)
    ensures |r| <= |s|
  {
    if s != "" && (IsCrLf(s[0]) || s[0] == ' ' || s[0] == '\t') then TrimStartBlank(s[1..]) else s
  }

  /* ---------- tags as a JSON array of strings ---------- */

  /** The quoted strings, each but the first after a comma. */
  function QuoteRest(tags: seq<string>): string {
    if tags == [] then "" else "," + Quote(tags[0]) + QuoteRest(tags[1..])
  }

  function TagsToJson(tags: seq<string>): string {
    if tags == [] then "[]" else "[" + Quote(tags[0]) + QuoteRest(tags[1..]) + "]"
  }

  /** Whitespace between JSON tokens. */
  function SkipSpace(s: string): (r: string)
    ensures |r| <= |s|
  {
    if s != "" && (s[0] == ' ' || s[0] == '\t' || s[0] == '\n' || s[0] == '\r') then SkipSpace(s[1..]) else s
  }

  /** The elements after the first one, up to the closing bracket. */
  function ParseElements(s: string, tags: seq<string>): Option<seq<string>>
    decreases |s|
  {
    var t := SkipSpace(s);
    if t == "" then None
    else if t[0] == ']' then if SkipSpace(t[1..]) == "" then Some(tags) else None
    else if t[0] != ',' then None
    else
      var u := SkipSpace(t[1..]);
      if u == "" || u[0] != '\"' then None
      else
        var r := ParseString(u[1..]);
        if r.None? then None else ParseElements(r.value.1, tags + [r.value.0])
  }

  function JsonToTags(s: string): Option<seq<string>> {
    var t := SkipSpace(s);
    if t == "" || t[0] != '[' then None
    else
      var u := SkipSpace(t[1..]);
      if u == "" then None
      else if u[0] == ']' then if SkipSpace(u[1..]) == "" then Some([]) else None
      else if u[0] != '\"' then None
      else
        var r := ParseString(u[1..]);
        if r.None? then None else ParseElements(r.value.1, [r.value.0])
  }

  /* ---------- entries ---------- */

  predicate ValidTag(tag: string, sensitive: string -> bool) {
    && !IsBlank(tag) && ByteLen(tag) <= MAX_TAG_BYTES
    && '\r' !in tag && '\n' !in tag && '\0' !in tag && !sensitive(tag)
  }

  predicate ValidTitle(title: string, sensitive: string -> bool) {
    && !IsBlank(title) && ByteLen(title) <= MAX_TITLE_BYTES
    && '\r' !in title && '\n' !in title && '\0' !in title
    && !Contains(title, ENTRY_START) && !Contains(title, ENTRY_END) && !sensitive(title)
  }

  predicate ValidContent(content: string, sensitive: string -> bool) {
    && content != "" && ByteLen(content) <= MAX_CONTENT_BYTES && '\0' !in content
    && !Contains(content, ENTRY_START) && !Contains(content, ENTRY_END) && !sensitive(content)
  }

  predicate ValidEntry(e: Entry, sensitive: string -> bool) {
    && ValidTitle(e.title, sensitive) && |e.tags| <= MAX_TAGS
    && (forall i :: 0 <= i < |e.tags| ==> ValidTag(e.tags[i], sensitive))
    && ValidContent(e.content, sensitive)
  }

  /** What validation asks, character by character. */
  lemma ValidEntryIs(e: Entry, sensitive: string -> bool)
    ensures ValidEntry(e, sensitive) <==>
            && (exists c :: c in e.title && !IsWhitespace(c)) && ByteLen(e.title) <= 128
            && (forall c :: c in e.title ==> c != '\r' && c != '\n' && c != '\0')
            && (forall k :: 0 <= k <= |e.title| ==> !(ENTRY_START <= e.title[k..]) && !(ENTRY_END <= e.title[k..]))
            && |e.tags| <= 16
            && (forall tag :: tag in e.tags ==>
                  && (exists c :: c in tag && !IsWhitespace(c)) && ByteLen(tag) <= 64
                  && (forall c :: c in tag ==> c != '\r' && c != '\n' && c != '\0') && !sensitive(tag))
            && e.content != "" && ByteLen(e.content) <= 16384 && (forall c :: c in e.content ==> c != '\0')
            && (forall k :: 0 <= k <= |e.content| ==> !(ENTRY_START <= e.content[k..]) && !(ENTRY_END <= e.content[k..]))
            && !sensitive(e.title) && !sensitive(e.content)
  {
    hide ByteLen, IsWhitespace, Find, IsBlank, Contains;
    TitleIs(e.title, sensitive);
    TagsAre(e.tags, sensitive);
    HasNoMarker(e.content);
  }

  lemma TitleIs(title: string, sensitive: string -> bool)
    ensures ValidTitle(title, sensitive) <==>
            && (exists c :: c in title && !IsWhitespace(c)) && ByteLen(title) <= 128
            && (forall c :: c in title ==> c != '\r' && c != '\n' && c != '\0')
            && (forall k :: 0 <= k <= |title| ==> !(ENTRY_START <= title[k..]) && !(ENTRY_END <= title[k..]))
            && !sensitive(title)
  {
    hide ByteLen, IsWhitespace, Find, IsBlank, Contains;
    SomeChar(title);
    HasNoMarker(title);
  }

  lemma TagsAre(tags: seq<string>, sensitive: string -> bool)
    ensures (forall i :: 0 <= i < |tags| ==> ValidTag(tags[i], sensitive)) <==>
            forall tag :: tag in tags ==>
              && (exists c :: c in tag && !IsWhitespace(c)) && ByteLen(tag) <= 64
              && (forall c :: c in tag ==> c != '\r' && c != '\n' && c != '\0') && !sensitive(tag)
  {
    hide ByteLen, IsWhitespace, IsBlank;
    forall tag | tag in tags ensures IsBlank(tag) <==> !exists c :: c in tag && !IsWhitespace(c) { SomeChar(tag); }
    assert (forall i :: 0 <= i < |tags| ==> ValidTag(tags[i], sensitive)) <==> forall tag :: tag in tags ==> ValidTag(tag, sensitive);
  }

  lemma HasNoMarker(s: string)
    ensures !Contains(s, ENTRY_START) && !Contains(s, ENTRY_END) <==>
            forall k :: 0 <= k <= |s| ==> !(ENTRY_START <= s[k..]) && !(ENTRY_END <= s[k..])
  {
    hide Find, Contains;
    FindsAnywhere(s, ENTRY_START);
    FindsAnywhere(s, ENTRY_END);
  }

  lemma SomeChar(s: string)
    ensures IsBlank(s) <==> !exists c :: c in s && !IsWhitespace(c)
  {
    hide IsWhitespace;
    if !IsBlank(s) {
      var i :| 0 <= i < |s| && !IsWhitespace(s[i]);
      assert s[i] in s;
    }
  }

  /** A text contains another one if that begins somewhere in it, and the first such place is found. */
  lemma {:induction false} FindsAnywhere(s: string, m: string)
    ensures Contains(s, m) <==> exists k :: 0 <= k <= |s| && m <= s[k..]
    ensures Find(s, m).Some? ==> m <= s[Find(s, m).value..] && forall k :: 0 <= k < Find(s, m).value ==> !(m <= s[k..])
  {
    if |s| >= |m| && !(m <= s) && s != "" {
      FindsAnywhere(s[1..], m);
      assert forall k :: 1 <= k <= |s| ==> s[k..] == s[1..][k - 1..];
      assert s[0..] == s;
      if k :| 0 <= k <= |s| && m <= s[k..] { assert m <= s[1..][k - 1..]; }
      if Find(s, m).Some? {
        forall k | 0 <= k < Find(s, m).value ensures !(m <= s[k..]) {
          if k > 0 { assert s[k..] == s[1..][k - 1..]; }
        }
      }
      if k :| 0 <= k <= |s[1..]| && m <= s[1..][k..] { assert s[k + 1..] == s[1..][k..]; }
    } else {
      assert s[0..] == s;
    }
  }

  function TitleLine(e: Entry): string { TITLE_PREFIX + e.title }

  function TagsLine(e: Entry): string { TAGS_PREFIX + TagsToJson(e.tags) + TAGS_SUFFIX }

  /** Everything of an entry between its markers, the line breaks at the ends aside. */
  function Section(e: Entry): string { TitleLine(e) + "\n" + TagsLine(e) + "\n" + e.content }

  function RenderEntry(e: Entry): string {
    "\n" + ENTRY_START + "\n" + Section(e) + "\n" + ENTRY_END + "\n"
  }

  function RenderAll(es: seq<Entry>): string {
    if es == [] then "" else RenderEntry(es[0]) + RenderAll(es[1..])
  }

  function ParseEntry(section: string, sensitive: string -> bool): Result<Entry, Error> {
    var first := SplitLine(section);
    if first.None? || !(TITLE_PREFIX <= first.value.0) then Err(BadEntry)
    else
      var second := SplitLine(first.value.1);
      if second.None? || !(TAGS_PREFIX <= second.value.0) then Err(BadEntry)
      else
        var value := second.value.0[|TAGS_PREFIX|..];
        if |value| < |TAGS_SUFFIX| || value[|value| - |TAGS_SUFFIX|..] != TAGS_SUFFIX then Err(BadEntry)
        else
          var tags := JsonToTags(value[..|value| - |TAGS_SUFFIX|]);
          if tags.None? then Err(BadEntry)
          else
            var e := Entry(first.value.0[|TITLE_PREFIX|..], tags.value, second.value.1);
            if ValidEntry(e, sensitive) then Ok(e) else Err(InvalidEntry)
  }

  /** The entry at the front of `rest`, and what follows its end marker. */
  function ParseFirst(rest: string, sensitive: string -> bool): (r: Result<(Entry, string), Error>)
    ensures r.Ok? ==> |r.value.1| < |rest|
  {
    if !(ENTRY_START <= rest) then Err(BadStart)
    else
      var body := TrimStartCrLf(rest[|ENTRY_START|..]);
      var end := Find(body, ENTRY_END);
      if end.None? then Err(MissingEnd)
      else
        var section := TrimEndCrLf(body[..end.value]);
        if Contains(section, ENTRY_START) then Err(Nested)
        else
          var e := ParseEntry(section, sensitive);
          if e.Err? then Err(e.error) else Ok((e.value, body[end.value + |ENTRY_END|..]))
  }

  function ParseRest(rest: string, entries: seq<Entry>, sensitive: string -> bool): Result<seq<Entry>, Error>
    decreases |rest|
  {
    var r := TrimStartBlank(rest);
    if r == "" then Ok(entries)
    else
      var first := ParseFirst(r, sensitive);
      if first.Err? then Err(first.error)
      else if |entries| + 1 > MAX_ENTRIES then Err(TooMany)
      else ParseRest(first.value.1, entries + [first.value.0], sensitive)
  }

  /** Spaces, tabs and line breaks between entries do not matter; anything else there is an error. */
  lemma {:induction false} BlanksDoNotMatter(blanks: string, rest: string, entries: seq<Entry>, sensitive: string -> bool)
    requires forall c :: c in blanks ==> c in {' ', '\t', '\r', '\n'}
    ensures ParseRest(blanks + rest, entries, sensitive) == ParseRest(rest, entries, sensitive)
    ensures rest != "" && rest[0] !in {' ', '\t', '\r', '\n'} && !(ENTRY_START <= rest) ==>
              ParseRest(blanks + rest, entries, sensitive) == Err(BadStart)
  {
    hide ParseFirst;
    BlanksAreTrimmed(blanks, rest);
    if rest != "" && rest[0] !in {' ', '\t', '\r', '\n'} && !(ENTRY_START <= rest) { NoStart(rest, sensitive); }
  }

  lemma {:induction false} BlanksAreTrimmed(blanks: string, rest: string)
    requires forall c :: c in blanks ==> c in {' ', '\t', '\r', '\n'}
    ensures TrimStartBlank(blanks + rest) == TrimStartBlank(rest)
  {
    if blanks == "" {
      assert blanks + rest == rest;
    } else {
      assert (blanks + rest)[1..] == blanks[1..] + rest && blanks[0] in blanks;
      assert forall c :: c in blanks[1..] ==> c in blanks;
      BlanksAreTrimmed(blanks[1..], rest);
    }
  }

  lemma NoStart(rest: string, sensitive: string -> bool)
    requires !(ENTRY_START <= rest)
    ensures ParseFirst(rest, sensitive) == Err(BadStart)
  {
  }

  function Parsed(content: string, sensitive: string -> bool): Result<seq<Entry>, Error> {
    if HEADER <= content then ParseRest(content[|HEADER|..], [], sensitive) else Err(MissingHeader)
  }

  /* ---------- the loops of the source ---------- */

  method ParseEntries(content: string, sensitive: string -> bool) returns (r: Result<seq<Entry>, Error>)
    ensures r == Parsed(content, sensitive)
  {
    hide ParseFirst, TrimStartBlank;
    if !(HEADER <= content) {
      return Err(MissingHeader);
    }
    var rest := content[|HEADER|..];
    var entries: seq<Entry> := [];
    while true
      invariant ParseRest(rest, entries, sensitive) == Parsed(content, sensitive)
      decreases |rest|
    {
      var trimmed := TrimStartBlank(rest);
      if trimmed == "" {
        return Ok(entries);
      }
      var first := ParseFirst(trimmed, sensitive);
      if first.Err? {
        return Err(first.error);
      }
      entries := entries + [first.value.0];
      if |entries| > MAX_ENTRIES {
        return Err(TooMany);
      }
      rest := first.value.1;
    }
  }

  /** Renders a list of valid entries within the limits of the file. */
  method RenderEntries(entries: seq<Entry>, sensitive: string -> bool) returns (r: Result<string, Error>)
    ensures r == Rendered(entries, sensitive)
  {
    hide ValidEntry, RenderEntry;
    if |entries| > MAX_ENTRIES {
      return Err(TooMany);
    }
    var output := HEADER;
    assert entries[..0] == [];
    assert HEADER + "" == HEADER;
    for i := 0 to |entries|
      invariant forall j :: 0 <= j < i ==> ValidEntry(entries[j], sensitive)
      invariant output == HEADER + RenderAll(entries[..i])
    {
      if !ValidEntry(entries[i], sensitive) {
        return Err(InvalidEntry);
      }
      RenderAllSnoc(entries[..i], entries[i]);
      assert entries[..i] + [entries[i]] == entries[..i + 1];
      assert HEADER + RenderAll(entries[..i]) + RenderEntry(entries[i]) == HEADER + (RenderAll(entries[..i]) + RenderEntry(entries[i]));
      output := output + RenderEntry(entries[i]);
    }
    assert entries[..|entries|] == entries;
    if ByteLen(output) > MAX_MEMORY_BYTES {
      return Err(TooLarge);
    }
    return Ok(output);
  }

  function Rendered(entries: seq<Entry>, sensitive: string -> bool): Result<string, Error> {
    if |entries| > MAX_ENTRIES then Err(TooMany)
    else if exists i :: 0 <= i < |entries| && !ValidEntry(entries[i], sensitive) then Err(InvalidEntry)
    else if ByteLen(HEADER + RenderAll(entries)) > MAX_MEMORY_BYTES then Err(TooLarge)
    else Ok(HEADER + RenderAll(entries))
  }

  lemma {:induction false} RenderAllSnoc(es: seq<Entry>, e: Entry)
    ensures RenderAll(es + [e]) == RenderAll(es) + RenderEntry(e)
  {
    hide RenderEntry;
    if es == [] {
      assert es + [e] == [e] && [e][1..] == [];
      assert "" + RenderEntry(e) == RenderEntry(e) + "";
    } else {
      assert (es + [e])[1..] == es[1..] + [e];
      RenderAllSnoc(es[1..], e);
      var a, b, c := RenderEntry(es[0]), RenderAll(es[1..]), RenderEntry(e);
      assert a + (b + c) == a + b + c;
    }
  }
}
