/** The workspace memory over whole runs (src/auto_memory.rs): any sequence of batches, removals,
    registrations and consolidations, starting from the empty file.
 */
module MemoryRuns {
  import opened Wrappers
  import opened TextBasics
  import opened MemoryCodec
  import opened MemoryRoundTrip
  import opened MemoryUpdates

  datatype Op =
    | Remember(incoming: seq<Entry>)
    | Forget(title: string)
    | Prepare(session: Session, now: nat)
    | Consolidate(snapshot: Snapshot, operations: Operations, now: nat)

  ghost function After(m: Memory, op: Op, sensitive: string -> bool): Memory {
    match op
    case Remember(incoming) => m.(file := Remembered(m.file, incoming, sensitive).0)
    case Forget(title) => m.(file := Forgotten(m.file, title, sensitive).0)
    case Prepare(session, _) => m.(state := NewSession(m.state, session))
    case Consolidate(snapshot, operations, now) => Consolidated(m, snapshot, operations, now, sensitive).0
  }

  ghost predicate IsRun(ops: seq<Op>, ms: seq<Memory>, sensitive: string -> bool) {
    && |ms| == |ops| + 1 && ms[0] == NEW_MEMORY
    && forall i :: 0 <= i < |ops| ==> ms[i + 1] == After(ms[i], ops[i], sensitive)
  }

  /** A consolidation that was decided on the current snapshot and went through. */
  ghost predicate Commits(m: Memory, op: Op, sensitive: string -> bool) {
    && op.Consolidate? && ValidOperations(op.operations, sensitive)
    && m.state.lastConsolidatedAt == op.snapshot.lastConsolidatedAt
    && Consolidated(m, op.snapshot, op.operations, op.now, sensitive).1.Done?
  }

  /** The entries that an operation writes into the file; none if it does not rewrite it. */
  ghost function Written(m: Memory, op: Op, sensitive: string -> bool): seq<Entry> {
    match op
    case Remember(incoming) =>
      var r := Remembered(m.file, incoming, sensitive).1;
      if r.Done? && r.value > 0 then incoming else []
    case Forget(_) => []
    case Prepare(_, _) => []
    case Consolidate(snapshot, operations, now) =>
      var r := Consolidated(m, snapshot, operations, now, sensitive).1;
      if Commits(m, op, sensitive) && r.value > 0 then operations.updates else []
  }

  ghost predicate AllReadable(es: seq<Entry>, sensitive: string -> bool) {
    forall i :: 0 <= i < |es| ==> Readable(es[i], sensitive)
  }

  /** The file can be read, its titles are unique, and its entries survive being written and
      read again. */
  ghost predicate FileOk(file: string, sensitive: string -> bool) {
    && Parsed(file, sensitive).Ok?
    && var es := Parsed(file, sensitive).value;
       UniqueTitles(es) && AllReadable(es, sensitive) && StrippedAll(es) == es
  }

  /* ---------- one rewrite of the file ---------- */

  function StrippedAll(es: seq<Entry>): seq<Entry> {
    seq(|es|, i requires 0 <= i < |es| => Stripped(es[i]))
  }

  function StrippedOption(e: Option<Entry>): Option<Entry> {
    if e.None? then None else Some(Stripped(e.value))
  }

  lemma {:induction false} StrippedLookup(es: seq<Entry>, key: string)
    ensures Lookup(StrippedAll(es), key) == StrippedOption(Lookup(es, key))
  {
    hide TrimEndCrLf;
    if es != [] {
      StrippedLookup(es[1..], key);
      assert StrippedAll(es)[1..] == StrippedAll(es[1..]);
      assert Key(Stripped(es[0])) == Key(es[0]);
    }
  }

  lemma StrippedKeepsUnique(es: seq<Entry>)
    requires UniqueTitles(es)
    ensures UniqueTitles(StrippedAll(es))
  {
    hide TrimEndCrLf, Lower;
    assert forall i :: 0 <= i < |es| ==> Key(Stripped(es[i])) == Key(es[i]);
  }

  lemma {:induction false} TrimmedTwice(s: string)
    ensures TrimEndCrLf(TrimEndCrLf(s)) == TrimEndCrLf(s)
    decreases |s|
  {
    if s != "" && IsCrLf(s[|s| - 1]) { TrimmedTwice(s[..|s| - 1]); }
  }

  lemma StrippedIsReadable(e: Entry, sensitive: string -> bool)
    requires Readable(e, sensitive)
    ensures Readable(Stripped(e), sensitive)
  {
    hide AnyContains;
    TrimmedTwice(e.content);
  }

  lemma StrippedListReadable(es: seq<Entry>, sensitive: string -> bool)
    requires AllReadable(es, sensitive)
    ensures AllReadable(StrippedAll(es), sensitive) && StrippedAll(StrippedAll(es)) == StrippedAll(es)
  {
    hide Readable, TrimEndCrLf;
    forall i | 0 <= i < |es| ensures Readable(StrippedAll(es)[i], sensitive) && Stripped(StrippedAll(es)[i]) == StrippedAll(es)[i] {
      StrippedIsReadable(es[i], sensitive);
      TrimmedTwice(es[i].content);
    }
  }

  /** Updating keeps every entry of the batch and adds nothing but old entries. */
  lemma {:induction false} UpdatedMembers(es: seq<Entry>, batch: seq<Entry>, e: Entry)
    ensures e in UpdateAll(es, batch) ==> e in es || e in batch
    decreases |batch|
  {
    hide Key, Update;
    if batch != [] {
      UpdatedMembers(Update(es, batch[0]), batch[1..], e);
      UpdateMembers(es, batch[0], e);
    }
  }

  lemma {:induction false} UpdateMembers(es: seq<Entry>, b: Entry, e: Entry)
    ensures e in Update(es, b) ==> e in es || e == b
  {
    hide Key;
    if es != [] && Key(es[0]) != Key(b) { UpdateMembers(es[1..], b, e); }
  }

  lemma {:induction false} BatchIsThere(es: seq<Entry>, batch: seq<Entry>, i: nat)
    requires UniqueTitles(batch) && i < |batch|
    ensures batch[i] in UpdateAll(es, batch)
  {
    hide Key, UpdateAll;
    BatchOverrides(es, batch, Key(batch[i]));
    LookupFinds(batch, Key(batch[i]));
    LookupFinds(UpdateAll(es, batch), Key(batch[i]));
    var b := Lookup(batch, Key(batch[i])).value;
    var j :| 0 <= j < |batch| && batch[j] == b;
    assert j == i;
  }

  lemma SortedMembers(es: seq<Entry>, e: Entry)
    ensures e in Sort(es) <==> e in es
  {
    hide Sort;
    SortKeepsMap(es, "");
    assert e in multiset(Sort(es)) <==> e in multiset(es);
  }

  lemma {:induction false} RetainedMembers(es: seq<Entry>, deleted: set<string>, e: Entry)
    ensures e in Retain(es, deleted) ==> e in es
  {
    hide Key;
    if es != [] { RetainedMembers(es[1..], deleted, e); }
  }

  /** A list that is sorted after deleting and updating is readable exactly if the batch is,
      given that the old entries are. */
  lemma {:induction false} UpdatedReadable(es: seq<Entry>, deleted: set<string>, batch: seq<Entry>, sensitive: string -> bool)
    requires UniqueTitles(batch) && AllReadable(es, sensitive)
    ensures AllReadable(Sort(Updated(es, deleted, batch)), sensitive) <==> AllReadable(batch, sensitive)
  {
    hide Readable, Sort, UpdateAll, Retain, UniqueTitles;
    var updated := Updated(es, deleted, batch);
    var sorted := Sort(updated);
    if AllReadable(sorted, sensitive) {
      forall i | 0 <= i < |batch| ensures Readable(batch[i], sensitive) {
        BatchIsThere(Retain(es, deleted), batch, i);
        SortedMembers(updated, batch[i]);
        var j :| 0 <= j < |sorted| && sorted[j] == batch[i];
      }
    }
    if AllReadable(batch, sensitive) {
      forall j | 0 <= j < |sorted| ensures Readable(sorted[j], sensitive) {
        SortedMembers(updated, sorted[j]);
        UpdatedMembers(Retain(es, deleted), batch, sorted[j]);
        RetainedMembers(es, deleted, sorted[j]);
      }
    }
  }

  /** Rewriting a sound file: the new one can be read exactly if every entry of the batch is
      readable. It is then sound again, and its title map is the old one without the deleted
      titles, overridden by the batch, as the parser reads contents. */
  lemma {:induction false} RewriteReadsBack(file: string, deleted: set<string>, batch: seq<Entry>, text: string,
                                            sensitive: string -> bool)
    requires FileOk(file, sensitive) && UniqueTitles(batch)
    requires Rendered(Sort(Updated(Parsed(file, sensitive).value, deleted, batch)), sensitive) == Ok(text)
    ensures Parsed(text, sensitive).Ok? <==> AllReadable(batch, sensitive)
    ensures Parsed(text, sensitive).Ok? ==>
              && FileOk(text, sensitive)
              && forall key :: Lookup(Parsed(text, sensitive).value, key)
                               == if Lookup(batch, key).Some? then Some(Stripped(Lookup(batch, key).value))
                                  else if key in deleted then None
                                  else Lookup(Parsed(file, sensitive).value, key)
  {
    hide Parsed, Rendered, Readable, Sort, UpdateAll, Retain, UniqueTitles, Stripped;
    var es := Parsed(file, sensitive).value;
    var es' := Sort(Updated(es, deleted, batch));
    UpdatedReadable(es, deleted, batch, sensitive);
    RoundTrip(es', sensitive);
    if AllReadable(es', sensitive) {
      assert Parsed(text, sensitive) == Ok(StrippedAll(es'));
      SortedUpdatesOverride(es, deleted, batch);
      assert UniqueTitles(es');
      StrippedKeepsUnique(es');
      StrippedListReadable(es', sensitive);
      forall key ensures Lookup(StrippedAll(es'), key)
                         == if Lookup(batch, key).Some? then Some(Stripped(Lookup(batch, key).value))
                            else if key in deleted then None else Lookup(es, key)
      {
        StrippedLookup(es', key);
        StrippedLookup(es, key);
      }
    }
  }

  /** Removing entries from a sound file gives a sound file with just the others. */
  lemma {:induction false} RemovalReadsBack(file: string, deleted: set<string>, text: string, sensitive: string -> bool)
    requires FileOk(file, sensitive) && Rendered(Retain(Parsed(file, sensitive).value, deleted), sensitive) == Ok(text)
    ensures Parsed(text, sensitive) == Ok(Retain(Parsed(file, sensitive).value, deleted)) && FileOk(text, sensitive)
  {
    hide Parsed, Rendered, Readable, Retain, UniqueTitles, Stripped;
    var es := Parsed(file, sensitive).value;
    var kept := Retain(es, deleted);
    forall i | 0 <= i < |kept| ensures Readable(kept[i], sensitive) && Stripped(kept[i]) == kept[i] {
      RetainedMembers(es, deleted, kept[i]);
      var j :| 0 <= j < |es| && es[j] == kept[i];
      assert StrippedAll(es)[j] == Stripped(es[j]);
    }
    RoundTrip(kept, sensitive);
    assert StrippedAll(kept) == kept;
    RetainKeepsUnique(es, deleted);
  }

  /* ---------- whole runs ---------- */

  /** An operation on a sound file keeps it sound exactly if whatever it writes is readable. */
  lemma {:induction false} StepKeepsFile(m: Memory, op: Op, sensitive: string -> bool)
    requires FileOk(m.file, sensitive)
    ensures var file := After(m, op, sensitive).file;
            && (Parsed(file, sensitive).Ok? <==> AllReadable(Written(m, op, sensitive), sensitive))
            && (Parsed(file, sensitive).Ok? ==> FileOk(file, sensitive))
  {
    hide Parsed, Rendered, Readable, Sort, UpdateAll, Retain, UniqueTitles, ValidEntry, Overfills, NewsIn, FileOk, NewSession,
         Unreviewed, DeleteKeys, ByteLen, Lower;
    SoundIsParsed(m.file, sensitive);
    match op {
      case Remember(incoming) =>
        var (file, r) := Remembered(m.file, incoming, sensitive);
        if r.Done? && r.value > 0 {
          BatchIsUnique(incoming, MAX_BATCH, sensitive);
          RewriteReadsBack(m.file, {}, incoming, file, sensitive);
        }
      case Forget(title) =>
        var (file, r) := Forgotten(m.file, title, sensitive);
        if r == Done(true) { RemovalReadsBack(m.file, {Lower(title)}, file, sensitive); }
      case Prepare(_, _) =>
      case Consolidate(snapshot, operations, now) =>
        var (m', r) := Consolidated(m, snapshot, operations, now, sensitive);
        if Commits(m, op, sensitive) && r.value > 0 {
          BatchIsUnique(operations.updates, MAX_OPERATIONS, sensitive);
          RewriteReadsBack(m.file, DeleteKeys(operations), operations.updates, m'.file, sensitive);
        } else {
          NoCommitNoChange(m, snapshot, operations, now, sensitive);
        }
    }
  }

  lemma SoundIsParsed(file: string, sensitive: string -> bool)
    requires FileOk(file, sensitive)
    ensures Parsed(file, sensitive).Ok?
  {
  }

  lemma NoCommitNoChange(m: Memory, snapshot: Snapshot, ops: Operations, now: nat, sensitive: string -> bool)
    ensures var (m', r) := Consolidated(m, snapshot, ops, now, sensitive);
            m'.file != m.file ==> r.Done? && r.value > 0 && Commits(m, Consolidate(snapshot, ops, now), sensitive)
  {
    hide Parsed, Rendered, Overfills, NewsIn, ValidOperations, Sort, Retain, Unreviewed, DeleteKeys, Updated;
  }

  /** Once the file cannot be read, nothing rewrites it. */
  lemma {:induction false} UnreadableStays(m: Memory, op: Op, sensitive: string -> bool)
    requires Parsed(m.file, sensitive).Err?
    ensures After(m, op, sensitive).file == m.file && Written(m, op, sensitive) == []
    ensures op.Remember? && op.incoming != [] ==> Remembered(m.file, op.incoming, sensitive).1.Failed?
    ensures op.Forget? ==> Forgotten(m.file, op.title, sensitive).1.Failed?
    ensures op.Consolidate? ==> !Commits(m, op, sensitive)
  {
    hide ByteLen, Lower, Retain, Parsed, Rendered, ValidBatch, ValidOperations, Overfills, NewsIn, Sort, Updated, NewSession;
  }

  /** From the empty file on, however batches, removals and consolidations follow one another: the file can
      be read if and only if every entry ever written was readable. As long as it can, its titles
      are unique and its entries survive being written and read again. */
  lemma {:induction false} FileIsReadableExactly(ops: seq<Op>, ms: seq<Memory>, n: nat, sensitive: string -> bool)
    requires IsRun(ops, ms, sensitive) && n <= |ops|
    ensures Parsed(ms[n].file, sensitive).Ok? <==>
            forall k :: 0 <= k < n ==> AllReadable(Written(ms[k], ops[k], sensitive), sensitive)
    ensures Parsed(ms[n].file, sensitive).Ok? ==> FileOk(ms[n].file, sensitive)
  {
    hide Parsed, FileOk, After, Written, AllReadable;
    if n == 0 {
      EmptyFileOk(sensitive);
    } else {
      FileIsReadableExactly(ops, ms, n - 1, sensitive);
      assert ms[n - 1 + 1] == After(ms[n - 1], ops[n - 1], sensitive);
      if Parsed(ms[n - 1].file, sensitive).Ok? {
        StepKeepsFile(ms[n - 1], ops[n - 1], sensitive);
      } else {
        UnreadableStays(ms[n - 1], ops[n - 1], sensitive);
      }
    }
  }

  lemma EmptyFileOk(sensitive: string -> bool)
    ensures FileOk(NEW_MEMORY.file, sensitive) && Parsed(HEADER, sensitive) == Ok([])
  {
    assert HEADER[|HEADER|..] == "";
    EmptyIsBlank();
    assert StrippedAll([]) == [];
  }

  /** Once the file cannot be read, no batch, no removal and no consolidation ever goes through again. */
  lemma {:induction false} UnreadableForGood(ops: seq<Op>, ms: seq<Memory>, k: nat, n: nat, sensitive: string -> bool)
    requires IsRun(ops, ms, sensitive) && k <= n < |ops| && Parsed(ms[k].file, sensitive).Err?
    ensures ms[n].file == ms[k].file
    ensures ops[n].Remember? && ops[n].incoming != [] ==> Remembered(ms[n].file, ops[n].incoming, sensitive).1.Failed?
    ensures ops[n].Forget? ==> Forgotten(ms[n].file, ops[n].title, sensitive).1.Failed?
    ensures !Commits(ms[n], ops[n], sensitive)
    decreases n - k
  {
    hide Parsed, After, Remembered, Forgotten, Commits;
    if k < n {
      UnreadableForGood(ops, ms, k, n - 1, sensitive);
      assert ms[n - 1 + 1] == After(ms[n - 1], ops[n - 1], sensitive);
      UnreadableStays(ms[n - 1], ops[n - 1], sensitive);
    }
    UnreadableStays(ms[n], ops[n], sensitive);
    OnlyConsolidationsCommit(ms[n], ops[n], sensitive);
  }

  lemma OnlyConsolidationsCommit(m: Memory, op: Op, sensitive: string -> bool)
    ensures Commits(m, op, sensitive) ==> op.Consolidate?
  {
  }

  /* ---------- one snapshot commits once ---------- */

  predicate ReadsClock(op: Op) { op.Prepare? || op.Consolidate? }

  /** The clock readings of a run, in the order of the operations. */
  ghost predicate ClockRuns(ops: seq<Op>) {
    forall i, j :: 0 <= i < j < |ops| && ReadsClock(ops[i]) && ReadsClock(ops[j]) ==> ops[i].now <= ops[j].now
  }

  /** The snapshot was taken by an earlier operation. */
  ghost predicate TakenBefore(ops: seq<Op>, ms: seq<Memory>, k: nat, snapshot: Snapshot, sensitive: string -> bool)
    requires |ms| == |ops| + 1 && k <= |ops|
  {
    exists i :: 0 <= i < k && ops[i].Prepare? && ReviewOf(ms[i + 1], ops[i].now, sensitive) == Done(Some(snapshot))
  }

  lemma {:induction false} CommitTimesGrow(ops: seq<Op>, ms: seq<Memory>, j: nat, n: nat, sensitive: string -> bool)
    requires IsRun(ops, ms, sensitive) && ClockRuns(ops) && j < n <= |ops| && Commits(ms[j], ops[j], sensitive)
    ensures ms[n].state.lastConsolidatedAt >= ops[j].now
    decreases n - j
  {
    hide Parsed, Remembered, ValidOperations, Overfills, Rendered, NewsIn, Retain, Updated, Sort, Unreviewed, DeleteKeys;
    assert ms[n - 1 + 1] == After(ms[n - 1], ops[n - 1], sensitive);
    if n > j + 1 {
      CommitTimesGrow(ops, ms, j, n - 1, sensitive);
    }
  }

  /** Of all consolidations decided on what the memory was at one and the same last
      consolidation, at most one commits, whatever happens before, between and after. */
  lemma {:induction false} SnapshotCommitsOnce(ops: seq<Op>, ms: seq<Memory>, j: nat, k: nat, sensitive: string -> bool)
    requires IsRun(ops, ms, sensitive) && ClockRuns(ops) && j < k < |ops| && ops[j].Consolidate? && ops[k].Consolidate?
    requires TakenBefore(ops, ms, j, ops[j].snapshot, sensitive)
    requires Commits(ms[j], ops[j], sensitive) && ops[k].snapshot.lastConsolidatedAt == ops[j].snapshot.lastConsolidatedAt
    ensures !Commits(ms[k], ops[k], sensitive) && After(ms[k], ops[k], sensitive) == ms[k]
  {
    hide Parsed, ValidOperations, Overfills, Rendered, NewsIn, Retain, Updated, Sort, Unreviewed, DeleteKeys;
    CommitTimesGrow(ops, ms, j, k, sensitive);
    var i :| 0 <= i < j && ops[i].Prepare? && ReviewOf(ms[i + 1], ops[i].now, sensitive) == Done(Some(ops[j].snapshot));
    assert ops[i].now <= ops[j].now;
  }

  /* ---------- entries that are accepted and cannot be read back ---------- */

  /** Any accepted entry that is not readable makes an empty memory unreadable for good. */
  lemma {:induction false} AcceptedEntryBreaksFile(e: Entry, sensitive: string -> bool)
    requires ValidEntry(e, sensitive) && !Readable(e, sensitive) && Rendered([e], sensitive).Ok?
    ensures var (file, r) := Remembered(HEADER, [e], sensitive);
            r == Done(1) && Parsed(file, sensitive).Err?
            && forall batch :: batch != [] ==> Remembered(file, batch, sensitive).1.Failed?
  {
    hide Parsed, Rendered, ValidEntry, Readable, Sort;
    EmptyFileOk(sensitive);
    OneEntry(e);
    var (file, r) := Remembered(HEADER, [e], sensitive);
    RewriteReadsBack(HEADER, {}, [e], Rendered([e], sensitive).value, sensitive);
    forall batch: seq<Entry> | batch != [] ensures Remembered(file, batch, sensitive).1.Failed? {
      UnreadableStays(Memory(file, NEW_MEMORY.state), Remember(batch), sensitive);
    }
  }

  lemma OneEntry(e: Entry)
    ensures Sort(Updated([], {}, [e])) == [e] && NewsIn([], [e]) == 1 && !Overfills([], {}, [e]) && UniqueTitles([e])
  {
    hide Key;
    assert [e][1..] == [] && [e][..0] == [];
    assert Retain([], {}) == [];
    assert Update([], e) == [e] && UpdateAll([e], []) == [e];
    assert Sort([e]) == Insert(e, Sort([])) == [e] + [];
  }

  /** An entry with an end marker as its tag, and one whose content is a line break. */
  const MARKER_TAGGED: Entry := Entry("t", [ENTRY_END], "x")
  const BLANK_CONTENT: Entry := Entry("t", [], "\n")

  lemma MarkerTaggedIsAccepted(sensitive: string -> bool)
    requires !sensitive("t") && !sensitive(ENTRY_END) && !sensitive("x")
    ensures ValidEntry(MARKER_TAGGED, sensitive) && !Readable(MARKER_TAGGED, sensitive)
    ensures Rendered([MARKER_TAGGED], sensitive).Ok?
  {
    hide ValidTag, ValidTitle, ValidContent, TagsToJson, AnyContains;
    MarkerIsTag(sensitive);
    ShortTextsAreValid(sensitive);
    MarkerTagsAreShort();
    SmallEntryFits(MARKER_TAGGED, sensitive);
  }

  lemma MarkerIsTag(sensitive: string -> bool)
    requires !sensitive(ENTRY_END)
    ensures ValidTag(ENTRY_END, sensitive) && AnyContains([ENTRY_END], ENTRY_END)
  {
    MarkersArePlain();
    MarkerIsAscii();
    PlainIsTag(ENTRY_END, sensitive);
    FindAtFront(ENTRY_END, "");
    hide ByteLen, IsWhitespace, Find, ENTRY_END;
    assert ENTRY_END + "" == ENTRY_END;
    assert Contains([ENTRY_END][0], ENTRY_END);
  }

  lemma MarkerIsAscii()
    ensures ByteLen(ENTRY_END) == |ENTRY_END|
  {
    hide ByteLen;
    AsciiByteLen(ENTRY_END);
  }

  lemma PlainIsTag(tag: string, sensitive: string -> bool)
    requires PlainMarker(tag) && ByteLen(tag) <= MAX_TAG_BYTES && !sensitive(tag)
    ensures ValidTag(tag, sensitive)
  {
    hide ByteLen;
    assert !IsWhitespace(tag[0]);
  }

  lemma MarkerTagsAreShort()
    ensures |TagsToJson([ENTRY_END])| <= 1000
  {
    MarkersArePlain();
    EscapeBound(ENTRY_END);
    hide Escape;
    assert [ENTRY_END][1..] == [];
    assert QuoteRest([]) == "";
  }

  lemma BlankContentIsAccepted(sensitive: string -> bool)
    requires !sensitive("t") && !sensitive("\n")
    ensures ValidEntry(BLANK_CONTENT, sensitive) && !Readable(BLANK_CONTENT, sensitive)
    ensures Rendered([BLANK_CONTENT], sensitive).Ok?
  {
    ShortTextsAreValid(sensitive);
    TrimNewline();
    SmallEntryFits(BLANK_CONTENT, sensitive);
  }

  lemma ShortTextsAreValid(sensitive: string -> bool)
    ensures !sensitive("t") ==> ValidTitle("t", sensitive)
    ensures !sensitive("x") ==> ValidContent("x", sensitive)
    ensures !sensitive("\n") ==> ValidContent("\n", sensitive)
  {
    assert !IsWhitespace("t"[0]);
    AsciiByteLen("t");
    AsciiByteLen("x");
    AsciiByteLen("\n");
  }

  lemma {:induction false} EscapeBound(s: string)
    ensures |Escape(s)| <= 6 * |s|
  {
    if s != "" {
      assert |EscapeChar(s[0])| <= 6;
      EscapeBound(s[1..]);
    }
  }

  lemma SmallEntryFits(e: Entry, sensitive: string -> bool)
    requires ValidEntry(e, sensitive) && |e.title| <= 1 && |e.content| <= 1 && |TagsToJson(e.tags)| <= 1000
    ensures Rendered([e], sensitive).Ok?
  {
    hide ByteLen, TagsToJson, ValidEntry;
    var text := HEADER + RenderAll([e]);
    assert [e][1..] == [] && RenderAll([]) == "";
    assert RenderAll([e]) == RenderEntry(e) + "";
    assert |text| <= 2000;
    ByteLenBound(text);
  }
}
