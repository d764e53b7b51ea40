/** Model of the batch updates and of the optimistic consolidation of the workspace
    memory (src/auto_memory.rs). An entry list is read as the map from lower-cased
    titles to entries; where a title occurs twice, its first entry counts.
 */
module MemoryUpdates {
  import opened Wrappers
  import opened TextBasics
  import opened MemoryCodec

  const MAX_BATCH: nat := 8
  const MAX_OPERATIONS: nat := 16
  const MIN_SESSIONS: nat := 5
  const MAX_TRACKED_SESSIONS: nat := 64
  const MIN_INTERVAL_MS: nat := 24 * 60 * 60 * 1000

  type Session = nat

  datatype Consolidation = Consolidation(lastConsolidatedAt: nat, sessions: seq<Session>)

  datatype Operations = Operations(updates: seq<Entry>, deleteTitles: seq<string>)

  datatype Snapshot = Snapshot(entries: seq<Entry>, lastConsolidatedAt: nat, reviewed: set<Session>)

  datatype Failure = Invalid | TooManyEntries | Unreadable(error: Error) | Unwritable(error: Error) | Changed

  datatype Outcome<+T> = Done(value: T) | Failed(failure: Failure)

  /* ---------- titles ---------- */

  function Key(e: Entry): string { Lower(e.title) }

  /** The first entry with lower-cased title `key`. */
  function Lookup(es: seq<Entry>, key: string): Option<Entry> {
    if es == [] then None
    else if Key(es[0]) == key then Some(es[0])
    else Lookup(es[1..], key)
  }

  ghost predicate UniqueTitles(es: seq<Entry>) {
    forall i, j :: 0 <= i < j < |es| ==> Key(es[i]) != Key(es[j])
  }

  /* ---------- one update ---------- */

  /** Replaces the first entry with the same title, or appends. */
  function Update(es: seq<Entry>, e: Entry): seq<Entry> {
    if es == [] then [e]
    else if Key(es[0]) == Key(e) then [e] + es[1..]
    else [es[0]] + Update(es[1..], e)
  }

  lemma {:induction false} UpdateOverrides(es: seq<Entry>, e: Entry, key: string)
    ensures Lookup(Update(es, e), key) == if key == Key(e) then Some(e) else Lookup(es, key)
  {
    hide Key;
    if es != [] && Key(es[0]) != Key(e) {
      UpdateOverrides(es[1..], e, key);
    }
  }

  lemma {:induction false} UpdateKeys(es: seq<Entry>, e: Entry)
    ensures |Update(es, e)| == |es| + (if Lookup(es, Key(e)).Some? then 0 else 1)
    ensures forall i :: 0 <= i < |Update(es, e)| ==>
              Key(Update(es, e)[i]) == if i < |es| then Key(es[i]) else Key(e)
  {
    hide Key;
    if es != [] && Key(es[0]) != Key(e) {
      UpdateKeys(es[1..], e);
    }
  }

  lemma {:induction false} LookupFinds(es: seq<Entry>, key: string)
    ensures Lookup(es, key).Some? <==> exists i :: 0 <= i < |es| && Key(es[i]) == key
    ensures Lookup(es, key).Some? ==> Lookup(es, key).value in es && Key(Lookup(es, key).value) == key
  {
    hide Key;
    if es != [] {
      LookupFinds(es[1..], key);
      if exists i :: 0 <= i < |es| && Key(es[i]) == key {
        var i :| 0 <= i < |es| && Key(es[i]) == key;
        if i > 0 { assert es[1..][i - 1] == es[i]; }
      }
    }
  }

  lemma {:induction false} UpdateKeepsUnique(es: seq<Entry>, e: Entry)
    requires UniqueTitles(es)
    ensures UniqueTitles(Update(es, e))
  {
    hide Key, Update;
    UpdateKeys(es, e);
    LookupFinds(es, Key(e));
  }

  /* ---------- a batch of updates ---------- */

  ghost function UpdateAll(es: seq<Entry>, batch: seq<Entry>): seq<Entry>
    decreases |batch|
  {
    if batch == [] then es else UpdateAll(Update(es, batch[0]), batch[1..])
  }

  /** A batch with distinct titles overrides the map. */
  lemma {:induction false} BatchOverrides(es: seq<Entry>, batch: seq<Entry>, key: string)
    requires UniqueTitles(batch)
    ensures Lookup(UpdateAll(es, batch), key)
         == if Lookup(batch, key).Some? then Lookup(batch, key) else Lookup(es, key)
    decreases |batch|
  {
    hide Key, Update;
    if batch != [] {
      BatchOverrides(Update(es, batch[0]), batch[1..], key);
      UpdateOverrides(es, batch[0], key);
      LookupFinds(batch[1..], key);
    }
  }

  lemma {:induction false} BatchKeepsUnique(es: seq<Entry>, batch: seq<Entry>)
    requires UniqueTitles(es)
    ensures UniqueTitles(UpdateAll(es, batch))
    decreases |batch|
  {
    hide UniqueTitles;
    if batch != [] {
      UpdateKeepsUnique(es, batch[0]);
      BatchKeepsUnique(Update(es, batch[0]), batch[1..]);
    }
  }

  /** How many entries of a batch say something new. */
  ghost function NewsIn(es: seq<Entry>, batch: seq<Entry>): nat {
    if batch == [] then 0 else (if Lookup(es, Key(batch[0])) == Some(batch[0]) then 0 else 1) + NewsIn(es, batch[1..])
  }

  lemma {:induction false} NewsIsStable(es: seq<Entry>, e: Entry, batch: seq<Entry>)
    requires forall i :: 0 <= i < |batch| ==> Key(batch[i]) != Key(e)
    ensures NewsIn(Update(es, e), batch) == NewsIn(es, batch)
  {
    hide Key, Update;
    if batch != [] {
      UpdateOverrides(es, e, Key(batch[0]));
      NewsIsStable(es, e, batch[1..]);
    }
  }

  lemma {:induction false} NoNewsNoChange(es: seq<Entry>, batch: seq<Entry>)
    requires NewsIn(es, batch) == 0
    ensures UpdateAll(es, batch) == es
    decreases |batch|
  {
    hide Key;
    if batch != [] {
      UpdateSame(es, batch[0]);
      NoNewsNoChange(es, batch[1..]);
    }
  }

  lemma {:induction false} UpdateSame(es: seq<Entry>, e: Entry)
    requires Lookup(es, Key(e)) == Some(e)
    ensures Update(es, e) == es
  {
    hide Key;
    if Key(es[0]) != Key(e) { UpdateSame(es[1..], e); }
  }

  /** The first position of a title. */
  method IndexOfTitle(es: seq<Entry>, title: string) returns (index: Option<nat>)
    ensures index.Some? ==> index.value < |es| && Lower(es[index.value].title) == Lower(title)
    ensures forall i :: 0 <= i < (if index.Some? then index.value else |es|) ==> Lower(es[i].title) != Lower(title)
  {
    for i := 0 to |es|
      invariant forall j :: 0 <= j < i ==> Lower(es[j].title) != Lower(title)
    {
      if Lower(es[i].title) == Lower(title) {
        return Some(i);
      }
    }
    return None;
  }

  lemma {:induction false} UpdateAtIndex(es: seq<Entry>, e: Entry, n: nat)
    requires n <= |es| && (n < |es| ==> Key(es[n]) == Key(e))
    requires forall i :: 0 <= i < n ==> Key(es[i]) != Key(e)
    ensures Update(es, e) == if n < |es| then es[n := e] else es + [e]
    ensures Lookup(es, Key(e)) == if n < |es| then Some(es[n]) else None
  {
    hide Key;
    if es == [] {
    } else if n == 0 {
      assert es[0 := e] == [e] + es[1..];
    } else {
      UpdateAtIndex(es[1..], e, n - 1);
      assert es == [es[0]] + es[1..];
    }
  }

  /** The update loop shared by `remember_many` and `apply_consolidation`: the list grows to
      at most the entry limit, and the number of entries that said something new is counted. */
  method ApplyUpdates(es: seq<Entry>, batch: seq<Entry>) returns (r: Outcome<(seq<Entry>, nat)>)
    requires UniqueTitles(batch)
    ensures r.Done? ==> r.value == (UpdateAll(es, batch), NewsIn(es, batch))
    ensures r.Failed? <==> exists i :: 0 <= i < |batch| && Overflows(es, batch, i)
    ensures r.Failed? ==> r.failure == TooManyEntries
  {
    hide Key, Lower, Update, UpdateAll, NewsIn, Lookup, UniqueTitles;
    var entries := es;
    var changed := 0;
    assert batch[0..] == batch && batch[..0] == [] && batch[|batch|..] == [];
    NothingToUpdate(es);
    for n := 0 to |batch|
      invariant UpdateAll(entries, batch[n..]) == UpdateAll(es, batch)
      invariant changed + NewsIn(entries, batch[n..]) == NewsIn(es, batch)
      invariant entries == UpdateAll(es, batch[..n])
      invariant forall i :: 0 <= i < n ==> !Overflows(es, batch, i)
    {
      var e := batch[n];
      var index := IndexOfTitle(entries, e.title);
      UpdateAtIndexOfTitle(entries, e, index);
      BatchStep(es, entries, batch, n);
      if index.Some? {
        if entries[index.value] != e {
          entries := entries[index.value := e];
          changed := changed + 1;
        } else {
          assert entries[index.value := e] == entries;
        }
      } else {
        if |entries| >= MAX_ENTRIES {
          assert Overflows(es, batch, n);
          return Failed(TooManyEntries);
        }
        entries := entries + [e];
        changed := changed + 1;
      }
    }
    NothingToUpdate(entries);
    return Done((entries, changed));
  }

  lemma NothingToUpdate(es: seq<Entry>)
    ensures UpdateAll(es, []) == es && NewsIn(es, []) == 0
  {
  }

  /** The update at position `n` of a batch, seen from both sides. */
  lemma {:induction false} BatchStep(es: seq<Entry>, entries: seq<Entry>, batch: seq<Entry>, n: nat)
    requires n < |batch| && UniqueTitles(batch)
    ensures var e := batch[n];
            && UpdateAll(entries, batch[n..]) == UpdateAll(Update(entries, e), batch[n + 1..])
            && NewsIn(entries, batch[n..])
               == (if Lookup(entries, Key(e)) == Some(e) then 0 else 1) + NewsIn(Update(entries, e), batch[n + 1..])
            && UpdateAll(es, batch[..n + 1]) == Update(UpdateAll(es, batch[..n]), e)
  {
    hide Key, Update, Lookup;
    var e := batch[n];
    assert batch[n..][0] == e && batch[n..][1..] == batch[n + 1..] && batch[n..] != [];
    NewsIsStable(entries, e, batch[n + 1..]);
    UpdateAllSnoc(es, batch[..n], e);
    assert batch[..n] + [e] == batch[..n + 1];
  }

  /** The update `i` of a batch would append to a full list. */
  ghost predicate Overflows(es: seq<Entry>, batch: seq<Entry>, i: nat)
    requires i < |batch|
  {
    var before := UpdateAll(es, batch[..i]);
    Lookup(before, Key(batch[i])).None? && |before| >= MAX_ENTRIES
  }

  lemma UpdateAtIndexOfTitle(es: seq<Entry>, e: Entry, index: Option<nat>)
    requires index.Some? ==> index.value < |es| && Lower(es[index.value].title) == Lower(e.title)
    requires forall i :: 0 <= i < (if index.Some? then index.value else |es|) ==> Lower(es[i].title) != Lower(e.title)
    ensures Update(es, e) == if index.Some? then es[index.value := e] else es + [e]
    ensures Lookup(es, Key(e)) == if index.Some? then Some(es[index.value]) else None
  {
    hide Lower;
    UpdateAtIndex(es, e, if index.Some? then index.value else |es|);
  }

  lemma {:induction false} UpdateAllSnoc(es: seq<Entry>, batch: seq<Entry>, e: Entry)
    ensures UpdateAll(es, batch + [e]) == Update(UpdateAll(es, batch), e)
    decreases |batch|
  {
    hide Update;
    if batch == [] {
      assert batch + [e] == [e] && [e][1..] == [];
    } else {
      assert (batch + [e])[1..] == batch[1..] + [e];
      UpdateAllSnoc(Update(es, batch[0]), batch[1..], e);
    }
  }

  /* ---------- deletions ---------- */

  function Retain(es: seq<Entry>, deleted: set<string>): seq<Entry> {
    if es == [] then []
    else if Key(es[0]) in deleted then Retain(es[1..], deleted)
    else [es[0]] + Retain(es[1..], deleted)
  }

  lemma {:induction false} RetainRemoves(es: seq<Entry>, deleted: set<string>, key: string)
    ensures Lookup(Retain(es, deleted), key) == if key in deleted then None else Lookup(es, key)
    ensures |Retain(es, deleted)| <= |es|
    ensures |Retain(es, deleted)| == |es| ==> Retain(es, deleted) == es
  {
    hide Key;
    if es != [] { RetainRemoves(es[1..], deleted, key); }
  }

  lemma {:induction false} RetainKeepsUnique(es: seq<Entry>, deleted: set<string>)
    requires UniqueTitles(es)
    ensures UniqueTitles(Retain(es, deleted))
    ensures forall e :: e in Retain(es, deleted) ==> e in es
  {
    hide Key;
    if es != [] {
      RetainKeepsUnique(es[1..], deleted);
      var tail := Retain(es[1..], deleted);
      forall i | 0 <= i < |tail| ensures Key(tail[i]) != Key(es[0]) {
        assert tail[i] in es[1..];
      }
    }
  }

  /* ---------- the sort by title ---------- */

  predicate Less(a: string, b: string) {
    b != "" && (a == "" || a[0] < b[0] || (a[0] == b[0] && Less(a[1..], b[1..])))
  }

  /** The texts agree up to `k`, and there `a` has the smaller character. */
  ghost predicate SmallerAt(a: string, b: string, k: nat) {
    k < |a| && k < |b| && a[..k] == b[..k] && a[k] < b[k]
  }

  /** The order of the sort is the lexicographic one: a proper beginning comes first, and else the
      first character that differs decides. */
  lemma {:induction false} LessIsLexicographic(a: string, b: string)
    ensures Less(a, b) <==> a < b || exists k :: SmallerAt(a, b, k)
  {
    if a != "" && b != "" {
      if a[0] == b[0] {
        LessIsLexicographic(a[1..], b[1..]);
        assert a == [a[0]] + a[1..] && b == [b[0]] + b[1..];
        forall k: nat ensures SmallerAt(a, b, k + 1) <==> SmallerAt(a[1..], b[1..], k) { SmallerLater(a, b, k); }
        SmallerLater(a, b, 0);
        hide SmallerAt;
        assert forall k: nat :: SmallerAt(a, b, k) ==> k > 0 && SmallerAt(a, b, (k - 1) + 1) && SmallerAt(a[1..], b[1..], k - 1);
      } else {
        forall k: nat ensures SmallerAt(a, b, k) <==> k == 0 && a[0] < b[0] { SmallerFirst(a, b, k); }
        hide SmallerAt;
        assert SmallerAt(a, b, 0) <==> a[0] < b[0];
      }
    }
  }

  lemma SmallerLater(a: string, b: string, k: nat)
    requires a != "" && b != "" && a[0] == b[0]
    ensures !SmallerAt(a, b, 0) && (SmallerAt(a, b, k + 1) <==> SmallerAt(a[1..], b[1..], k))
  {
    if k < |a| - 1 && k < |b| - 1 {
      assert a[..k + 1] == [a[0]] + a[1..][..k] && b[..k + 1] == [b[0]] + b[1..][..k];
    }
  }

  lemma SmallerFirst(a: string, b: string, k: nat)
    requires a != "" && b != "" && a[0] != b[0]
    ensures SmallerAt(a, b, k) <==> k == 0 && a[0] < b[0]
  {
    if 0 < k <= |a| && k <= |b| { assert a[..k][0] == a[0] && b[..k][0] == b[0]; }
  }

  /** Puts an entry in front of the first one that does not sort below it. */
  function Insert(e: Entry, es: seq<Entry>): seq<Entry> {
    if es == [] || !Less(Key(es[0]), Key(e)) then [e] + es else [es[0]] + Insert(e, es[1..])
  }

  /** The stable sort by lower-cased title. */
  function Sort(es: seq<Entry>): seq<Entry> {
    if es == [] then [] else Insert(es[0], Sort(es[1..]))
  }

  lemma {:induction false} InsertLookup(e: Entry, es: seq<Entry>, key: string)
    ensures Lookup(Insert(e, es), key) == if Key(e) == key then Some(e) else Lookup(es, key)
    ensures multiset(Insert(e, es)) == multiset{e} + multiset(es)
  {
    hide Key, Less;
    if es != [] {
      assert es == [es[0]] + es[1..];
      LessIsStrict(Key(es[0]));
      if Less(Key(es[0]), Key(e)) { InsertLookup(e, es[1..], key); }
    }
  }

  lemma {:induction false} LessIsStrict(a: string)
    ensures !Less(a, a)
  {
    if a != "" { LessIsStrict(a[1..]); }
  }

  /** Sorting permutes the list and leaves the title map alone. */
  lemma {:induction false} SortKeepsMap(es: seq<Entry>, key: string)
    ensures Lookup(Sort(es), key) == Lookup(es, key)
    ensures multiset(Sort(es)) == multiset(es)
  {
    hide Key, Insert;
    if es != [] {
      SortKeepsMap(es[1..], key);
      InsertLookup(es[0], Sort(es[1..]), key);
      assert es == [es[0]] + es[1..];
    }
  }

  ghost predicate Sorted(es: seq<Entry>) {
    forall i :: 0 < i < |es| ==> !Less(Key(es[i]), Key(es[i - 1]))
  }

  lemma {:induction false} LessIsTotal(a: string, b: string)
    ensures Less(a, b) ==> !Less(b, a)
  {
    if a != "" && b != "" { LessIsTotal(a[1..], b[1..]); }
  }

  lemma {:induction false} InsertSorts(e: Entry, es: seq<Entry>)
    requires Sorted(es)
    ensures Sorted(Insert(e, es))
    ensures Insert(e, es) != [] && (Insert(e, es)[0] == e || (es != [] && Insert(e, es)[0] == es[0]))
  {
    hide Key, Less;
    if es != [] && Less(Key(es[0]), Key(e)) {
      assert forall i :: 0 < i < |es[1..]| ==> es[1..][i] == es[i + 1] && es[1..][i - 1] == es[i];
      InsertSorts(e, es[1..]);
      LessIsTotal(Key(es[0]), Key(e));
      var t := Insert(e, es[1..]);
      assert !Less(Key(t[0]), Key(es[0])) by {
        if t[0] != e { assert es[1..][0] == es[1]; }
      }
    }
  }

  lemma {:induction false} SortSorts(es: seq<Entry>)
    ensures Sorted(Sort(es))
  {
    hide Sorted;
    EmptySorted();
    if es != [] {
      SortSorts(es[1..]);
      InsertSorts(es[0], Sort(es[1..]));
    }
  }

  lemma EmptySorted()
    ensures Sorted([])
  {
  }

  lemma {:induction false} InsertKeepsUnique(e: Entry, es: seq<Entry>)
    requires UniqueTitles(es) && Lookup(es, Key(e)).None?
    ensures UniqueTitles(Insert(e, es))
  {
    hide Key, Less;
    LookupFinds(es, Key(e));
    if es != [] && Less(Key(es[0]), Key(e)) {
      InsertKeepsUnique(e, es[1..]);
      var t := Insert(e, es[1..]);
      forall i | 0 <= i < |t| ensures Key(t[i]) != Key(es[0]) {
        InsertLookup(e, es[1..], Key(t[i]));
        LookupFinds(es[1..], Key(t[i]));
        LookupFinds(t, Key(t[i]));
        if Key(t[i]) != Key(e) {
          var j :| 0 <= j < |es[1..]| && Key(es[1..][j]) == Key(t[i]);
          assert es[1..][j] == es[j + 1];
        }
      }
    }
  }

  lemma {:induction false} SortKeepsUnique(es: seq<Entry>)
    requires UniqueTitles(es)
    ensures UniqueTitles(Sort(es))
  {
    hide Key, Insert;
    if es != [] {
      SortKeepsUnique(es[1..]);
      LookupFinds(es[1..], Key(es[0]));
      SortKeepsMap(es[1..], Key(es[0]));
      InsertKeepsUnique(es[0], Sort(es[1..]));
    }
  }

  /* ---------- validation ---------- */

  ghost predicate ValidBatch(batch: seq<Entry>, limit: nat, sensitive: string -> bool) {
    && |batch| <= limit && UniqueTitles(batch)
    && (forall i :: 0 <= i < |batch| ==> ValidEntry(batch[i], sensitive))
  }

  predicate ValidDeleteTitle(title: string) {
    && !IsBlank(title) && !IsWhitespace(title[0]) && !IsWhitespace(title[|title| - 1])
    && ByteLen(title) <= MAX_TITLE_BYTES && '\0' !in title
  }

  /** A title to delete has neither blanks around it nor a zero in it. */
  lemma ValidDeleteTitleIs(title: string)
    ensures ValidDeleteTitle(title) <==>
            && title != "" && ByteLen(title) <= 128 && (forall c :: c in title ==> c != '\0')
            && !IsWhitespace(title[0]) && !IsWhitespace(title[|title| - 1])
  {
    hide ByteLen, IsWhitespace;
  }

  ghost predicate ValidOperations(ops: Operations, sensitive: string -> bool) {
    && ValidBatch(ops.updates, MAX_OPERATIONS, sensitive) && |ops.deleteTitles| <= MAX_OPERATIONS
    && (forall i :: 0 <= i < |ops.deleteTitles| ==> ValidDeleteTitle(ops.deleteTitles[i]))
    && (forall i, j :: 0 <= i < j < |ops.deleteTitles| ==> Lower(ops.deleteTitles[i]) != Lower(ops.deleteTitles[j]))
    && (forall i, j :: 0 <= i < |ops.deleteTitles| && 0 <= j < |ops.updates| ==>
          Lower(ops.deleteTitles[i]) != Key(ops.updates[j]))
  }

  method CheckBatch(batch: seq<Entry>, limit: nat, sensitive: string -> bool)
    returns (valid: bool, titles: set<string>)
    ensures valid <==> ValidBatch(batch, limit, sensitive)
    ensures valid ==> titles == set i | 0 <= i < |batch| :: Key(batch[i])
  {
    hide Lower, ValidEntry;
    titles := {};
    if |batch| > limit {
      return false, {};
    }
    for n := 0 to |batch|
      invariant UniqueTitles(batch[..n]) && forall i :: 0 <= i < n ==> ValidEntry(batch[i], sensitive)
      invariant titles == set i | 0 <= i < n :: Key(batch[i])
    {
      assert Key(batch[n]) in titles ==> exists i :: 0 <= i < n && Key(batch[i]) == Key(batch[n]);
      if !ValidEntry(batch[n], sensitive) || Key(batch[n]) in titles {
        return false, {};
      }
      assert batch[..n + 1] == batch[..n] + [batch[n]];
      titles := titles + {Key(batch[n])};
    }
    assert batch[..|batch|] == batch;
    valid := true;
  }

  method CheckOperations(ops: Operations, sensitive: string -> bool) returns (valid: bool, deletes: set<string>)
    ensures valid <==> ValidOperations(ops, sensitive)
    ensures valid ==> deletes == DeleteKeys(ops)
  {
    hide Lower, ValidBatch, ValidDeleteTitle;
    deletes := {};
    if |ops.deleteTitles| > MAX_OPERATIONS {
      return false, {};
    }
    var updatesValid, updates := CheckBatch(ops.updates, MAX_OPERATIONS, sensitive);
    if !updatesValid {
      return false, {};
    }
    var titles := ops.deleteTitles;
    for n := 0 to |titles|
      invariant forall i :: 0 <= i < n ==> ValidDeleteTitle(titles[i]) && Lower(titles[i]) !in updates
      invariant forall i, j :: 0 <= i < j < n ==> Lower(titles[i]) != Lower(titles[j])
      invariant deletes == set i | 0 <= i < n :: Lower(titles[i])
    {
      assert Lower(titles[n]) in deletes ==> exists i :: 0 <= i < n && Lower(titles[i]) == Lower(titles[n]);
      assert Lower(titles[n]) in updates ==> exists j :: 0 <= j < |ops.updates| && Key(ops.updates[j]) == Lower(titles[n]);
      if !ValidDeleteTitle(titles[n]) || Lower(titles[n]) in deletes || Lower(titles[n]) in updates {
        return false, {};
      }
      deletes := deletes + {Lower(titles[n])};
    }
    valid := true;
  }

  function DeleteKeys(ops: Operations): set<string> {
    set i | 0 <= i < |ops.deleteTitles| :: Lower(ops.deleteTitles[i])
  }

  /* ---------- what a committed change means ---------- */

  /** `after` is `before` without the deleted titles, overridden by the batch. */
  ghost predicate IsOverride(before: seq<Entry>, deleted: set<string>, batch: seq<Entry>, after: seq<Entry>) {
    && (forall key :: Lookup(after, key)
                      == if Lookup(batch, key).Some? then Lookup(batch, key)
                         else if key in deleted then None else Lookup(before, key))
    && (UniqueTitles(before) ==> UniqueTitles(after))
    && Sorted(after)
  }

  lemma {:induction false} SortedUpdatesOverride(es: seq<Entry>, deleted: set<string>, batch: seq<Entry>)
    requires UniqueTitles(batch)
    ensures IsOverride(es, deleted, batch, Sort(UpdateAll(Retain(es, deleted), batch)))
  {
    hide Key, UniqueTitles, Sort;
    var kept := Retain(es, deleted);
    var updated := UpdateAll(kept, batch);
    forall key ensures Lookup(Sort(updated), key)
                    == if Lookup(batch, key).Some? then Lookup(batch, key)
                       else if key in deleted then None else Lookup(es, key)
    {
      SortKeepsMap(updated, key);
      BatchOverrides(kept, batch, key);
      RetainRemoves(es, deleted, key);
    }
    if UniqueTitles(es) {
      RetainKeepsUnique(es, deleted);
      BatchKeepsUnique(kept, batch);
      SortKeepsUnique(updated);
    }
    SortSorts(updated);
  }

  lemma {:induction false} NothingDeleted(es: seq<Entry>)
    ensures Retain(es, {}) == es
  {
    hide Key;
    if es != [] { NothingDeleted(es[1..]); }
  }

  function NewSession(state: Consolidation, session: Session): Consolidation {
    if session in state.sessions then state
    else
      var all := state.sessions + [session];
      state.(sessions := if |all| > MAX_TRACKED_SESSIONS then all[|all| - MAX_TRACKED_SESSIONS..] else all)
  }

  function Unreviewed(sessions: seq<Session>, reviewed: set<Session>): seq<Session> {
    if sessions == [] then []
    else if sessions[0] in reviewed then Unreviewed(sessions[1..], reviewed)
    else [sessions[0]] + Unreviewed(sessions[1..], reviewed)
  }

  /** What was not reviewed keeps its order. */
  lemma {:induction false} UnreviewedInOrder(sessions: seq<Session>, last: Session, reviewed: set<Session>)
    ensures Unreviewed(sessions + [last], reviewed) == Unreviewed(sessions, reviewed) + if last in reviewed then [] else [last]
  {
    if sessions == [] {
      assert sessions + [last] == [last];
    } else {
      assert (sessions + [last])[1..] == sessions[1..] + [last];
      UnreviewedInOrder(sessions[1..], last, reviewed);
    }
  }

  lemma {:induction false} UnreviewedKeeps(sessions: seq<Session>, reviewed: set<Session>, session: Session)
    ensures session in Unreviewed(sessions, reviewed) <==> session in sessions && session !in reviewed
  {
    if sessions != [] { UnreviewedKeeps(sessions[1..], reviewed, session); }
  }

  /* ---------- what each operation does to file and state ---------- */

  datatype Memory = Memory(file: string, state: Consolidation)

  const NEW_MEMORY: Memory := Memory(HEADER, Consolidation(0, []))

  /** The file after `remember_many`, and its result. */
  ghost function Remembered(file: string, incoming: seq<Entry>, sensitive: string -> bool): (string, Outcome<nat>) {
    if !ValidBatch(incoming, MAX_BATCH, sensitive) then (file, Failed(Invalid))
    else if incoming == [] then (file, Done(0))
    else
      match Parsed(file, sensitive)
      case Err(error) => (file, Failed(Unreadable(error)))
      case Ok(es) =>
        if Overfills(es, {}, incoming) then (file, Failed(TooManyEntries))
        else
          match Rendered(Sort(Updated(es, {}, incoming)), sensitive)
          case Err(error) => (file, Failed(Unwritable(error)))
          case Ok(text) => (if NewsIn(es, incoming) > 0 then text else file, Done(NewsIn(es, incoming)))
  }

  /** The file after `forget`, and whether there was such an entry. */
  ghost function Forgotten(file: string, title: string, sensitive: string -> bool): (string, Outcome<bool>) {
    if title == "" || ByteLen(title) > MAX_TITLE_BYTES then (file, Failed(Invalid))
    else
      match Parsed(file, sensitive)
      case Err(error) => (file, Failed(Unreadable(error)))
      case Ok(es) =>
        var kept := Retain(es, {Lower(title)});
        if |kept| == |es| then (file, Done(false))
        else
          match Rendered(kept, sensitive)
          case Err(error) => (file, Failed(Unwritable(error)))
          case Ok(text) => (text, Done(true))
  }

  /** A review is due a day after the last one, once enough sessions have been registered. */
  predicate IsDue(state: Consolidation, now: nat) {
    state.lastConsolidatedAt + MIN_INTERVAL_MS <= now && |state.sessions| >= MIN_SESSIONS
  }

  /** What a review is to look at, if one is due and there is anything to look at. */
  function ReviewOf(m: Memory, now: nat, sensitive: string -> bool): Outcome<Option<Snapshot>> {
    if !IsDue(m.state, now) then Done(None)
    else
      match Parsed(m.file, sensitive)
      case Err(error) => Failed(Unreadable(error))
      case Ok(es) =>
        if es == [] then Done(None)
        else Done(Some(Snapshot(es, m.state.lastConsolidatedAt, set s | s in m.state.sessions)))
  }

  /** Memory after `apply_consolidation`, and its result. */
  ghost function Consolidated(m: Memory, snapshot: Snapshot, ops: Operations, now: nat, sensitive: string -> bool)
    : (Memory, Outcome<nat>)
  {
    if !ValidOperations(ops, sensitive) then (m, Failed(Invalid))
    else if m.state.lastConsolidatedAt != snapshot.lastConsolidatedAt then (m, Done(0))
    else if Parsed(m.file, sensitive).Err? then (m, Failed(Unreadable(Parsed(m.file, sensitive).error)))
    else if Parsed(m.file, sensitive).value != snapshot.entries then (m, Failed(Changed))
    else if Overfills(snapshot.entries, DeleteKeys(ops), ops.updates) then (m, Failed(TooManyEntries))
    else
      var es, deleted := snapshot.entries, DeleteKeys(ops);
      var changed := |es| - |Retain(es, deleted)| + NewsIn(Retain(es, deleted), ops.updates);
      var rendered := Rendered(Sort(Updated(es, deleted, ops.updates)), sensitive);
      if changed > 0 && rendered.Err? then (m, Failed(Unwritable(rendered.error)))
      else
        (Memory(if changed > 0 then rendered.value else m.file,
                Consolidation(now, Unreviewed(m.state.sessions, snapshot.reviewed))),
         Done(if changed > 0 then changed else 0))
  }

  /* ---------- the memory object ---------- */

  /** The memory file as text, and the consolidation state beside it. Each method runs
      under the store's lock; clock readings are parameters. */
  class AutoMemory {
    var file: string
    var state: Consolidation

    function View(): Memory
      reads this
    {
      Memory(file, state)
    }

    constructor ()
      ensures View() == NEW_MEMORY
    {
      file, state := HEADER, Consolidation(0, []);
    }

    /** Validates and applies a batch as one replacement of the file; anything that is
        wrong with the batch, the file or the result leaves the file as it was. */
    method RememberMany(incoming: seq<Entry>, sensitive: string -> bool) returns (r: Outcome<nat>)
      modifies this
      ensures (file, r) == Remembered(old(file), incoming, sensitive)
      ensures state == old(state)
      ensures r.Failed? ==> file == old(file)
      ensures !ValidBatch(incoming, MAX_BATCH, sensitive) ==> r == Failed(Invalid)
      ensures r.Done? && incoming != [] ==>
                && Committed(old(file), {}, incoming, file, r.value, sensitive)
                && r.value == NewsIn(Parsed(old(file), sensitive).value, incoming)
      ensures r.Done? && incoming == [] ==> file == old(file) && r.value == 0
      ensures r.Done? <==>
                && ValidBatch(incoming, MAX_BATCH, sensitive)
                && (incoming != [] ==>
                      && Parsed(old(file), sensitive).Ok?
                      && var es := Parsed(old(file), sensitive).value;
                         !Overfills(es, {}, incoming) && Rendered(Sort(Updated(es, {}, incoming)), sensitive).Ok?)
    {
      hide Parsed, Rendered, UniqueTitles, Sort, Key, ValidEntry, Committed;
      var valid, titles := CheckBatch(incoming, MAX_BATCH, sensitive);
      if !valid {
        return Failed(Invalid);
      }
      if incoming == [] {
        return Done(0);
      }
      var loaded := ParseEntries(file, sensitive);
      if loaded.Err? {
        return Failed(Unreadable(loaded.error));
      }
      BatchIsUnique(incoming, MAX_BATCH, sensitive);
      NothingDeleted(loaded.value);
      var updated := ApplyUpdates(loaded.value, incoming);
      if updated.Failed? {
        return Failed(updated.failure);
      }
      var (entries, changed) := updated.value;
      var sorted := Sort(entries);
      var rendered := RenderEntries(sorted, sensitive);
      if rendered.Err? {
        return Failed(Unwritable(rendered.error));
      }
      if changed > 0 {
        file := rendered.value;
      } else {
        NoNewsNoChange(loaded.value, incoming);
      }
      IsCommit(old(file), {}, incoming, loaded.value, entries, file, changed, sensitive);
      return Done(changed);
    }

    /** Removes the entry with a title, whatever its case. */
    method Forget(title: string, sensitive: string -> bool) returns (r: Outcome<bool>)
      modifies this
      ensures (file, r) == Forgotten(old(file), title, sensitive)
      ensures state == old(state)
      ensures r != Done(true) ==> file == old(file)
      ensures r.Done? ==>
                && Parsed(old(file), sensitive).Ok?
                && var es := Parsed(old(file), sensitive).value;
                   && (r.value <==> Lookup(es, Lower(title)).Some?)
                   && (r.value ==> exists kept ::
                         && Rendered(kept, sensitive) == Ok(file)
                         && forall key :: Lookup(kept, key) == if key == Lower(title) then None else Lookup(es, key))
    {
      hide Parsed, Rendered, Key;
      if title == "" || ByteLen(title) > MAX_TITLE_BYTES {
        return Failed(Invalid);
      }
      var loaded := ParseEntries(file, sensitive);
      if loaded.Err? {
        return Failed(Unreadable(loaded.error));
      }
      var kept := Retain(loaded.value, {Lower(title)});
      forall key ensures Lookup(kept, key) == if key == Lower(title) then None else Lookup(loaded.value, key) {
        RetainRemoves(loaded.value, {Lower(title)}, key);
      }
      RetainAll(loaded.value, Lower(title));
      if |kept| == |loaded.value| {
        return Done(false);
      }
      var rendered := RenderEntries(kept, sensitive);
      if rendered.Err? {
        return Failed(Unwritable(rendered.error));
      }
      file := rendered.value;
      return Done(true);
    }

    /** Registers a session and, when a review is due, returns what is to be reviewed. */
    method PrepareConsolidation(session: Session, now: nat, sensitive: string -> bool)
      returns (r: Outcome<Option<Snapshot>>)
      modifies this
      ensures file == old(file) && state == NewSession(old(state), session)
      ensures r == ReviewOf(View(), now, sensitive)
      ensures r.Failed? <==> IsDue(state, now) && Parsed(file, sensitive).Err?
      ensures r.Done? && r.value.Some? <==> IsDue(state, now) && Parsed(file, sensitive).Ok? && Parsed(file, sensitive).value != []
      ensures r.Done? && r.value.Some? ==> IsDueSnapshot(file, state, now, r.value.value, sensitive)
    {
      hide Parsed;
      if session !in state.sessions {
        var sessions := state.sessions + [session];
        if |sessions| > MAX_TRACKED_SESSIONS {
          sessions := sessions[|sessions| - MAX_TRACKED_SESSIONS..];
        }
        state := state.(sessions := sessions);
      }
      if now < state.lastConsolidatedAt + MIN_INTERVAL_MS || |state.sessions| < MIN_SESSIONS {
        return Done(None);
      }
      var loaded := ParseEntries(file, sensitive);
      if loaded.Err? {
        return Failed(Unreadable(loaded.error));
      }
      if loaded.value == [] {
        return Done(None);
      }
      var reviewed := set s | s in state.sessions;
      return Done(Some(Snapshot(loaded.value, state.lastConsolidatedAt, reviewed)));
    }

    /** Commits the operations decided on a snapshot, unless another consolidation has
        committed since (nothing happens) or the entries have changed (it fails). */
    method ApplyConsolidation(snapshot: Snapshot, ops: Operations, now: nat, sensitive: string -> bool)
      returns (r: Outcome<nat>)
      modifies this
      ensures (View(), r) == Consolidated(old(View()), snapshot, ops, now, sensitive)
      ensures r.Failed? ==> file == old(file) && state == old(state)
      ensures !ValidOperations(ops, sensitive) ==> r == Failed(Invalid)
      ensures ValidOperations(ops, sensitive) && old(state).lastConsolidatedAt != snapshot.lastConsolidatedAt ==>
                r == Done(0) && file == old(file) && state == old(state)
      ensures r.Done? && old(state).lastConsolidatedAt == snapshot.lastConsolidatedAt ==>
                && Parsed(old(file), sensitive) == Ok(snapshot.entries)
                && Committed(old(file), DeleteKeys(ops), ops.updates, file, r.value, sensitive)
                && state == Consolidation(now, Unreviewed(old(state).sessions, snapshot.reviewed))
      ensures ValidOperations(ops, sensitive) && old(state).lastConsolidatedAt == snapshot.lastConsolidatedAt ==>
                var es, deleted := snapshot.entries, DeleteKeys(ops);
                (r.Done? <==>
                   && Parsed(old(file), sensitive) == Ok(es) && !Overfills(es, deleted, ops.updates)
                   && (|Retain(es, deleted)| < |es| || NewsIn(Retain(es, deleted), ops.updates) > 0 ==>
                         Rendered(Sort(Updated(es, deleted, ops.updates)), sensitive).Ok?))
    {
      hide Parsed, Rendered, UniqueTitles, Sort, Key, ValidEntry, DeleteKeys, Committed, ValidBatch;
      var valid, deletes := CheckOperations(ops, sensitive);
      if !valid {
        return Failed(Invalid);
      }
      if state.lastConsolidatedAt != snapshot.lastConsolidatedAt {
        return Done(0);
      }
      var loaded := ParseEntries(file, sensitive);
      if loaded.Err? {
        return Failed(Unreadable(loaded.error));
      }
      if loaded.value != snapshot.entries {
        return Failed(Changed);
      }
      var kept := Retain(loaded.value, deletes);
      RetainRemoves(loaded.value, deletes, "");
      BatchIsUnique(ops.updates, MAX_OPERATIONS, sensitive);
      var updated := ApplyUpdates(kept, ops.updates);
      if updated.Failed? {
        return Failed(updated.failure);
      }
      var (entries, changed) := updated.value;
      changed := |loaded.value| - |kept| + changed;
      if changed > 0 {
        var rendered := RenderEntries(Sort(entries), sensitive);
        if rendered.Err? {
          return Failed(Unwritable(rendered.error));
        }
        file := rendered.value;
      } else {
        NoNewsNoChange(kept, ops.updates);
      }
      IsCommit(old(file), deletes, ops.updates, loaded.value, entries, file, changed, sensitive);
      state := Consolidation(now, Unreviewed(state.sessions, snapshot.reviewed));
      return Done(changed);
    }
  }

  /** Nothing goes exactly if no entry has the title. */
  lemma {:induction false} RetainAll(es: seq<Entry>, key: string)
    ensures |Retain(es, {key})| <= |es|
    ensures |Retain(es, {key})| == |es| <==> Lookup(es, key).None?
  {
    hide Key;
    if es != [] { RetainAll(es[1..], key); }
  }

  /** The updated list of a change. */
  ghost function Updated(es: seq<Entry>, deleted: set<string>, batch: seq<Entry>): seq<Entry> {
    UpdateAll(Retain(es, deleted), batch)
  }

  /** Some update of the batch would overfill the list. */
  ghost predicate Overfills(es: seq<Entry>, deleted: set<string>, batch: seq<Entry>) {
    exists i :: 0 <= i < |batch| && Overflows(Retain(es, deleted), batch, i)
  }

  /** The file holds the overridden map; it is rewritten only when something changed. */
  ghost predicate Committed(before: string, deleted: set<string>, batch: seq<Entry>, after: string, changed: nat,
                            sensitive: string -> bool)
  {
    && Parsed(before, sensitive).Ok?
    && var es := Parsed(before, sensitive).value;
       exists es' ::
         && IsOverride(es, deleted, batch, es')
         && (if changed > 0 then Rendered(es', sensitive) == Ok(after) else after == before && multiset(es') == multiset(es))
  }

  lemma BatchIsUnique(batch: seq<Entry>, limit: nat, sensitive: string -> bool)
    requires ValidBatch(batch, limit, sensitive)
    ensures UniqueTitles(batch)
  {
    hide UniqueTitles;
  }

  lemma {:induction false} IsCommit(before: string, deleted: set<string>, batch: seq<Entry>, es: seq<Entry>,
                                    updated: seq<Entry>, after: string, changed: nat, sensitive: string -> bool)
    requires UniqueTitles(batch) && Parsed(before, sensitive) == Ok(es)
    requires updated == UpdateAll(Retain(es, deleted), batch)
    requires if changed > 0 then Rendered(Sort(updated), sensitive) == Ok(after) else after == before && updated == es
    ensures Committed(before, deleted, batch, after, changed, sensitive)
  {
    hide Parsed, Rendered, UniqueTitles, Sort, Retain, UpdateAll, IsOverride;
    SortedUpdatesOverride(es, deleted, batch);
    SortKeepsMap(updated, "");
  }

  ghost predicate IsDueSnapshot(file: string, state: Consolidation, now: nat, snapshot: Snapshot, sensitive: string -> bool) {
    && Parsed(file, sensitive) == Ok(snapshot.entries) && snapshot.entries != []
    && snapshot.lastConsolidatedAt == state.lastConsolidatedAt
    && snapshot.lastConsolidatedAt + MIN_INTERVAL_MS <= now
    && snapshot.reviewed == (set s | s in state.sessions) && |state.sessions| >= MIN_SESSIONS
  }

  /* ---------- interleaved reviews ---------- */

  /** Two reviews that overlap in time never both commit: once the first has, the second
      leaves the file alone. Sessions registered after the first snapshot are kept for the
      next review. */
  method OverlappingReviews(memory: AutoMemory, a: Session, b: Session, times: seq<nat>,
                            opsA: Operations, opsB: Operations, sensitive: string -> bool)
    returns (committed: bool, between: string)
    requires |times| == 4 && times[0] <= times[1] <= times[2] <= times[3]
    modifies memory
    ensures committed ==> memory.file == between
    ensures committed ==> memory.state.lastConsolidatedAt == times[2]
    ensures committed && b !in old(memory.state.sessions) && b != a ==> b in memory.state.sessions
  {
    hide Parsed, ValidOperations, Committed, DeleteKeys;
    between := memory.file;
    var first := memory.PrepareConsolidation(a, times[0], sensitive);
    NewestIsTracked(memory.state, b);
    assert b !in old(memory.state.sessions) && b != a ==> b !in memory.state.sessions;
    var second := memory.PrepareConsolidation(b, times[1], sensitive);
    if first.Failed? || second.Failed? || first.value.None? || second.value.None? {
      return false, between;
    }
    UnreviewedKeeps(memory.state.sessions, first.value.value.reviewed, b);
    var commitA := memory.ApplyConsolidation(first.value.value, opsA, times[2], sensitive);
    between := memory.file;
    committed := commitA.Done? && memory.state.lastConsolidatedAt == times[2];
    if committed {
      var commitB := memory.ApplyConsolidation(second.value.value, opsB, times[3], sensitive);
    }
  }

  lemma NewestIsTracked(state: Consolidation, session: Session)
    ensures session in NewSession(state, session).sessions
  {
    var sessions := NewSession(state, session).sessions;
    assert session !in state.sessions ==> sessions[|sessions| - 1] == session;
  }

  /** What is remembered while a review is running is never overwritten by it. */
  method RememberDuringReview(memory: AutoMemory, session: Session, now: nat, later: nat,
                              incoming: seq<Entry>, ops: Operations, sensitive: string -> bool)
    returns (reviewed: bool, remembered: string, changedEntries: bool)
    modifies memory
    ensures reviewed && changedEntries ==> memory.file == remembered
  {
    hide Parsed, ValidBatch, ValidOperations, Committed, DeleteKeys;
    var snapshot := memory.PrepareConsolidation(session, now, sensitive);
    var batch := memory.RememberMany(incoming, sensitive);
    remembered := memory.file;
    if snapshot.Failed? || snapshot.value.None? {
      return false, remembered, false;
    }
    reviewed := true;
    changedEntries := Parsed(remembered, sensitive) != Ok(snapshot.value.value.entries);
    var commit := memory.ApplyConsolidation(snapshot.value.value, ops, later, sensitive);
  }
}
