/** The titles of the workspace memory (src/auto_memory.rs), with the relation that ignores the case
    of ASCII letters in place of lower-cased keys: which entry a title stands for after a batch, a
    removal and a consolidation.
 */
module MemoryTitles {
  import opened Wrappers
  import opened TextBasics
  import opened MemoryCodec
  import opened MemoryUpdates

  /** The entry that a title stands for: the first one whose title is the same but for case. */
  function EntryFor(es: seq<Entry>, title: string): Option<Entry> {
    if es == [] then None
    else if SameButCase(es[0].title, title) then Some(es[0])
    else EntryFor(es[1..], title)
  }

  /** No two titles are the same but for case. */
  ghost predicate Apart(es: seq<Entry>) {
    forall i, j :: 0 <= i < j < |es| ==> !SameButCase(es[i].title, es[j].title)
  }

  ghost predicate IsAmong(titles: seq<string>, title: string) {
    exists i :: 0 <= i < |titles| && SameButCase(titles[i], title)
  }

  lemma {:induction false} EntryForIsLookup(es: seq<Entry>, title: string)
    ensures EntryFor(es, title) == Lookup(es, Lower(title))
  {
    hide Lower, SameButCase;
    if es != [] {
      LowerIgnoresCase(es[0].title, title);
      EntryForIsLookup(es[1..], title);
    }
  }

  lemma {:induction false} ApartIsUnique(es: seq<Entry>)
    ensures Apart(es) <==> UniqueTitles(es)
  {
    hide Lower, SameButCase;
    forall i, j | 0 <= i < j < |es| ensures SameButCase(es[i].title, es[j].title) <==> Key(es[i]) == Key(es[j]) {
      LowerIgnoresCase(es[i].title, es[j].title);
    }
  }

  /** A batch is valid if its entries are and its titles are apart; operations of a consolidation are
      if besides no title is deleted twice, or both deleted and updated, case ignored. */
  lemma {:induction false} ValidTitlesAreApart(batch: seq<Entry>, limit: nat, ops: Operations, sensitive: string -> bool)
    ensures ValidBatch(batch, limit, sensitive) <==>
            && |batch| <= limit && Apart(batch) && forall i :: 0 <= i < |batch| ==> ValidEntry(batch[i], sensitive)
    ensures ValidOperations(ops, sensitive) <==>
              && |ops.updates| <= 16 && Apart(ops.updates) && (forall i :: 0 <= i < |ops.updates| ==> ValidEntry(ops.updates[i], sensitive))
              && |ops.deleteTitles| <= 16 && (forall i :: 0 <= i < |ops.deleteTitles| ==> ValidDeleteTitle(ops.deleteTitles[i]))
              && (forall i, j :: 0 <= i < j < |ops.deleteTitles| ==> !SameButCase(ops.deleteTitles[i], ops.deleteTitles[j]))
              && (forall j :: 0 <= j < |ops.updates| ==> !IsAmong(ops.deleteTitles, ops.updates[j].title))
  {
    hide Lower, SameButCase, UniqueTitles, Apart, ValidEntry, ValidDeleteTitle;
    ApartIsUnique(batch);
    ApartIsUnique(ops.updates);
    var deletes, updates := ops.deleteTitles, ops.updates;
    forall i, j | 0 <= i < j < |deletes| ensures SameButCase(deletes[i], deletes[j]) <==> Lower(deletes[i]) == Lower(deletes[j]) {
      LowerIgnoresCase(deletes[i], deletes[j]);
    }
    forall i, j | 0 <= i < |deletes| && 0 <= j < |updates|
      ensures SameButCase(deletes[i], updates[j].title) <==> Lower(deletes[i]) == Key(updates[j])
    {
      LowerIgnoresCase(deletes[i], updates[j].title);
    }
  }

  /** `after` is `before` with the entries of the batch in place of those of the same title, and
      without those of the deleted titles. */
  ghost predicate Overrides(before: seq<Entry>, deletes: seq<string>, batch: seq<Entry>, after: seq<Entry>) {
    && (forall title :: EntryFor(after, title)
                        == if EntryFor(batch, title).Some? then EntryFor(batch, title)
                           else if IsAmong(deletes, title) then None else EntryFor(before, title))
    && (Apart(before) ==> Apart(after))
  }

  lemma {:induction false} OverrideIgnoresCase(before: seq<Entry>, deleted: set<string>, deletes: seq<string>, batch: seq<Entry>, after: seq<Entry>)
    requires IsOverride(before, deleted, batch, after) && deleted == set i | 0 <= i < |deletes| :: Lower(deletes[i])
    ensures Overrides(before, deletes, batch, after)
  {
    hide Lower, SameButCase, UniqueTitles, Apart, Sorted;
    ApartIsUnique(before);
    ApartIsUnique(after);
    forall title ensures EntryFor(after, title)
                         == if EntryFor(batch, title).Some? then EntryFor(batch, title)
                            else if IsAmong(deletes, title) then None else EntryFor(before, title)
    {
      EntryForIsLookup(after, title);
      EntryForIsLookup(batch, title);
      EntryForIsLookup(before, title);
      DeletedIgnoresCase(deleted, deletes, title);
    }
  }

  lemma {:induction false} DeletedIgnoresCase(deleted: set<string>, deletes: seq<string>, title: string)
    requires deleted == set i | 0 <= i < |deletes| :: Lower(deletes[i])
    ensures Lower(title) in deleted <==> IsAmong(deletes, title)
  {
    hide Lower, SameButCase;
    forall i | 0 <= i < |deletes| ensures Lower(deletes[i]) == Lower(title) <==> SameButCase(deletes[i], title) {
      LowerIgnoresCase(deletes[i], title);
    }
    if IsAmong(deletes, title) {
      var i :| 0 <= i < |deletes| && SameButCase(deletes[i], title);
      assert Lower(deletes[i]) in deleted;
    }
  }

  /** A batch that is accepted replaces, whatever their case, the entries of its titles, adds the
      others, and keeps every other title. */
  lemma {:induction false} BatchReplacesTitles(file: string, incoming: seq<Entry>, sensitive: string -> bool) returns (after: seq<Entry>)
    requires Remembered(file, incoming, sensitive).1.Done? && incoming != []
    ensures Parsed(file, sensitive).Ok? && Overrides(Parsed(file, sensitive).value, [], incoming, after)
    ensures var (file', r) := Remembered(file, incoming, sensitive);
            Rendered(after, sensitive).Ok? && file' == (if r.value > 0 then Rendered(after, sensitive).value else file)
  {
    hide Parsed, Rendered, Sort, Retain, UpdateAll, ValidEntry, Overfills, NewsIn, IsOverride, Overrides;
    var es := Parsed(file, sensitive).value;
    after := Sort(Updated(es, {}, incoming));
    BatchIsUnique(incoming, MAX_BATCH, sensitive);
    SortedUpdatesOverride(es, {}, incoming);
    OverrideIgnoresCase(es, {}, [], incoming, after);
  }

  /** Forgetting a title removes exactly what it stands for. */
  lemma {:induction false} ForgetRemovesTitle(file: string, title: string, sensitive: string -> bool)
    requires Forgotten(file, title, sensitive).1.Done?
    ensures Parsed(file, sensitive).Ok?
    ensures Forgotten(file, title, sensitive).1.value <==> EntryFor(Parsed(file, sensitive).value, title).Some?
    ensures Forgotten(file, title, sensitive).1.value ==>
              exists kept :: && Rendered(kept, sensitive) == Ok(Forgotten(file, title, sensitive).0)
                             && (forall e :: e in kept <==> e in Parsed(file, sensitive).value && !SameButCase(e.title, title))
                             && (forall t :: EntryFor(kept, t) == if SameButCase(t, title) then None else EntryFor(Parsed(file, sensitive).value, t))
  {
    hide Parsed, Rendered, Retain, Lower, SameButCase, ByteLen;
    var es := Parsed(file, sensitive).value;
    var kept := Retain(es, {Lower(title)});
    EntryForIsLookup(es, title);
    RetainAll(es, Lower(title));
    forall e ensures e in kept <==> e in es && !SameButCase(e.title, title) { KeptTitles(es, title, e); }
    forall t ensures EntryFor(kept, t) == if SameButCase(t, title) then None else EntryFor(es, t) {
      EntryForIsLookup(kept, t);
      EntryForIsLookup(es, t);
      RetainRemoves(es, {Lower(title)}, Lower(t));
      LowerIgnoresCase(t, title);
    }
  }

  lemma {:induction false} KeptTitles(es: seq<Entry>, title: string, e: Entry)
    ensures e in Retain(es, {Lower(title)}) <==> e in es && !SameButCase(e.title, title)
  {
    hide Lower, SameButCase;
    if es != [] {
      LowerIgnoresCase(es[0].title, title);
      KeptTitles(es[1..], title, e);
    }
  }

  /** A consolidation that commits deletes and replaces what its titles stand for. */
  lemma {:induction false} ConsolidationReplacesTitles(m: Memory, snapshot: Snapshot, ops: Operations, now: nat, sensitive: string -> bool)
    returns (after: seq<Entry>)
    requires ValidOperations(ops, sensitive) && m.state.lastConsolidatedAt == snapshot.lastConsolidatedAt
    requires Consolidated(m, snapshot, ops, now, sensitive).1.Done?
    ensures Parsed(m.file, sensitive) == Ok(snapshot.entries) && Overrides(snapshot.entries, ops.deleteTitles, ops.updates, after)
    ensures var (m', r) := Consolidated(m, snapshot, ops, now, sensitive);
            r.value > 0 ==> Rendered(after, sensitive) == Ok(m'.file)
  {
    hide Parsed, Rendered, Sort, Retain, UpdateAll, ValidBatch, Overfills, NewsIn, IsOverride, Overrides, Unreviewed, Lower, ValidDeleteTitle;
    var es := snapshot.entries;
    after := Sort(Updated(es, DeleteKeys(ops), ops.updates));
    BatchIsUnique(ops.updates, MAX_OPERATIONS, sensitive);
    SortedUpdatesOverride(es, DeleteKeys(ops), ops.updates);
    OverrideIgnoresCase(es, DeleteKeys(ops), ops.deleteTitles, ops.updates, after);
  }
}
