/** Keeping a lease (src/cron.rs): on a common clock, a process whose polls come through at least
    every half lease never loses a delivery that it holds.
 */
module LeaseKeeping {
  import opened Wrappers
  import opened TextBasics
  import opened CronPrompts
  import opened CronQueue
  import opened CronOutbox
  import opened CronService
  import opened OutboxProtocol

  /** A poll that got as far as writing its claims. */
  predicate Completes(s: Step, o: Owner) {
    s.Poll? && s.owner == o && (s.stage.DeliveriesClaimed? || s.stage.QueueFilled?)
  }

  /** The time of the last completed poll of `o` among the steps from `m` up to `n`; before the
      first one it is `start`. */
  function LastPoll(steps: seq<Step>, o: Owner, m: nat, n: nat, start: int): int
    requires m <= n <= |steps|
  {
    if n == m then start
    else if Completes(steps[n - 1], o) then steps[n - 1].now
    else LastPoll(steps, o, m, n - 1, start)
  }

  /** As long as the delivery is stored, the process holds it under a lease of its own that
      outlasts half a lease from `last`. */
  ghost predicate Keeps(w: World, o: Owner, id: DeliveryId, last: int) {
    && o in w.procs && id in w.usedIds
    && (forall i :: 0 <= i < |w.store.deliveries| && w.store.deliveries[i].id == id ==>
          IsLeased(w.store.deliveries[i], o, last) && Holds(w.procs[o].memory, id))
  }

  ghost predicate IsLeased(d: Delivery, o: Owner, last: int) {
    d.claim.Some? && d.claim.value.owner == o && d.claim.value.expiresAt > last + LEASE_MS / 2
  }

  /* ---------- polls ---------- */

  /** Where the deliveries of the store are after firing. */
  lemma {:induction false} FiredHaveOtherIds(w: World, s: Step, id: DeliveryId, i: nat)
    requires Inv(w) && s.Poll? && Enabled(w, s) && OutcomesIn(w, s).Some? && id in w.usedIds
    requires var ds := w.store.deliveries + AllFired(OutcomesIn(w, s).value); i < |ds| && ds[i].id == id
    ensures i < |w.store.deliveries|
  {
    hide Inv, Outcomes, AllFired;
    var os, n := OutcomesIn(w, s).value, |w.store.deliveries|;
    if i >= n {
      FiredAreNew(w.store.tasks, s.ids, w.store.deliveries, s.now, s.startup, s.nextRun, i - n);
      assert false;
    }
  }

  /** What a claim pass leaves of a kept lease. */
  lemma {:induction false} PassKeepsLease(ds: seq<Delivery>, c: Claimant, now: int, i: nat, o: Owner, last: int)
    requires UniqueIds(ds) && i < |ds| && IsLeased(ds[i], o, last) && now <= last + LEASE_MS / 2
    requires c.owner == o ==> ds[i].id in c.claimed || ds[i].id in c.queued
    ensures IsLeased(ClaimAll(ds, c, [], now)[i], o, if c.owner == o then now else last)
  {
    hide ClaimAll, StagedBy, InStaged;
    if c.owner == o {
      HeldStaysLeased(ds, c, [], now, i);
    } else {
      ClaimedEach(ds, c, [], now, i);
      assert !Claimable(ds[i], c, now);
    }
  }

  lemma {:induction false} PollKeepsLease(w: World, s: Step, o: Owner, id: DeliveryId, last: int)
    requires Inv(w) && s.Poll? && Enabled(w, s) && Keeps(w, o, id, last) && last <= s.now <= last + LEASE_MS / 2
    ensures Keeps(After(w, s), o, id, if Completes(s, o) then s.now else last)
  {
    hide ProcessesOk, ClaimsOk, GrantsOk, Outcomes, PollWork, ClaimAll, AllFired, AllRemaining, AnyChange, StagedBy, Holds, ClaimantOf, IsLeased, OutboxBytes;
    var w' := After(w, s);
    if OutcomesIn(w, s).None? {
      PollOfNothing(w, s);
    } else {
      PollInParts(w, s);
      FiringKeepsInv(w, s);
      var os, p, m := OutcomesIn(w, s).value, s.owner, w.procs[s.owner].memory;
      var c, ds := ClaimantOf(p, m), w.store.deliveries + AllFired(os);
      PollConservesTasks(w.store, os, c, s.now);
      ClaimantIs(p, m);
      HeldIsListed(m, id, p);
      SameIdsAndPrompts(ds, c, [], s.now);
      assert UniqueIds(ds);
      PollHoldsMore(w, s, id);
      forall i | 0 <= i < |w'.store.deliveries| && w'.store.deliveries[i].id == id
        ensures IsLeased(w'.store.deliveries[i], o, if Completes(s, o) then s.now else last) && Holds(w'.procs[o].memory, id)
      {
        if s.stage.DeliveriesClaimed? || s.stage.QueueFilled? {
          assert w'.store.deliveries == ClaimAll(ds, c, [], s.now);
          FiredHaveOtherIds(w, s, id, i);
          assert w.store.deliveries[i] == ds[i];
          PassKeepsLease(ds, c, s.now, i, o, last);
        } else if s.stage.TasksFired? {
          FiredHaveOtherIds(w, s, id, i);
          assert w.store.deliveries[i] == ds[i];
        }
      }
    }
  }

  /** A poll takes nothing out of any memory. */
  lemma {:induction false} PollHoldsMore(w: World, s: Step, id: DeliveryId)
    requires s.Poll? && Enabled(w, s)
    ensures After(w, s).procs.Keys == w.procs.Keys && w.usedIds <= After(w, s).usedIds
    ensures forall o :: o in w.procs && Holds(w.procs[o].memory, id) ==> Holds(After(w, s).procs[o].memory, id)
  {
    hide Outcomes, AllFired, StagedBy, ClaimAll, DurableIds, DurablePrompts, StoreAfter, MemoryAfter, ClaimantOf, IdSet, Recorded, Holds;
    var os := OutcomesIn(w, s);
    UsedIdsGrow(w, s);
    if os.Some? {
      var m, c := w.procs[s.owner].memory, ClaimantOf(s.owner, w.procs[s.owner].memory);
      var staged := StagedBy(w.store.deliveries + AllFired(os.value), c, [], s.now);
      HeldAfterFilling(m, staged, id);
      var m' := After(w, s).procs[s.owner].memory;
      MemoryAfterPoll(w, s, staged);
      assert Holds(m, id) ==> Holds(m', id);
    }
    forall o | o in w.procs && Holds(w.procs[o].memory, id) ensures Holds(After(w, s).procs[o].memory, id) {
      if o != s.owner { assert After(w, s).procs[o] == w.procs[o]; }
    }
  }

  lemma MemoryAfterPoll(w: World, s: Step, staged: seq<Delivery>)
    requires s.Poll? && Enabled(w, s) && OutcomesIn(w, s).Some?
    requires var m := w.procs[s.owner].memory;
             staged == StagedBy(w.store.deliveries + AllFired(OutcomesIn(w, s).value), ClaimantOf(s.owner, m), [], s.now)
    ensures var m := w.procs[s.owner].memory;
            After(w, s).procs[s.owner].memory
            == if s.stage.QueueFilled? then m.(ready := m.ready + DurablePrompts(staged)) else m
  {
    hide Outcomes, AllFired, StagedBy, StoreAfter, ClaimantOf, DurablePrompts, IdSet, Recorded;
  }

  lemma UsedIdsGrow(w: World, s: Step)
    requires s.Poll? && Enabled(w, s)
    ensures After(w, s).procs.Keys == w.procs.Keys && w.usedIds <= After(w, s).usedIds
  {
    hide Outcomes, StoreAfter, MemoryAfter, IdSet, Recorded, ClaimantOf;
  }

  /* ---------- requests for prompts ---------- */

  lemma {:induction false} AckKeepsLease(w: World, p: Owner, writeOk: bool, i: nat)
    requires Inv(w) && p in w.procs && i < |WithAck(w, p, writeOk).store.deliveries|
    ensures WithAck(w, p, writeOk).store.deliveries[i] in w.store.deliveries
  {
    hide WithinLimits, ProcessesOk, ClaimsOk, GrantsOk, Position;
  }

  /** A delivery that is still stored after an acknowledgement is still held. */
  lemma {:induction false} SettleHoldsStored(w: World, o: Owner, writeOk: bool, id: DeliveryId, i: nat)
    requires Inv(w) && o in w.procs && Holds(w.procs[o].memory, id)
    requires var ds := WithAck(w, o, writeOk).store.deliveries; i < |ds| && ds[i].id == id
    ensures Holds(AfterSettleWork(w, o, writeOk).procs[o].memory, id)
  {
    hide ProcessesOk, ClaimsOk, GrantsOk, OutboxBytes, IdSet, DurableIds;
    var m, ds := w.procs[o].memory, w.store.deliveries;
    var ack := AckOutcomeOf(ds, o, m.pending, writeOk);
    MemoryIsOk(w, o);
    if m.pending == Some(id) {
      PendingStoredMeansRefused(ds, o, id, writeOk, i);
    }
  }

  /** If the pending delivery is still stored, the acknowledgement did not go through. */
  lemma {:induction false} PendingStoredMeansRefused(ds: seq<Delivery>, o: Owner, id: DeliveryId, writeOk: bool, i: nat)
    requires WithinLimits(ds)
    requires var left := AfterAck(ds, o, Some(id), writeOk); i < |left| && left[i].id == id
    ensures !Proceeds(AckOutcomeOf(ds, o, Some(id), writeOk))
  {
    hide OutboxBytes;
  }

  lemma {:induction false} DequeueHolds(m: Memory, id: DeliveryId)
    requires Holds(m, id)
    ensures Holds(MemoryAfterDequeue(m), id)
  {
    if id !in m.claimed {
      var i :| 0 <= i < |DurableIds(m.ready)| && DurableIds(m.ready)[i] == id;
      var rest := DurableIds(m.ready[1..]);
      var head := if m.ready[0].source.DurableCron? then [m.ready[0].source.delivery] else [];
      assert DurableIds(m.ready) == head + rest;
      if i >= |head| { assert rest[i - |head|] == id; }
    }
  }

  lemma {:induction false} AckKeepsKept(w: World, p: Owner, writeOk: bool, o: Owner, id: DeliveryId, last: int)
    requires Inv(w) && p in w.procs && Keeps(w, o, id, last)
    ensures Keeps(AfterSettleWork(w, p, writeOk), o, id, last) && Keeps(WithAck(w, p, writeOk), o, id, last)
  {
    hide Inv, Holds, AckOutcomeOf, AfterAck, MemoryAfterAck, IsLeased;
    var left := WithAck(w, p, writeOk).store.deliveries;
    forall i | 0 <= i < |left| && left[i].id == id
      ensures IsLeased(left[i], o, last) && Holds(w.procs[o].memory, id) && Holds(AfterSettleWork(w, p, writeOk).procs[o].memory, id)
    {
      AckKeepsLease(w, p, writeOk, i);
      var k :| 0 <= k < |w.store.deliveries| && w.store.deliveries[k] == left[i];
      if p == o { SettleHoldsStored(w, o, writeOk, id, i); }
    }
  }

  lemma {:induction false} SettleKeepsLease(w: World, p: Owner, writeOk: bool, o: Owner, id: DeliveryId, last: int)
    requires Inv(w) && p in w.procs && Keeps(w, o, id, last)
    ensures Keeps(AfterSettle(w, p, writeOk), o, id, last)
  {
    hide Inv, Holds, AfterSettleWork, IsLeased;
    AckKeepsKept(w, p, writeOk, o, id, last);
  }

  lemma {:induction false} DequeueKeepsLease(w: World, p: Owner, o: Owner, id: DeliveryId, last: int)
    requires p in w.procs && Keeps(w, o, id, last)
    ensures Keeps(AfterDequeue(w, p), o, id, last)
  {
    hide Holds, MemoryAfterDequeue, IsLeased;
    if Holds(w.procs[o].memory, id) { DequeueHolds(w.procs[o].memory, id); }
  }

  lemma {:induction false} TakeKeepsLease(w: World, p: Owner, writeOk: bool, o: Owner, id: DeliveryId, last: int)
    requires Inv(w) && p in w.procs && Keeps(w, o, id, last)
    ensures Keeps(AfterTakeStep(w, p, writeOk), o, id, last)
  {
    hide Inv, Keeps, AfterSettle, AfterDequeue, OutcomeIn;
    SettleKeepsLease(w, p, writeOk, o, id, last);
    SettledHasNothingPending(w, p, writeOk);
    if Proceeds(OutcomeIn(w, p, writeOk)) { DequeueKeepsLease(AfterSettle(w, p, writeOk), p, o, id, last); }
  }

  lemma {:induction false} StepKeepsLease(w: World, s: Step, o: Owner, id: DeliveryId, last: int)
    requires Inv(w) && Enabled(w, s) && Keeps(w, o, id, last) && s != Crash(o)
    requires s.Poll? ==> last <= s.now <= last + LEASE_MS / 2
    requires w.procs.Keys <= w.usedOwners
    ensures Keeps(After(w, s), o, id, if Completes(s, o) then s.now else last)
  {
    hide Inv, Outcomes, PollWork, DurableIds, IsLeased, WithAck;
    match s {
      case Poll(_, _, _, _, _, _) => PollKeepsLease(w, s, o, id, last);
      case Take(p, writeOk) => TakeKeepsLease(w, p, writeOk, o, id, last);
      case Settle(p, writeOk) => SettleKeepsLease(w, p, writeOk, o, id, last);
      case SettleLate(p, writeOk) => AckKeepsKept(w, p, writeOk, o, id, last);
      case Dequeue(p) => DequeueKeepsLease(w, p, o, id, last);
      case AckUnreported(p) => AckKeepsKept(w, p, true, o, id, last);
      case _ =>
    }
  }

  lemma OwnersAreUsed(w: World)
    requires Inv(w)
    ensures w.procs.Keys <= w.usedOwners
  {
    hide DeliveriesKept, ProcessOk, ClaimsOk, GrantsOk;
  }

  /* ---------- over a run ---------- */

  /** The process runs on, and whenever any process polls, its last completed poll is at most
      half a lease ago by the common clock. */
  ghost predicate PollsOften(steps: seq<Step>, o: Owner, m: nat, n: nat, start: int)
    requires m <= n <= |steps|
  {
    forall k :: m <= k < n ==>
      && steps[k] != Crash(o)
      && (steps[k].Poll? ==> LastPoll(steps, o, m, k, start) <= steps[k].now <= LastPoll(steps, o, m, k, start) + LEASE_MS / 2)
  }

  lemma {:induction false} LeaseIsKept(steps: seq<Step>, worlds: seq<World>, m: nat, n: nat, o: Owner, id: DeliveryId, start: int)
    requires IsRun(steps, worlds) && m <= n <= |steps| && PollsOften(steps, o, m, n, start) && Keeps(worlds[m], o, id, start)
    ensures Keeps(worlds[n], o, id, LastPoll(steps, o, m, n, start))
    decreases n - m
  {
    hide IsRun, Inv, Enabled, After, Keeps, Completes;
    RunStart(steps, worlds);
    if m < n {
      LeaseIsKept(steps, worlds, m, n - 1, o, id, start);
      RunStep(steps, worlds, n - 1);
      RunKeepsInv(steps, worlds, n - 1);
      OwnersAreUsed(worlds[n - 1]);
      StepKeepsLease(worlds[n - 1], steps[n - 1], o, id, LastPoll(steps, o, m, n - 1, start));
    }
  }

  ghost predicate OwnsIfStored(w: World, o: Owner, id: DeliveryId) {
    forall i :: 0 <= i < |w.store.deliveries| && w.store.deliveries[i].id == id ==>
      w.store.deliveries[i].claim.Some? && w.store.deliveries[i].claim.value.owner == o
  }

  /** After a completed poll, whatever the process holds and owns is leased for more than half a
      lease. */
  lemma {:induction false} PollStartsKeeping(w: World, s: Step, o: Owner, id: DeliveryId)
    requires Inv(w) && Enabled(w, s) && Completes(s, o) && Holds(After(w, s).procs[o].memory, id)
    requires OwnsIfStored(After(w, s), o, id)
    requires id in After(w, s).usedIds
    ensures Keeps(After(w, s), o, id, s.now)
  {
    hide ProcessesOk, ClaimsOk, GrantsOk, Outcomes, PollWork, ClaimAll, AllFired, AllRemaining, AnyChange, StagedBy, Holds, ClaimantOf, OutboxBytes,
         InStaged, DurablePrompts, DurableIds;
    var w' := After(w, s);
    PollInParts(w, s);
    FiringKeepsInv(w, s);
    UsedIdsGrow(w, s);
    var os, m := OutcomesIn(w, s).value, w.procs[o].memory;
    var c, ds := ClaimantOf(o, m), w.store.deliveries + AllFired(os);
    PollConservesTasks(w.store, os, c, s.now);
    ClaimantIs(o, m);
    HeldIsListed(m, id, o);
    SameIdsAndPrompts(ds, c, [], s.now);
    var staged := StagedBy(ds, c, [], s.now);
    HeldAfterFilling(m, staged, id);
    forall i | 0 <= i < |w'.store.deliveries| && w'.store.deliveries[i].id == id
      ensures IsLeased(w'.store.deliveries[i], o, s.now)
    {
      assert w'.store.deliveries == ClaimAll(ds, c, [], s.now) && ds[i].id == id;
      ClaimedEach(ds, c, [], s.now, i);
      if Holds(m, id) {
        OwnedOrNew(ds, c, s.now, i);
      } else {
        StagedIsIn(ds[i], staged);
      }
    }
  }

  lemma StagedIsIn(d: Delivery, staged: seq<Delivery>)
    ensures (exists k :: 0 <= k < |staged| && staged[k].id == d.id) ==> InStaged(d, staged)
  {
  }

  lemma {:induction false} OwnedOrNew(ds: seq<Delivery>, c: Claimant, now: int, i: nat)
    requires i < |ds| && (ds[i].id in c.claimed || ds[i].id in c.queued)
    requires ClaimAll(ds, c, [], now)[i].claim.Some? && ClaimAll(ds, c, [], now)[i].claim.value.owner == c.owner
    requires UniqueIds(ds)
    ensures ClaimAll(ds, c, [], now)[i].claim.value.expiresAt > now + LEASE_MS / 2
  {
    hide ClaimAll, StagedBy, InStaged;
    ClaimedEach(ds, c, [], now, i);
    if ClaimAll(ds, c, [], now)[i].claim == ds[i].claim {
      HeldStaysLeased(ds, c, [], now, i);
    }
  }

  /** A process that has completed a poll, and from then on completes polls at least every half
      lease, keeps the claim of every delivery it holds until that leaves the store. */
  lemma {:induction false} HeldDeliveryIsNeverLost(steps: seq<Step>, worlds: seq<World>, m: nat, n: nat, o: Owner, id: DeliveryId, i: nat)
    requires IsRun(steps, worlds) && m < n <= |steps| && Completes(steps[m], o)
    requires PollsOften(steps, o, m + 1, n, steps[m].now)
    requires o in worlds[m + 1].procs && Holds(worlds[m + 1].procs[o].memory, id) && id in worlds[m + 1].usedIds
    requires OwnsIfStored(worlds[m + 1], o, id)
    requires i < |worlds[n].store.deliveries| && worlds[n].store.deliveries[i].id == id
    ensures worlds[n].store.deliveries[i].claim.Some? && worlds[n].store.deliveries[i].claim.value.owner == o
    ensures o in worlds[n].procs && Holds(worlds[n].procs[o].memory, id)
  {
    hide IsRun, Inv, Enabled, After, Holds, PollsOften, OwnsIfStored;
    RunStep(steps, worlds, m);
    RunKeepsInv(steps, worlds, m);
    PollStartsKeeping(worlds[m], steps[m], o, id);
    LeaseIsKept(steps, worlds, m + 1, n, o, id, steps[m].now);
  }

  /* ---------- nobody else takes it ---------- */

  ghost predicate HasIt(w: World, p: Owner, id: DeliveryId) {
    p in w.procs && Holds(w.procs[p].memory, id)
  }

  /** Nobody else can claim a delivery whose lease is kept. */
  lemma {:induction false} OthersCannotStage(ds: seq<Delivery>, c: Claimant, now: int, i: nat, o: Owner, last: int)
    requires UniqueIds(ds) && i < |ds| && IsLeased(ds[i], o, last) && now <= last + LEASE_MS / 2 && c.owner != o
    ensures !InStaged(ds[i], StagedBy(ds, c, [], now))
  {
    hide ClaimAll, StagedBy, InStaged;
    ClaimedEach(ds, c, [], now, i);
    assert !Claimable(ds[i], c, now);
  }

  lemma {:induction false} PollTakesNothingKept(w: World, s: Step, o: Owner, id: DeliveryId, last: int)
    requires Inv(w) && s.Poll? && Enabled(w, s) && Keeps(w, o, id, last) && s.now <= last + LEASE_MS / 2
    requires s.owner != o && !Holds(w.procs[s.owner].memory, id)
    ensures !Holds(After(w, s).procs[s.owner].memory, id)
  {
    hide Inv, Outcomes, AllFired, StagedBy, ClaimAll, DurableIds, DurablePrompts, StoreAfter, MemoryAfter, ClaimantOf, IdSet, Recorded,
         Holds, IsLeased, InStaged, WithinLimits;
    if OutcomesIn(w, s).Some? {
      var m, c := w.procs[s.owner].memory, ClaimantOf(s.owner, w.procs[s.owner].memory);
      var ds := w.store.deliveries + AllFired(OutcomesIn(w, s).value);
      var staged := StagedBy(ds, c, [], s.now);
      FiringKeepsInv(w, s);
      LimitsSpelledOut(ds);
      ClaimantIs(s.owner, m);
      HeldAfterFilling(m, staged, id);
      MemoryAfterPoll(w, s, staged);
      forall k | 0 <= k < |staged| ensures staged[k].id != id {
        if staged[k].id == id {
          StagedAreStored(ds, c, [], s.now, staged[k]);
          var i :| 0 <= i < |ds| && ds[i] == staged[k];
          FiredHaveOtherIds(w, s, id, i);
          assert w.store.deliveries[i] == ds[i];
          OthersCannotStage(ds, c, s.now, i, o, last);
          StagedIsIn(ds[i], staged);
          assert false;
        }
      }
    }
  }

  lemma {:induction false} RequestTakesNothing(w: World, p: Owner, writeOk: bool, id: DeliveryId)
    requires Inv(w) && p in w.procs && !Holds(w.procs[p].memory, id)
    ensures !HasIt(AfterSettle(w, p, writeOk), p, id) && !HasIt(AfterTakeStep(w, p, writeOk), p, id)
    ensures !HasIt(AfterSettleWork(w, p, writeOk), p, id)
    ensures w.procs[p].memory.pending.None? ==> !HasIt(AfterDequeue(w, p), p, id)
  {
    hide Inv, Holds, MemoryAfterAck, MemoryAfterDequeue, AckOutcomeOf, AfterAck, MemoryOk;
    MemoryIsOk(w, p);
    var m := w.procs[p].memory;
    var ack := AckOutcomeOf(w.store.deliveries, p, m.pending, writeOk);
    SettlingHoldsNoMore(m, ack);
    SettledHasNothingPending(w, p, writeOk);
    if m.pending.None? { DequeuingHoldsNoMore(m); }
    if Proceeds(OutcomeIn(w, p, writeOk)) { DequeuingHoldsNoMore(MemoryAfterAck(m, ack)); }
  }

  lemma {:induction false} StepTakesNothingKept(w: World, s: Step, o: Owner, p: Owner, id: DeliveryId, last: int)
    requires Inv(w) && Enabled(w, s) && Keeps(w, o, id, last) && p != o && !HasIt(w, p, id)
    requires s.Poll? ==> s.now <= last + LEASE_MS / 2
    ensures !HasIt(After(w, s), p, id)
  {
    hide Inv, Outcomes, PollWork, AfterSettle, AfterDequeue, AfterTakeStep, WithAck, Holds, Keeps, DurableIds;
    if !s.EditTasks? && s.owner == p {
      match s {
        case Poll(_, _, _, _, _, _) => PollTakesNothingKept(w, s, o, id, last);
        case Take(_, writeOk) => RequestTakesNothing(w, p, writeOk, id);
        case Settle(_, writeOk) => RequestTakesNothing(w, p, writeOk, id);
        case SettleLate(_, writeOk) => RequestTakesNothing(w, p, writeOk, id);
        case Dequeue(_) => RequestTakesNothing(w, p, true, id);
        case Other(_, ready, error) => OtherHoldsTheSame(w.procs[p].memory, ready, id);
        case Start(_, _) => StartsWithNothing(id);
        case AckUnreported(_) => AckLeavesProcesses(w, p, true);
        case Crash(_) =>
      }
    } else {
      OthersStay(w, s, p);
    }
  }

  lemma OtherHoldsTheSame(m: Memory, ready: seq<Prompt>, id: DeliveryId)
    requires DurableIds(ready) == DurableIds(m.ready)
    ensures Holds(m.(ready := ready), id) <==> Holds(m, id)
  {
    hide DurableIds;
  }

  lemma StartsWithNothing(id: DeliveryId)
    ensures !Holds(Memory([], {}, None), id)
  {
  }

  /** A step of one process leaves the memory of the others alone. */
  lemma OthersStay(w: World, s: Step, p: Owner)
    requires Enabled(w, s) && (s.EditTasks? || s.owner != p)
    ensures p in After(w, s).procs <==> p in w.procs
    ensures p in w.procs ==> After(w, s).procs[p] == w.procs[p]
  {
    hide Outcomes, StoreAfter, MemoryAfter, IdSet, Recorded, ClaimantOf, AckOutcomeOf, AfterAck, MemoryAfterAck, MemoryAfterDequeue, DurableIds;
  }

  /** While a process keeps its lease in this way, no other process comes to hold the delivery. */
  lemma {:induction false} HeldDeliveryIsExclusive(steps: seq<Step>, worlds: seq<World>, m: nat, n: nat, o: Owner, id: DeliveryId, p: Owner)
    requires IsRun(steps, worlds) && m < n <= |steps| && Completes(steps[m], o)
    requires PollsOften(steps, o, m + 1, n, steps[m].now)
    requires o in worlds[m + 1].procs && Holds(worlds[m + 1].procs[o].memory, id) && id in worlds[m + 1].usedIds
    requires OwnsIfStored(worlds[m + 1], o, id)
    requires p != o && !HasIt(worlds[m + 1], p, id)
    ensures !HasIt(worlds[n], p, id)
    decreases n
  {
    hide IsRun, Inv, Enabled, After, Holds, HasIt, OwnsIfStored, Keeps;
    RunStart(steps, worlds);
    if m + 1 < n {
      HeldDeliveryIsExclusive(steps, worlds, m, n - 1, o, id, p);
      RunStep(steps, worlds, m);
      RunKeepsInv(steps, worlds, m);
      PollStartsKeeping(worlds[m], steps[m], o, id);
      LeaseIsKept(steps, worlds, m + 1, n - 1, o, id, steps[m].now);
      RunStep(steps, worlds, n - 1);
      RunKeepsInv(steps, worlds, n - 1);
      StepTakesNothingKept(worlds[n - 1], steps[n - 1], o, p, id, LastPoll(steps, o, m + 1, n - 1, steps[m].now));
    }
  }
}
