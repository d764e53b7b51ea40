/** The scheduler of one process (src/cron.rs): polling the shared store and handing out
    prompts. Each method runs under the lock of the store; whether a write of the store
    succeeds is a parameter.
 */
module CronService {
  import opened Wrappers
  import opened TextBasics
  import opened CronPrompts
  import opened CronQueue
  import opened CronOutbox

  /** The store as it is on disk. */
  class StoreFile {
    var tasks: seq<Task>
    var deliveries: seq<Delivery>
  }

  /* ---------- what a poll writes ---------- */

  datatype Store = Store(tasks: seq<Task>, deliveries: seq<Delivery>)

  /** How far a poll got: it stops at the first write that fails. */
  datatype PollStage = Nothing | TasksFired | DeliveriesClaimed | QueueFilled

  /** The store after the first write, which happens only if some task changed. */
  ghost function AfterFiring(s: Store, os: seq<Outcome>, now: int): Store
    requires |os| == |s.tasks|
  {
    if AnyChange(os) then Store(AllRemaining(s.tasks, os, now), s.deliveries + AllFired(os)) else s
  }

  /** The store after the second write, which happens only if some claim changed. The task
      list it writes is the one in memory, which is empty unless the first write put it back. */
  ghost function AfterClaiming(s: Store, os: seq<Outcome>, c: Claimant, now: int): Store
    requires |os| == |s.tasks|
  {
    var ds := s.deliveries + AllFired(os);
    if ClaimChanges(ds, c, [], now) then
      Store(if AnyChange(os) then AllRemaining(s.tasks, os, now) else [], ClaimAll(ds, c, [], now))
    else AfterFiring(s, os, now)
  }

  /** A poll that writes both times keeps exactly the tasks it should, unless it renews or takes
      a claim while no task changed: then the stored task list is emptied. */
  lemma {:induction false} PollConservesTasks(s: Store, os: seq<Outcome>, c: Claimant, now: int)
    requires |os| == |s.tasks|
    ensures AfterClaiming(s, os, c, now).tasks == AllRemaining(s.tasks, os, now) <==>
            AnyChange(os) || s.tasks == [] || !ClaimChanges(s.deliveries + AllFired(os), c, [], now)
    ensures AfterFiring(s, os, now).tasks == AllRemaining(s.tasks, os, now)
    ensures AfterFiring(s, os, now).deliveries == s.deliveries + AllFired(os)
  {
    hide ClaimAll, ClaimChanges, AllRemaining, AllFired;
    PollAddsUp(s.tasks, os, now);
    assert s.deliveries + [] == s.deliveries;
  }

  /** With nothing due and a delivery to claim, one poll loses the only task. */
  lemma TasksCanBeLost(t: Task, d: Delivery, now: int, nextRun: NextRun)
    requires !IsExpired(t, now) && t.nextFireAt > now && d.claim.None?
    requires ByteLen(d.prompt) <= CRON_BYTES
    ensures Outcomes([t], [1], [d], now, false, nextRun) == Some([Kept])
    ensures AfterClaiming(Store([t], [d]), [Kept], Claimant(0, {}, {}, 0, 0), now).tasks == []
  {
    hide ByteLen, IsExpired, DuePrompt;
    var c := Claimant(0, {}, {}, 0, 0);
    OutcomesStep([t], [1], [d], now, false, nextRun, []);
    OutcomesEnd([t][1..], [1][1..], [d] + Fired(Kept), now, false, nextRun);
    assert [] + [Kept] + [] == [Kept];
    if Outcomes([t], [1], [d], now, false, nextRun).Some? {
      var os := Outcomes([t], [1], [d], now, false, nextRun).value;
      assert [] + os == os;
    }
    assert AllFired([Kept]) == [] + AllFired([]);
    assert [d] + AllFired([Kept]) == [d];
    assert Stages(d, c, [], now);
    assert ClaimChanges([d], c, [], now);
    assert !AnyChange([Kept]);
  }

  /* ---------- what an acknowledgement does ---------- */

  /** How the acknowledgement at the start of a request ends; a request that finds an error of an
      earlier poll reports that instead. */
  datatype AckOutcome = NothingPending | Removed | AlreadyGone | NotOwner | WriteFailed | PollError

  /** The position of a delivery. */
  function Position(ds: seq<Delivery>, id: DeliveryId): (n: nat)
    ensures n <= |ds| && (n < |ds| ==> ds[n].id == id)
    ensures forall i :: 0 <= i < n ==> ds[i].id != id
  {
    if ds == [] || ds[0].id == id then 0 else 1 + Position(ds[1..], id)
  }

  lemma PositionIsFirst(ds: seq<Delivery>, id: DeliveryId, n: nat)
    requires n <= |ds| && (n < |ds| ==> ds[n].id == id) && forall i :: 0 <= i < n ==> ds[i].id != id
    ensures Position(ds, id) == n
  {
  }

  function AckOutcomeOf(ds: seq<Delivery>, owner: Owner, pending: Option<DeliveryId>, writeOk: bool): AckOutcome {
    if pending.None? then NothingPending
    else
      var n := Position(ds, pending.value);
      if n == |ds| then AlreadyGone
      else if ds[n].claim.None? || ds[n].claim.value.owner != owner then NotOwner
      else if !writeOk then WriteFailed
      else Removed
  }

  function AfterAck(ds: seq<Delivery>, owner: Owner, pending: Option<DeliveryId>, writeOk: bool): seq<Delivery> {
    if AckOutcomeOf(ds, owner, pending, writeOk) != Removed then ds
    else var n := Position(ds, pending.value); ds[..n] + ds[n + 1..]
  }

  /** How a request starts: a recorded error comes before any acknowledgement. */
  function RequestOutcome(ds: seq<Delivery>, owner: Owner, pending: Option<DeliveryId>, writeOk: bool, error: bool): AckOutcome {
    if error then PollError else AckOutcomeOf(ds, owner, pending, writeOk)
  }

  /** Whether the consumer may go on to the next prompt. */
  predicate Proceeds(a: AckOutcome) { a.NothingPending? || a.Removed? || a.AlreadyGone? }

  /* ---------- the process ---------- */

  /** The deliveries waiting in a queue, in order. */
  function DurableIds(prompts: seq<Prompt>): seq<DeliveryId> {
    if prompts == [] then []
    else (if prompts[0].source.DurableCron? then [prompts[0].source.delivery] else []) + DurableIds(prompts[1..])
  }

  lemma {:induction false} DurableIdsConcat(a: seq<Prompt>, b: seq<Prompt>)
    ensures DurableIds(a + b) == DurableIds(a) + DurableIds(b)
  {
    if a == [] {
      assert a + b == b;
    } else {
      assert (a + b)[1..] == a[1..] + b;
      DurableIdsConcat(a[1..], b);
      var head := if a[0].source.DurableCron? then [a[0].source.delivery] else [];
      assert head + (DurableIds(a[1..]) + DurableIds(b)) == head + DurableIds(a[1..]) + DurableIds(b);
    }
  }

  function IdsOf(ds: seq<Delivery>): seq<DeliveryId> {
    seq(|ds|, i requires 0 <= i < |ds| => ds[i].id)
  }

  lemma {:induction false} DurableIdsOfStaged(ds: seq<Delivery>)
    ensures DurableIds(DurablePrompts(ds)) == IdsOf(ds)
  {
    if ds != [] {
      DurableIdsOfStaged(ds[1..]);
      assert DurablePrompts(ds)[1..] == DurablePrompts(ds[1..]);
      assert IdsOf(ds) == [ds[0].id] + IdsOf(ds[1..]);
    }
  }

  ghost predicate DistinctDeliveries(ids: seq<DeliveryId>) {
    forall i, j :: 0 <= i < j < |ids| ==> ids[i] != ids[j]
  }

  /** No delivery is queued twice, or both queued and being worked on; the one being worked on
      is the one to acknowledge next. */
  ghost predicate HoldsApart(queued: seq<DeliveryId>, claimed: set<DeliveryId>, pending: Option<DeliveryId>) {
    && DistinctDeliveries(queued)
    && (forall i :: 0 <= i < |queued| ==> queued[i] !in claimed)
    && claimed == (if pending.Some? then {pending.value} else {})
  }

  /** What a process keeps in memory of the deliveries it has claimed. */
  datatype Memory = Memory(ready: seq<Prompt>, claimed: set<DeliveryId>, pending: Option<DeliveryId>)

  /** What a process brings to a claim pass. */
  ghost function ClaimantOf(owner: Owner, m: Memory): Claimant {
    Claimant(owner, m.claimed, set i | i in DurableIds(m.ready), |m.ready|, TotalBytes(m.ready))
  }

  /** The store after a poll that got as far as `stage`. */
  ghost function StoreAfter(s: Store, os: seq<Outcome>, c: Claimant, now: int, stage: PollStage): Store
    requires |os| == |s.tasks|
  {
    match stage
    case Nothing => s
    case TasksFired => AfterFiring(s, os, now)
    case DeliveriesClaimed => AfterClaiming(s, os, c, now)
    case QueueFilled => AfterClaiming(s, os, c, now)
  }

  /** The memory after a poll: only one that got to the end adds to the queue. */
  ghost function MemoryAfter(m: Memory, s: Store, os: seq<Outcome>, c: Claimant, now: int, stage: PollStage): Memory {
    if stage.QueueFilled? then
      m.(ready := m.ready + DurablePrompts(StagedBy(s.deliveries + AllFired(os), c, [], now)))
    else m
  }

  /** The memory once the previous delivery is settled. */
  function MemoryAfterAck(m: Memory, ack: AckOutcome): Memory {
    if !Proceeds(ack) then m
    else m.(claimed := if m.pending.Some? then m.claimed - {m.pending.value} else m.claimed, pending := None)
  }

  /** The memory once the head of the queue is handed out. */
  function MemoryAfterDequeue(m: Memory): Memory {
    if m.ready == [] then m
    else if m.ready[0].source.DurableCron? then
      var id := m.ready[0].source.delivery;
      Memory(m.ready[1..], m.claimed + {id}, Some(id))
    else m.(ready := m.ready[1..])
  }

  /** The memory after asking for the next prompt. */
  function MemoryAfterTake(m: Memory, ack: AckOutcome): Memory {
    if Proceeds(ack) then MemoryAfterDequeue(MemoryAfterAck(m, ack)) else m
  }

  /** The prompt handed out by such a request. */
  function HandedOut(m: Memory, ack: AckOutcome): Option<Prompt> {
    if Proceeds(ack) && m.ready != [] then Some(m.ready[0]) else None
  }

  /** How far a poll gets, and the store and the memory that it leaves. */
  ghost function Polled(owner: Owner, s: Store, m: Memory, ids: seq<DeliveryId>, now: int, startup: bool, nextRun: NextRun,
                        firstWriteOk: bool, secondWriteOk: bool): (PollStage, Store, Memory)
    requires |ids| == |s.tasks|
  {
    var c, os := ClaimantOf(owner, m), Outcomes(s.tasks, ids, s.deliveries, now, startup, nextRun);
    if !WithinLimits(s.deliveries) || os.None? then (Nothing, s, m)
    else
      var stage := if AnyChange(os.value) && !firstWriteOk then Nothing
                   else if ClaimChanges(s.deliveries + AllFired(os.value), c, [], now) && !secondWriteOk then TasksFired
                   else QueueFilled;
      (stage, StoreAfter(s, os.value, c, now, stage), MemoryAfter(m, s, os.value, c, now, stage))
  }

  /** A poll in the background records an error if it does not get to the end; the first one, at
      startup, reports it at once. */
  predicate RecordsError(stage: PollStage, startup: bool) { !startup && !stage.QueueFilled? }

  ghost predicate MemoryOk(m: Memory) { HoldsApart(DurableIds(m.ready), m.claimed, m.pending) }

  class Service {
    const owner: Owner
    const slot: WakeupSlot
    var claimedDeliveries: set<DeliveryId>
    var pendingAck: Option<DeliveryId>
    var backgroundError: bool

    ghost predicate Valid()
      reads this, slot, slot.ready
    {
      slot.Valid() && MemoryOk(View())
    }

    ghost function View(): Memory
      reads this, slot, slot.ready
    {
      Memory(slot.ready.prompts, claimedDeliveries, pendingAck)
    }

    constructor (name: Owner)
      ensures Valid() && owner == name && View() == Memory([], {}, None) && !backgroundError
      ensures fresh(slot) && fresh(slot.ready)
    {
      owner := name;
      slot := new WakeupSlot();
      claimedDeliveries, pendingAck, backgroundError := {}, None, false;
    }

    function AsClaimant(): (c: Claimant)
      requires slot.Valid()
      reads this, slot, slot.ready
      ensures c == ClaimantOf(owner, View())
    {
      Claimant(owner, claimedDeliveries, set i | i in DurableIds(slot.ready.prompts), |slot.ready.prompts|, slot.ready.bytes)
    }

    /** Goes over the tasks once: drops expired ones, keeps those not due or without room, and
        fires the rest. Stops when a recurring task has no next time. */
    method FireDueTasks(tasks: seq<Task>, ids: seq<DeliveryId>, stored: seq<Delivery>, now: int, startup: bool, nextRun: NextRun)
      returns (r: Option<(seq<Task>, seq<Delivery>, bool)>)
      requires |ids| == |tasks|
      ensures var os := Outcomes(tasks, ids, stored, now, startup, nextRun);
              && (r.Some? <==> os.Some?)
              && (r.Some? ==> r.value == (AllRemaining(tasks, os.value, now), stored + AllFired(os.value), AnyChange(os.value)))
    {
      hide OutcomeOf, Outcomes, AllRemaining, AllFired, AnyChange;
      var remaining: seq<Task> := [];
      var deliveries := stored;
      var changed := false;
      ghost var done: seq<Outcome> := [];
      ghost var all := Outcomes(tasks, ids, stored, now, startup, nextRun);
      assert tasks[0..] == tasks && ids[0..] == ids && tasks[..0] == [];
      NoOutcomes(stored, now);
      assert all.Some? ==> [] + all.value == all.value;
      for i := 0 to |tasks|
        invariant |done| == i && deliveries == stored + AllFired(done) && (changed <==> AnyChange(done))
        invariant remaining == AllRemaining(tasks[..i], done, now)
        invariant all == Prepended(done, Outcomes(tasks[i..], ids[i..], deliveries, now, startup, nextRun))
      {
        var t := tasks[i];
        assert tasks[i..][0] == t && tasks[i..][1..] == tasks[i + 1..];
        assert ids[i..][0] == ids[i] && ids[i..][1..] == ids[i + 1..];
        assert tasks[..i + 1] == tasks[..i] + [t];
        OutcomesStep(tasks[i..], ids[i..], deliveries, now, startup, nextRun, done);
        var o := OutcomeOf(t, ids[i], deliveries, now, startup, nextRun);
        if o.None? {
          return None;
        }
        OutcomesSnoc(tasks[..i], done, t, o.value, now);
        assert stored + AllFired(done) + Fired(o.value) == stored + (AllFired(done) + Fired(o.value));
        remaining := remaining + Remains(t, o.value, now);
        deliveries := deliveries + Fired(o.value);
        changed := changed || Changes(o.value);
        done := done + [o.value];
      }
      assert tasks[..|tasks|] == tasks && done + [] == done;
      OutcomesEnd(tasks[|tasks|..], ids[|tasks|..], deliveries, now, startup, nextRun);
      return Some((remaining, deliveries, changed));
    }

    /** Renews the leases of what this process works on and claims what fits its queue. */
    method ClaimDeliveries(stored: seq<Delivery>, c: Claimant, now: int)
      returns (deliveries: seq<Delivery>, staged: seq<Delivery>, changed: bool)
      ensures deliveries == ClaimAll(stored, c, [], now)
      ensures staged == StagedBy(stored, c, [], now)
      ensures changed == ClaimChanges(stored, c, [], now)
    {
      hide Working, StagingRoom, Claimable, RenewsLease, ClaimAll, StagedBy, ClaimChanges;
      deliveries, staged, changed := stored, [], false;
      assert stored[0..] == stored && stored[..0] == [];
      assert [] + ClaimAll(stored, c, [], now) == ClaimAll(stored, c, [], now);
      for i := 0 to |stored|
        invariant |deliveries| == |stored| && deliveries[i..] == stored[i..]
        invariant deliveries[..i] + ClaimAll(stored[i..], c, staged, now) == ClaimAll(stored, c, [], now)
        invariant StagedBy(stored[i..], c, staged, now) == StagedBy(stored, c, [], now)
        invariant changed || ClaimChanges(stored[i..], c, staged, now) == ClaimChanges(stored, c, [], now)
        invariant changed ==> ClaimChanges(stored, c, [], now)
      {
        var d := deliveries[i];
        assert d == deliveries[i..][0] == stored[i];
        assert stored[i..][0] == d && stored[i..][1..] == stored[i + 1..] && stored[i..] != [];
        PassStep(stored[i..], c, staged, now);
        ghost var before := deliveries[..i];
        ghost var after := Claimed(d, c, staged, now);
        if Working(d, c, staged) {
          if RenewsLease(d, c, now) {
            deliveries := deliveries[i := Leased(d, c, now)];
            changed := true;
          }
        } else if Claimable(d, c, now) && StagingRoom(d, c, staged) {
          deliveries := deliveries[i := Leased(d, c, now)];
          changed := true;
          staged := staged + [d];
        }
        assert deliveries[..i + 1] == before + [after];
        assert deliveries[i + 1..] == stored[i + 1..];
        ghost var rest := ClaimAll(stored[i + 1..], c, staged, now);
        assert before + [after] + rest == before + ([after] + rest);
      }
      PassEnd(stored[|stored|..], c, staged, now);
      assert deliveries[..|stored|] + [] == deliveries;
    }

    /** Pushes the staged deliveries; the check of each push cannot fail. */
    method Hydrate(staged: seq<Delivery>)
      requires slot.Valid() && Stackable(AsClaimant(), staged)
      modifies slot.ready
      ensures slot.Valid() && slot.ready.prompts == old(slot.ready.prompts) + DurablePrompts(staged)
    {
      hide ByteLen;
      ghost var c := AsClaimant();
      assert slot.ready.prompts + DurablePrompts(staged[..0]) == slot.ready.prompts;
      assert OutboxBytes(staged[..0]) == 0;
      for i := 0 to |staged|
        invariant slot.Valid() && slot.ready.prompts == old(slot.ready.prompts) + DurablePrompts(staged[..i])
        invariant slot.ready.bytes == c.bytes + OutboxBytes(staged[..i])
      {
        PushedDelivery(old(slot.ready.prompts), staged, i);
        var before := slot.ready.bytes;
        var pushed := slot.Enqueue(staged[i].prompt, DurableCron(staged[i].id));
        assert pushed;
        PartsAppend(old(slot.ready.prompts) + DurablePrompts(staged[..i]), DurablePrompt(staged[i]));
      }
      assert staged[..|staged|] == staged;
    }

    /** One poll of the durable store. */
    method PollDurable(store: StoreFile, now: int, startup: bool, ids: seq<DeliveryId>, nextRun: NextRun,
                       firstWriteOk: bool, secondWriteOk: bool)
      returns (stage: PollStage)
      requires Valid() && |ids| == |store.tasks| && FreshIds(ids, store.deliveries)
      modifies this, slot, slot.ready, store
      ensures Valid() && slot.state == old(slot.state) && backgroundError == old(backgroundError)
      ensures (stage, Store(store.tasks, store.deliveries), View())
              == Polled(owner, old(Store(store.tasks, store.deliveries)), old(View()), ids, now, startup, nextRun, firstWriteOk, secondWriteOk)
      ensures WithinLimits(old(store.deliveries)) ==> WithinLimits(store.deliveries)
    {
      hide Outcomes, AllRemaining, AllFired, AnyChange, WithinLimits, ClaimAll, StagedBy, ClaimChanges, Stackable, StagedApart;
      if !WithinLimits(store.deliveries) {
        return Nothing;
      }
      var fired := FireDueTasks(store.tasks, ids, store.deliveries, now, startup, nextRun);
      if fired.None? {
        return Nothing;
      }
      ghost var os := Outcomes(store.tasks, ids, store.deliveries, now, startup, nextRun).value;
      FiringKeepsLimits(store.tasks, ids, store.deliveries, now, startup, nextRun);
      PollAddsUp(store.tasks, os, now);
      var (remaining, deliveries, changed) := fired.value;
      assert store.deliveries + [] == store.deliveries;
      var tasksInMemory: seq<Task> := [];
      if changed {
        tasksInMemory := remaining;
        if !firstWriteOk {
          return Nothing;
        }
        store.tasks, store.deliveries := tasksInMemory, deliveries;
      }
      var claimant := AsClaimant();
      var updated, staged, claimChanged := ClaimDeliveries(deliveries, claimant, now);
      ClaimingKeepsLimits(deliveries, claimant, [], now);
      if claimChanged {
        if !secondWriteOk {
          return TasksFired;
        }
        store.tasks, store.deliveries := tasksInMemory, updated;
      }
      NothingStaged(claimant);
      StagedFits(deliveries, claimant, [], now);
      StagedHoldApart(slot.ready.prompts, claimedDeliveries, pendingAck, claimant, staged);
      Hydrate(staged);
      return QueueFilled;
    }

    /** One tick of the scheduler: a poll, whose failure the next request is to report. */
    method Tick(store: StoreFile, now: int, ids: seq<DeliveryId>, nextRun: NextRun, firstWriteOk: bool, secondWriteOk: bool)
      requires Valid() && |ids| == |store.tasks| && FreshIds(ids, store.deliveries)
      modifies this, slot, slot.ready, store
      ensures Valid() && slot.state == old(slot.state)
      ensures var (stage, s, m) := Polled(owner, old(Store(store.tasks, store.deliveries)), old(View()), ids, now, false, nextRun,
                                          firstWriteOk, secondWriteOk);
              && Store(store.tasks, store.deliveries) == s && View() == m
              && backgroundError == (old(backgroundError) || RecordsError(stage, false))
    {
      hide Outcomes, WithinLimits, ClaimChanges, StoreAfter, MemoryAfter, AnyChange;
      var stage := PollDurable(store, now, false, ids, nextRun, firstWriteOk, secondWriteOk);
      if !stage.QueueFilled? {
        backgroundError := true;
      }
    }

    /** Reports the error of an earlier poll, once. Otherwise acknowledges the prompt handed out
        last, then hands out the next one; an acknowledgement that fails keeps everything for the
        next attempt. */
    method TakeReadyPrompt(store: StoreFile, writeOk: bool) returns (ack: AckOutcome, prompt: Option<Prompt>)
      requires Valid()
      modifies this, slot.ready, store
      ensures Valid() && store.tasks == old(store.tasks) && slot.state == old(slot.state) && !backgroundError
      ensures ack == RequestOutcome(old(store.deliveries), owner, old(pendingAck), writeOk, old(backgroundError))
      ensures store.deliveries == if old(backgroundError) then old(store.deliveries)
                                  else AfterAck(old(store.deliveries), owner, old(pendingAck), writeOk)
      ensures View() == MemoryAfterTake(old(View()), ack)
      ensures prompt == HandedOut(old(View()), ack)
    {
      hide ByteLen, DurableIds, DistinctDeliveries, Position;
      if backgroundError {
        backgroundError := false;
        return PollError, None;
      }
      ack := NothingPending;
      if pendingAck.Some? {
        var id := pendingAck.value;
        var index := 0;
        while index < |store.deliveries| && store.deliveries[index].id != id
          invariant index <= |store.deliveries| && forall i :: 0 <= i < index ==> store.deliveries[i].id != id
        {
          index := index + 1;
        }
        PositionIsFirst(store.deliveries, id, index);
        if index == |store.deliveries| {
          ack := AlreadyGone;
        } else if store.deliveries[index].claim.None? || store.deliveries[index].claim.value.owner != owner {
          return NotOwner, None;
        } else if !writeOk {
          return WriteFailed, None;
        } else {
          store.deliveries := store.deliveries[..index] + store.deliveries[index + 1..];
          ack := Removed;
        }
        claimedDeliveries := claimedDeliveries - {id};
        pendingAck := None;
      }
      ghost var before := slot.ready.prompts;
      prompt := slot.Dequeue();
      if prompt.Some? {
        PopHoldsApart(before);
        if prompt.value.source.DurableCron? {
          // The second consumer that the program guards against cannot exist here.
          assert pendingAck.None?;
          claimedDeliveries := claimedDeliveries + {prompt.value.source.delivery};
          pendingAck := Some(prompt.value.source.delivery);
        }
      }
    }
  }

  ghost function Prepended(done: seq<Outcome>, rest: Option<seq<Outcome>>): Option<seq<Outcome>> {
    if rest.None? then None else Some(done + rest.value)
  }

  lemma NoOutcomes(stored: seq<Delivery>, now: int)
    ensures AllFired([]) == [] && !AnyChange([]) && AllRemaining([], [], now) == [] && stored + [] == stored
  {
  }

  lemma OutcomesEnd(tasks: seq<Task>, ids: seq<DeliveryId>, ds: seq<Delivery>, now: int, startup: bool, nextRun: NextRun)
    requires tasks == [] && ids == []
    ensures Outcomes(tasks, ids, ds, now, startup, nextRun) == Some([])
  {
  }

  lemma OutcomesStep(tasks: seq<Task>, ids: seq<DeliveryId>, ds: seq<Delivery>, now: int, startup: bool, nextRun: NextRun,
                     done: seq<Outcome>)
    requires tasks != [] && |ids| == |tasks|
    ensures var o := OutcomeOf(tasks[0], ids[0], ds, now, startup, nextRun);
            Prepended(done, Outcomes(tasks, ids, ds, now, startup, nextRun))
            == if o.None? then None
               else Prepended(done + [o.value], Outcomes(tasks[1..], ids[1..], ds + Fired(o.value), now, startup, nextRun))
  {
    hide OutcomeOf, Fired;
    var o := OutcomeOf(tasks[0], ids[0], ds, now, startup, nextRun);
    if o.Some? {
      var rest := Outcomes(tasks[1..], ids[1..], ds + Fired(o.value), now, startup, nextRun);
      if rest.Some? { assert done + ([o.value] + rest.value) == done + [o.value] + rest.value; }
    }
  }

  lemma {:induction false} OutcomesSnoc(tasks: seq<Task>, os: seq<Outcome>, t: Task, o: Outcome, now: int)
    requires |os| == |tasks|
    ensures AllFired(os + [o]) == AllFired(os) + Fired(o)
    ensures AllRemaining(tasks + [t], os + [o], now) == AllRemaining(tasks, os, now) + Remains(t, o, now)
    ensures AnyChange(os + [o]) <==> AnyChange(os) || Changes(o)
  {
    hide Fired, Remains;
    AnyChangeSnoc(os, o);
    if tasks == [] {
      assert os + [o] == [o] && tasks + [t] == [t] && [o][1..] == [] && [t][1..] == [];
      assert Fired(o) + [] == [] + Fired(o) && Remains(t, o, now) + [] == [] + Remains(t, o, now);
    } else {
      assert (os + [o])[1..] == os[1..] + [o] && (tasks + [t])[1..] == tasks[1..] + [t];
      OutcomesSnoc(tasks[1..], os[1..], t, o, now);
      assert Fired(os[0]) + (AllFired(os[1..]) + Fired(o)) == Fired(os[0]) + AllFired(os[1..]) + Fired(o);
      var a, b, c := Remains(tasks[0], os[0], now), AllRemaining(tasks[1..], os[1..], now), Remains(t, o, now);
      assert a + (b + c) == a + b + c;
    }
  }

  lemma AnyChangeSnoc(os: seq<Outcome>, o: Outcome)
    ensures AnyChange(os + [o]) <==> AnyChange(os) || Changes(o)
  {
    if AnyChange(os) {
      var i :| 0 <= i < |os| && Changes(os[i]);
      assert (os + [o])[i] == os[i];
    }
    assert (os + [o])[|os|] == o;
  }

  /** Taking the first prompt out of the queue, and working on it if it is a delivery. */
  lemma {:induction false} PopHoldsApart(prompts: seq<Prompt>)
    requires prompts != [] && DistinctDeliveries(DurableIds(prompts))
    ensures var p, rest := prompts[0], DurableIds(prompts[1..]);
            && HoldsApart(rest, {}, None)
            && (p.source.DurableCron? ==> HoldsApart(rest, {p.source.delivery}, Some(p.source.delivery)))
  {
    var p, rest := prompts[0], DurableIds(prompts[1..]);
    var all := DurableIds(prompts);
    if p.source.DurableCron? {
      assert all == [p.source.delivery] + rest;
      forall i, j | 0 <= i < j < |rest| ensures rest[i] != rest[j] && rest[j] != p.source.delivery {
        assert all[i + 1] != all[j + 1] && all[0] != all[j + 1];
      }
      forall i | 0 <= i < |rest| ensures rest[i] != p.source.delivery {
        assert all[0] != all[i + 1];
      }
    } else {
      assert all == [] + rest == rest;
    }
  }

  lemma PassStep(ds: seq<Delivery>, c: Claimant, staged: seq<Delivery>, now: int)
    requires ds != []
    ensures var staged' := if Stages(ds[0], c, staged, now) then staged + [ds[0]] else staged;
            && ClaimAll(ds, c, staged, now) == [Claimed(ds[0], c, staged, now)] + ClaimAll(ds[1..], c, staged', now)
            && StagedBy(ds, c, staged, now) == StagedBy(ds[1..], c, staged', now)
            && (ClaimChanges(ds, c, staged, now) <==>
                  (if Working(ds[0], c, staged) then RenewsLease(ds[0], c, now) else Stages(ds[0], c, staged, now))
                  || ClaimChanges(ds[1..], c, staged', now))
  {
    hide Working, Stages, RenewsLease;
  }

  lemma PassEnd(ds: seq<Delivery>, c: Claimant, staged: seq<Delivery>, now: int)
    requires ds == []
    ensures ClaimAll(ds, c, staged, now) == [] && StagedBy(ds, c, staged, now) == staged
    ensures !ClaimChanges(ds, c, staged, now)
  {
  }

  lemma NothingStaged(c: Claimant)
    ensures Stackable(c, []) && StagedApart(c, [])
  {
  }

  lemma {:induction false} PushedDelivery(prompts: seq<Prompt>, staged: seq<Delivery>, i: nat)
    requires i < |staged|
    ensures OutboxBytes(staged[..i + 1]) == OutboxBytes(staged[..i]) + ByteLen(staged[i].prompt)
    ensures prompts + DurablePrompts(staged[..i]) + [DurablePrompt(staged[i])] == prompts + DurablePrompts(staged[..i + 1])
  {
    hide ByteLen;
    assert staged[..i + 1] == staged[..i] + [staged[i]];
    OutboxBytesConcat(staged[..i], [staged[i]]);
    assert OutboxBytes([staged[i]]) == ByteLen(staged[i].prompt) + OutboxBytes([]);
  }

  /** Hydrating newly claimed deliveries keeps what a process holds apart. */
  lemma {:induction false} StagedHoldApart(prompts: seq<Prompt>, claimed: set<DeliveryId>, pending: Option<DeliveryId>,
                                           c: Claimant, staged: seq<Delivery>)
    requires HoldsApart(DurableIds(prompts), claimed, pending) && StagedApart(c, staged)
    requires c.claimed == claimed && c.queued == set i | i in DurableIds(prompts)
    ensures HoldsApart(DurableIds(prompts + DurablePrompts(staged)), claimed, pending)
  {
    DurableIdsConcat(prompts, DurablePrompts(staged));
    DurableIdsOfStaged(staged);
    var queued := DurableIds(prompts);
    assert forall i :: 0 <= i < |queued| ==> queued[i] in c.queued;
  }
}
