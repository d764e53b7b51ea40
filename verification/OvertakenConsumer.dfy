/** A consumer of the durable outbox that another process overtook (src/cron.rs): it is stuck
    for as long as it is alone.
 */
module OvertakenConsumer {
  import opened Wrappers
  import opened TextBasics
  import opened CronPrompts
  import opened CronQueue
  import opened CronOutbox
  import opened CronService
  import opened OutboxProtocol

  /** The process waits to acknowledge a delivery that another owner has claimed since. */
  ghost predicate Overtaken(w: World, o: Owner, id: DeliveryId) {
    && o in w.procs && w.procs[o].memory.pending == Some(id)
    && exists i :: 0 <= i < |w.store.deliveries| && IsClaimedByOther(w.store.deliveries[i], o, id)
  }

  ghost predicate IsClaimedByOther(d: Delivery, o: Owner, id: DeliveryId) {
    d.id == id && d.claim.Some? && d.claim.value.owner != o
  }

  /** Steps in which no process other than `o` does anything. */
  ghost predicate OnlyBy(s: Step, o: Owner) {
    s.EditTasks? || (s.owner == o && !s.Crash? && !s.Start?)
  }

  lemma {:induction false} WorkedOnByOtherStays(ds: seq<Delivery>, c: Claimant, staged: seq<Delivery>, now: int, i: nat)
    requires i < |ds| && ds[i].id in c.claimed && ds[i].claim.Some? && ds[i].claim.value.owner != c.owner
    ensures ClaimAll(ds, c, staged, now)[i] == ds[i]
    decreases |ds|
  {
    hide StagingRoom, Claimable;
    if i > 0 {
      WorkedOnByOtherStays(ds[1..], c, if Stages(ds[0], c, staged, now) then staged + [ds[0]] else staged, now, i - 1);
    }
  }

  lemma {:induction false} PollLeavesOvertaken(w: World, s: Step, id: DeliveryId)
    requires Inv(w) && s.Poll? && Enabled(w, s) && Overtaken(w, s.owner, id)
    ensures Overtaken(After(w, s), s.owner, id) && After(w, s).taken == w.taken
  {
    hide WithinLimits, ProcessOk, ClaimsOk, GrantsOk, Outcomes, PollWork, ClaimAll, AllFired, AllRemaining, AnyChange, StagedBy;
    var o := s.owner;
    var i :| 0 <= i < |w.store.deliveries| && IsClaimedByOther(w.store.deliveries[i], o, id);
    if OutcomesIn(w, s).None? {
      PollOfNothing(w, s);
      assert IsClaimedByOther(After(w, s).store.deliveries[i], o, id);
    } else {
      PollInParts(w, s);
      var os, m := OutcomesIn(w, s).value, w.procs[o].memory;
      var c, ds := ClaimantOf(o, m), w.store.deliveries + AllFired(os);
      PollConservesTasks(w.store, os, c, s.now);
      assert ds[i] == w.store.deliveries[i];
      WorksOnPending(w, o, id);
      WorkedOnByOtherStays(ds, c, [], s.now, i);
      assert IsClaimedByOther(After(w, s).store.deliveries[i], o, id);
    }
  }

  lemma WorksOnPending(w: World, o: Owner, id: DeliveryId)
    requires ProcessesOk(w) && o in w.procs && w.procs[o].memory.pending == Some(id)
    ensures id in w.procs[o].memory.claimed
  {
    hide DistinctDeliveries, Holds, HasGrant;
    assert ProcessOk(w, o, w.procs[o].memory);
  }

  lemma {:induction false} TakeLeavesOvertaken(w: World, o: Owner, id: DeliveryId, writeOk: bool)
    requires Inv(w) && Overtaken(w, o, id)
    ensures AckOutcomeOf(w.store.deliveries, o, Some(id), writeOk) == NotOwner
    ensures WithAck(w, o, writeOk) == w
  {
    hide ProcessesOk, ClaimsOk, GrantsOk, WithinLimits;
    var ds := w.store.deliveries;
    var i :| 0 <= i < |ds| && IsClaimedByOther(ds[i], o, id);
    var n := Position(ds, id);
    assert n <= i;
    if n != i { IdsDiffer(ds, n, i); }
  }

  /** A step of a request for a prompt. */
  predicate IsRequest(s: Step) { s.Take? || s.Settle? || s.SettleLate? }

  /** A request hands out nothing, and leaves everything but a reported error as it was. */
  ghost predicate Refused(w: World, s: Step, o: Owner)
    requires IsRequest(s)
  {
    && o in w.procs && Enabled(w, s)
    && !Proceeds(if s.SettleLate? then AckOutcomeOf(w.store.deliveries, o, w.procs[o].memory.pending, s.writeOk) else OutcomeIn(w, o, s.writeOk))
    && After(w, s) == (if s.SettleLate? then w else WithError(w, o, false))
  }

  lemma {:induction false} RequestIsRefused(w: World, s: Step, o: Owner, id: DeliveryId)
    requires Inv(w) && Enabled(w, s) && IsRequest(s) && s.owner == o && Overtaken(w, o, id)
    ensures Refused(w, s, o) && Overtaken(After(w, s), o, id)
  {
    hide Inv, AckOutcomeOf, AfterAck;
    TakeLeavesOvertaken(w, o, id, s.writeOk);
    assert w.procs[o := w.procs[o]] == w.procs;
    if !w.procs[o].error { assert w.procs[o].(error := false) == w.procs[o]; }
  }

  lemma {:induction false} StepLeavesOvertaken(w: World, s: Step, o: Owner, id: DeliveryId)
    requires Inv(w) && Enabled(w, s) && OnlyBy(s, o) && Overtaken(w, o, id)
    ensures Overtaken(After(w, s), o, id) && !s.Dequeue?
    ensures IsRequest(s) ==> Refused(w, s, o)
  {
    hide Inv, Outcomes, AfterPoll, WithAck, DurableIds, AckOutcomeOf, Refused, AfterTakeStep, AfterSettle, AfterSettleWork, AfterDequeue;
    if s.Poll? {
      PollLeavesOvertaken(w, s, id);
    } else if IsRequest(s) {
      RequestIsRefused(w, s, o, id);
    } else if s.AckUnreported? {
      TakeLeavesOvertaken(w, o, id, true);
    }
  }

  /** Once another process claimed the delivery that a process is working on, that process
      alone can never get another prompt of any kind, however long it runs: its polls do not
      take the claim back, and every request for a prompt leaves everything as it was, but for
      an error of a poll that it reports. */
  lemma {:induction false} OvertakenConsumerIsStuck(steps: seq<Step>, worlds: seq<World>, m: nat, n: nat, o: Owner, id: DeliveryId)
    requires IsRun(steps, worlds) && m <= n <= |steps| && Overtaken(worlds[m], o, id)
    requires forall k :: m <= k < n ==> OnlyBy(steps[k], o)
    ensures Overtaken(worlds[n], o, id)
    ensures forall k :: m <= k < n ==> !steps[k].Dequeue? && (IsRequest(steps[k]) ==> Refused(worlds[k], steps[k], o))
    decreases n - m
  {
    hide IsRun, Inv, Enabled, After, Overtaken, OnlyBy, Refused;
    RunStart(steps, worlds);
    if m < n {
      OvertakenConsumerIsStuck(steps, worlds, m, n - 1, o, id);
      RunStep(steps, worlds, n - 1);
      RunKeepsInv(steps, worlds, n - 1);
      StepLeavesOvertaken(worlds[n - 1], steps[n - 1], o, id);
    }
  }

  /* ---------- everybody else is served ---------- */

  ghost predicate IsOvertaken(w: World, o: Owner) {
    o in w.procs && w.procs[o].memory.pending.Some? && Overtaken(w, o, w.procs[o].memory.pending.value)
  }

  /** The delivery a process is working on is never without a claim. */
  lemma {:induction false} PendingIsClaimed(w: World, o: Owner, i: nat)
    requires Inv(w) && o in w.procs && i < |w.store.deliveries|
    requires w.procs[o].memory.pending == Some(w.store.deliveries[i].id)
    ensures w.store.deliveries[i].claim.Some?
  {
    hide DeliveriesKept, GrantsOk, DistinctDeliveries;
    var id := w.store.deliveries[i].id;
    assert ProcessOk(w, o, w.procs[o].memory) && ClaimOk(w, w.store.deliveries[i]);
    WorksOnPending(w, o, id);
    assert Holds(w.procs[o].memory, id);
    assert HasGrant(w.grants, o, id);
  }

  lemma {:induction false} AckProceedsUnlessOvertaken(w: World, o: Owner)
    requires Inv(w) && o in w.procs
    ensures Proceeds(AckOutcomeOf(w.store.deliveries, o, w.procs[o].memory.pending, true)) <==> !IsOvertaken(w, o)
  {
    hide Inv;
    var ds, pending := w.store.deliveries, w.procs[o].memory.pending;
    if IsOvertaken(w, o) {
      TakeLeavesOvertaken(w, o, pending.value, true);
    } else if pending.Some? {
      var n := Position(ds, pending.value);
      if n < |ds| {
        PendingIsClaimed(w, o, n);
        assert !IsClaimedByOther(ds[n], o, pending.value);
      }
    }
  }

  /** In every run, a process whose store can be written is served exactly unless it was overtaken
      or a poll of its own has failed since its last request: its request settles the delivery
      before and hands out the head of its queue. A request that is not served because of such an
      error takes the error with it, so the next one is served if no other poll fails before. */
  lemma {:induction false} ServedExactlyUnlessOvertaken(steps: seq<Step>, worlds: seq<World>, n: nat, o: Owner)
    requires IsRun(steps, worlds) && n <= |steps| && o in worlds[n].procs
    ensures var w, m, refused := worlds[n], worlds[n].procs[o].memory, IsOvertaken(worlds[n], o) || worlds[n].procs[o].error;
            && (Proceeds(OutcomeIn(w, o, true)) <==> !refused)
            && (Proceeds(AckOutcomeOf(w.store.deliveries, o, m.pending, true)) <==> !IsOvertaken(w, o))
            && HandedOut(m, OutcomeIn(w, o, true)) == (if refused || m.ready == [] then None else Some(m.ready[0]))
            && Enabled(w, Take(o, true)) && o in After(w, Take(o, true)).procs
            && After(w, Take(o, true)).procs[o].memory.ready == (if refused || m.ready == [] then m.ready else m.ready[1..])
            && !After(w, Take(o, true)).procs[o].error
  {
    hide IsRun, Inv, IsOvertaken, AckOutcomeOf, AfterAck;
    RunKeepsInv(steps, worlds, n);
    AckProceedsUnlessOvertaken(worlds[n], o);
  }

  /** A poll in the background that does not get to the end makes the next request fail. A due
      recurring task that finds room but has no next time does that to the polls of all processes,
      and then no task fires, no lease is renewed and nothing is queued. */
  lemma {:induction false} StoppedPollFailsTheNextRequest(steps: seq<Step>, worlds: seq<World>, n: nat, i: nat)
    requires IsRun(steps, worlds) && n < |steps| && steps[n].Poll? && !steps[n].startup
    requires i < |worlds[n].store.tasks| && |steps[n].ids| == |worlds[n].store.tasks|
    requires var w, s := worlds[n], steps[n]; StopsAt(w.store.tasks, s.ids, w.store.deliveries, s.now, s.startup, s.nextRun, i)
    ensures var w, s, w' := worlds[n], steps[n], worlds[n + 1];
            && s.owner in w.procs && s.owner in w'.procs
            && w'.store == w.store && w'.grants == w.grants && w'.procs[s.owner].memory == w.procs[s.owner].memory
            && OutcomeIn(w', s.owner, true) == PollError && After(w', Take(s.owner, true)) == WithError(w', s.owner, false)
  {
    hide IsRun, Inv, Outcomes, StopsAt, AckOutcomeOf, AfterAck;
    RunStep(steps, worlds, n);
    var w, s := worlds[n], steps[n];
    PollStopsExactly(w.store.tasks, s.ids, w.store.deliveries, s.now, s.startup, s.nextRun);
    PollOfNothing(w, s);
  }

  /** It comes to that without anybody being overtaken: one process, one due recurring task without
      a next time. */
  lemma {:induction false} RequestsFailWithoutOvertaking(t: Task, nextRun: NextRun) returns (worlds: seq<World>)
    requires LacksNextRun(t, [], 0, false, nextRun)
    ensures var steps := [EditTasks([t]), Start(0, 0), Poll(0, 0, false, [7], nextRun, Nothing)];
            && IsRun(steps, worlds) && worlds[3].procs.Keys == {0}
            && !IsOvertaken(worlds[3], 0) && OutcomeIn(worlds[3], 0, true) == PollError
  {
    hide ByteLen, HasRoom, DuePrompt, AgedOut, Outcomes;
    var p := Process(IDLE, 0, false);
    var w1 := World(Store([t], []), map[], {}, {}, map[], {}, {});
    var w2 := World(Store([t], []), map[0 := p], {}, {}, map[], {}, {0});
    var w3 := w2.(procs := map[0 := p.(error := true)]);
    worlds := [World(Store([], []), map[], {}, {}, map[], {}, {}), w1, w2, w3];
    var s := Poll(0, 0, false, [7], nextRun, Nothing);
    StopsAtFirst([t], [7], [], 0, false, nextRun);
    PollStopsExactly([t], [7], [], 0, false, nextRun);
    assert OutcomesIn(w2, s).None? by { assert OutcomeOf(t, 7, [], 0, false, nextRun).None?; assert StopsAt([t], [7], [], 0, false, nextRun, 0); }
    PollOfNothing(w2, s);
    assert After(w2, s).procs == w3.procs;
  }

  const IDLE: Memory := Memory([], {}, None)

  /* ---------- it does come to that ---------- */

  lemma ClaimSingle(d: Delivery, c: Claimant, now: int)
    requires Stages(d, c, [], now)
    ensures ClaimAll([d], c, [], now) == [Leased(d, c, now)] && StagedBy([d], c, [], now) == [d] && ClaimChanges([d], c, [], now)
  {
    hide ByteLen;
    PassStep([d], c, [], now);
    assert [d][1..] == [] && [] + [d] == [d];
  }

  lemma FiresOnce(t: Task, d: Delivery, now: int, nextRun: NextRun)
    requires !t.recurring && t.nextFireAt <= now && ByteLen(DuePrompt(t, false)) <= CRON_BYTES
    requires d == Delivery(d.id, DuePrompt(t, false), None)
    ensures Outcomes([t], [d.id], [], now, false, nextRun) == Some([FiredOnce(d)])
    ensures AnyChange([FiredOnce(d)]) && AllFired([FiredOnce(d)]) == [d] && AllRemaining([t], [FiredOnce(d)], now) == []
  {
    hide ByteLen, DuePrompt, Outcomes;
    var o := FiredOnce(d);
    OutcomesStep([t], [d.id], [], now, false, nextRun, []);
    OutcomesEnd([t][1..], [d.id][1..], [] + Fired(o), now, false, nextRun);
    assert OutcomeOf(t, d.id, [], now, false, nextRun) == Some(o);
    assert [] + [o] + [] == [o];
    var r := Outcomes([t], [d.id], [], now, false, nextRun);
    if r.Some? { assert [] + r.value == r.value; }
    assert Changes([o][0]);
    assert [o][1..] == [];
  }

  /** Two processes and one due task: the first fires and takes it; its lease runs out; the
      second claims it and crashes. */
  function OvertakingSteps(t: Task, nextRun: NextRun): seq<Step> {
    [EditTasks([t]), Start(0, 0), Start(1, 0), FirstPollStep(nextRun), Take(0, true),
     Poll(1, LEASE_MS, false, [], nextRun, QueueFilled), Crash(1)]
  }

  function FirstPollStep(nextRun: NextRun): Step { Poll(0, 0, false, [7], nextRun, QueueFilled) }

  const GRANT_A: Grant := Grant(0, 7, 0)
  const GRANT_B: Grant := Grant(1, 7, LEASE_MS)
  const WORKING: Memory := Memory([], {7}, Some(7))

  function ByFirst(d: Delivery): Delivery { d.(claim := Some(Claim(0, LEASE_MS))) }
  function BySecond(d: Delivery): Delivery { d.(claim := Some(Claim(1, 2 * LEASE_MS))) }
  function Queued(d: Delivery): Memory { Memory([DurablePrompt(d)], {}, None) }

  function BeforePolls(t: Task): World {
    World(Store([t], []), map[0 := Process(IDLE, 0, false), 1 := Process(IDLE, 0, false)], {}, {}, map[], {}, {0, 1})
  }

  function AfterFirstPoll(d: Delivery): World {
    World(Store([], [ByFirst(d)]), map[0 := Process(Queued(d), 0, false), 1 := Process(IDLE, 0, false)], {GRANT_A}, {}, map[], {7}, {0, 1})
  }

  function OvertakingWorlds(t: Task, d: Delivery): seq<World> {
    [World(Store([], []), map[], {}, {}, map[], {}, {}),
     World(Store([t], []), map[], {}, {}, map[], {}, {}),
     World(Store([t], []), map[0 := Process(IDLE, 0, false)], {}, {}, map[], {}, {0}),
     BeforePolls(t),
     AfterFirstPoll(d),
     World(Store([], [ByFirst(d)]), map[0 := Process(WORKING, 0, false), 1 := Process(IDLE, 0, false)], {GRANT_A}, {(0, 7)}, map[], {7}, {0, 1}),
     World(Store([], [BySecond(d)]), map[0 := Process(WORKING, 0, false), 1 := Process(Queued(d), LEASE_MS, false)],
           {GRANT_A, GRANT_B}, {(0, 7)}, map[], {7}, {0, 1}),
     World(Store([], [BySecond(d)]), map[0 := Process(WORKING, 0, false)], {GRANT_A, GRANT_B}, {(0, 7)}, map[], {7}, {0, 1})]
  }

  lemma IdleClaims(o: Owner, d: Delivery, now: int)
    requires ByteLen(d.prompt) <= CRON_BYTES && (d.claim.None? || d.claim.value.expiresAt <= now)
    ensures Stages(d, ClaimantOf(o, IDLE), [], now)
  {
    hide ByteLen;
    ClaimantIs(o, IDLE);
  }

  /** A poll by an idle process that ends up with one delivery to claim. */
  lemma IdlePoll(w: World, s: Step, os: seq<Outcome>, d: Delivery)
    requires s.Poll? && Enabled(w, s) && s.stage.QueueFilled? && OutcomesIn(w, s) == Some(os)
    requires w.procs[s.owner].memory == IDLE && w.store.deliveries + AllFired(os) == [d]
    requires if AnyChange(os) then AllRemaining(w.store.tasks, os, s.now) == [] else w.store.tasks == []
    requires ByteLen(d.prompt) <= CRON_BYTES && (d.claim.None? || d.claim.value.expiresAt <= s.now)
    ensures var d' := Leased(d, ClaimantOf(s.owner, IDLE), s.now);
            After(w, s) == WithProcess(w, s.owner, Process(Memory([DurablePrompt(d)], {}, None), s.now, w.procs[s.owner].error))
                           .(store := Store([], [d']), grants := w.grants + {Grant(s.owner, d.id, s.now)}, usedIds := w.usedIds + {d.id})
  {
    hide ByteLen, Outcomes, AnyChange, AllFired, AllRemaining, ClaimAll, StagedBy, ClaimChanges, Stages;
    var c := ClaimantOf(s.owner, IDLE);
    var d' := Leased(d, c, s.now);
    IdleClaims(s.owner, d, s.now);
    ClaimSingle(d, c, s.now);
    assert StoreAfter(w.store, os, c, s.now, QueueFilled) == Store([], [d']);
    assert Recorded([d']) == {Grant(s.owner, d.id, s.now)} by { assert GrantOf([d'][0]) == Grant(s.owner, d.id, s.now); }
    assert IdSet([d']) == {d.id} by { assert [d'][0].id == d.id; }
    assert [] + DurablePrompts([d]) == [DurablePrompt(d)];
  }

  lemma SetUp(t: Task, d: Delivery, nextRun: NextRun, i: nat)
    requires i < 3
    ensures var steps, worlds := OvertakingSteps(t, nextRun), OvertakingWorlds(t, d);
            Enabled(worlds[i], steps[i]) && worlds[i + 1] == After(worlds[i], steps[i])
  {
    hide Outcomes, ByteLen;
    var steps, worlds := OvertakingSteps(t, nextRun), OvertakingWorlds(t, d);
    assert steps[i] == if i == 0 then EditTasks([t]) else if i == 1 then Start(0, 0) else Start(1, 0);
  }

  lemma FourthWorld(t: Task, d: Delivery)
    requires d.id == 7
    ensures var w := BeforePolls(t);
            WithProcess(w, 0, Process(Queued(d), 0, false))
            .(store := Store([], [ByFirst(d)]), grants := w.grants + {GRANT_A}, usedIds := w.usedIds + {7})
            == AfterFirstPoll(d)
  {
    hide DurablePrompt, ByFirst, Queued;
  }

  lemma FirstPoll(t: Task, d: Delivery, nextRun: NextRun)
    requires !t.recurring && t.nextFireAt <= 0 && ByteLen(DuePrompt(t, false)) <= CRON_BYTES
    requires d == Delivery(7, DuePrompt(t, false), None)
    ensures Enabled(BeforePolls(t), FirstPollStep(nextRun))
    ensures AfterFirstPoll(d) == After(BeforePolls(t), FirstPollStep(nextRun))
  {
    hide ByteLen, DuePrompt, Outcomes, AnyChange, AllFired, AllRemaining, After, WithProcess;
    var w, s := BeforePolls(t), FirstPollStep(nextRun);
    FiresOnce(t, d, 0, nextRun);
    assert OutcomesIn(w, s) == Some([FiredOnce(d)]);
    assert [] + [d] == [d];
    assert Enabled(w, s);
    IdlePoll(w, s, [FiredOnce(d)], d);
    assert Leased(d, ClaimantOf(0, IDLE), 0) == ByFirst(d);
    FourthWorld(t, d);
  }

  lemma FirstTake(t: Task, d: Delivery, nextRun: NextRun)
    requires d.id == 7
    ensures var steps, worlds := OvertakingSteps(t, nextRun), OvertakingWorlds(t, d);
            Enabled(worlds[4], steps[4]) && worlds[5] == After(worlds[4], steps[4])
  {
    hide ByteLen, Outcomes;
    StepAt(t, nextRun);
    var w := OvertakingWorlds(t, d)[4];
    assert MemoryAfterTake(Queued(d), NothingPending) == WORKING;
    assert w.procs[0].memory == Queued(d);
  }

  lemma StepAt(t: Task, nextRun: NextRun)
    ensures OvertakingSteps(t, nextRun)[4] == Take(0, true)
    ensures OvertakingSteps(t, nextRun)[5] == Poll(1, LEASE_MS, false, [], nextRun, QueueFilled)
    ensures OvertakingSteps(t, nextRun)[6] == Crash(1)
  {
  }

  lemma SecondPoll(t: Task, d: Delivery, nextRun: NextRun)
    requires d.id == 7 && ByteLen(d.prompt) <= CRON_BYTES
    ensures var steps, worlds := OvertakingSteps(t, nextRun), OvertakingWorlds(t, d);
            Enabled(worlds[5], steps[5]) && worlds[6] == After(worlds[5], steps[5])
  {
    hide ByteLen, After, AllRemaining;
    var w, s := OvertakingWorlds(t, d)[5], OvertakingSteps(t, nextRun)[5];
    OutcomesEnd([], [], w.store.deliveries, s.now, false, nextRun);
    IdlePoll(w, s, [], ByFirst(d));
  }

  /** It does come to that: a run of seven steps leaves the only living process overtaken. */
  lemma {:induction false} ConsumersAreOvertaken(t: Task, d: Delivery, nextRun: NextRun)
    requires !t.recurring && t.nextFireAt <= 0 && ByteLen(DuePrompt(t, false)) <= CRON_BYTES
    requires d == Delivery(7, DuePrompt(t, false), None)
    ensures IsRun(OvertakingSteps(t, nextRun), OvertakingWorlds(t, d))
    ensures OvertakingWorlds(t, d)[7].procs.Keys == {0} && Overtaken(OvertakingWorlds(t, d)[7], 0, 7)
  {
    hide ByteLen, DuePrompt, After, Enabled;
    var steps, worlds := OvertakingSteps(t, nextRun), OvertakingWorlds(t, d);
    assert IsClaimedByOther(worlds[7].store.deliveries[0], 0, 7);
    forall i | 0 <= i < |steps| ensures Enabled(worlds[i], steps[i]) && worlds[i + 1] == After(worlds[i], steps[i]) {
      if i < 3 {
        SetUp(t, d, nextRun, i);
      } else if i == 3 {
        FirstPoll(t, d, nextRun);
      } else if i == 4 {
        FirstTake(t, d, nextRun);
      } else if i == 5 {
        SecondPoll(t, d, nextRun);
      } else {
        LastStep(t, d, nextRun);
      }
    }
  }

  lemma LastStep(t: Task, d: Delivery, nextRun: NextRun)
    ensures var steps, worlds := OvertakingSteps(t, nextRun), OvertakingWorlds(t, d);
            Enabled(worlds[6], steps[6]) && worlds[7] == After(worlds[6], steps[6])
  {
    hide ByteLen, Outcomes;
    StepAt(t, nextRun);
  }
}
