/** The durable outbox as a protocol between processes that share one store (src/cron.rs).

    Every poll and every acknowledgement runs under the lock of the store, so each is one
    step. A request for a prompt looks for a recorded error, acknowledges and dequeues; it is one
    step if nothing comes in between, and otherwise acknowledging (late, if a poll came after the
    look for an error) and dequeuing are steps of their own. A process may crash between any two steps,
    and also in the middle of a poll, after the first or the second write. Each process reads its own clock, which never runs
    backwards; the clocks of different processes need not agree.
 */
module OutboxProtocol {
  import opened Wrappers
  import opened TextBasics
  import opened CronPrompts
  import opened CronQueue
  import opened CronOutbox
  import opened CronService

  /** A running process: what it remembers, the last time it read from its clock, and whether an
      error of a poll waits to be reported. */
  datatype Process = Process(memory: Memory, clock: int, error: bool)

  /** A lease on a delivery, taken at some time by the clock of its owner. */
  datatype Grant = Grant(owner: Owner, id: DeliveryId, at: int)

  /** The store, the running processes by owner id, and the history: every lease the store
      ever recorded, which deliveries were handed out by whom, which were acknowledged by
      whom, and all ids ever used. */
  datatype World = World(
    store: Store, procs: map<Owner, Process>,
    grants: set<Grant>, taken: set<(Owner, DeliveryId)>, acked: map<DeliveryId, Owner>,
    usedIds: set<DeliveryId>, usedOwners: set<Owner>)

  datatype Step =
    | Poll(owner: Owner, now: int, startup: bool, ids: seq<DeliveryId>, nextRun: NextRun, stage: PollStage)
    | Take(owner: Owner, writeOk: bool)
    | Settle(owner: Owner, writeOk: bool)
    | SettleLate(owner: Owner, writeOk: bool)
    | Dequeue(owner: Owner)
    | AckUnreported(owner: Owner)
    | Crash(owner: Owner)
    | Start(owner: Owner, clock: int)
    | Other(owner: Owner, ready: seq<Prompt>, error: bool)
    | EditTasks(tasks: seq<Task>)

  ghost function IdSet(ds: seq<Delivery>): set<DeliveryId> {
    set i | 0 <= i < |ds| :: ds[i].id
  }

  function GrantOf(d: Delivery): Grant
    requires d.claim.Some?
  {
    Grant(d.claim.value.owner, d.id, d.claim.value.expiresAt - LEASE_MS)
  }

  /** The leases that a store records. */
  ghost function Recorded(ds: seq<Delivery>): set<Grant> {
    set i | 0 <= i < |ds| && ds[i].claim.Some? :: GrantOf(ds[i])
  }

  ghost function OutcomesIn(w: World, s: Step): Option<seq<Outcome>>
    requires s.Poll? && |s.ids| == |w.store.tasks|
  {
    Outcomes(w.store.tasks, s.ids, w.store.deliveries, s.now, s.startup, s.nextRun)
  }

  /** New ids are distinct and were never used before. */
  ghost predicate NewIds(ids: seq<DeliveryId>, used: set<DeliveryId>) {
    && (forall i, j :: 0 <= i < j < |ids| ==> ids[i] != ids[j])
    && (forall i :: 0 <= i < |ids| ==> ids[i] !in used)
  }

  ghost predicate Enabled(w: World, s: Step) {
    match s
    case Poll(o, now, _, ids, _, stage) =>
      && o in w.procs && w.procs[o].clock <= now && |ids| == |w.store.tasks| && NewIds(ids, w.usedIds)
      && (OutcomesIn(w, s).None? ==> stage.Nothing?)
    case Take(o, _) => o in w.procs
    case Settle(o, _) => o in w.procs
    case SettleLate(o, _) => o in w.procs
    case Dequeue(o) => o in w.procs && w.procs[o].memory.pending.None?
    case AckUnreported(o) => o in w.procs
    case Crash(o) => o in w.procs
    case Start(o, _) => o !in w.usedOwners
    case Other(o, ready, _) => o in w.procs && DurableIds(ready) == DurableIds(w.procs[o].memory.ready)
    case EditTasks(_) => true
  }

  /** The world after a store write of a poll. */
  ghost function WithStore(w: World, s: Store): World {
    w.(store := s, grants := w.grants + Recorded(s.deliveries), usedIds := w.usedIds + IdSet(s.deliveries))
  }

  ghost function WithProcess(w: World, o: Owner, p: Process): World {
    w.(procs := w.procs[o := p])
  }

  /** What a poll does to store and queue. */
  ghost function PollWork(w: World, s: Step): World
    requires s.Poll? && Enabled(w, s)
  {
    var p, os := w.procs[s.owner], OutcomesIn(w, s);
    if os.None? then WithProcess(w, s.owner, p.(clock := s.now))
    else
      var c := ClaimantOf(s.owner, p.memory);
      WithProcess(WithStore(w, StoreAfter(w.store, os.value, c, s.now, s.stage)), s.owner,
                  p.(memory := MemoryAfter(p.memory, w.store, os.value, c, s.now, s.stage), clock := s.now))
  }

  ghost function WithError(w: World, o: Owner, error: bool): World
    requires o in w.procs
  {
    WithProcess(w, o, w.procs[o].(error := error))
  }

  ghost function AfterPoll(w: World, s: Step): World
    requires s.Poll? && Enabled(w, s)
  {
    WithError(PollWork(w, s), s.owner, w.procs[s.owner].error || RecordsError(s.stage, s.startup))
  }

  /** The world once a process tried to remove the delivery it handed out last. */
  ghost function WithAck(w: World, o: Owner, writeOk: bool): World
    requires o in w.procs
  {
    var pending := w.procs[o].memory.pending;
    w.(store := w.store.(deliveries := AfterAck(w.store.deliveries, o, pending, writeOk)),
    acked := if AckOutcomeOf(w.store.deliveries, o, pending, writeOk).Removed? then w.acked[pending.value := o] else w.acked)
  }

  /** The world once a process has settled the delivery it handed out last. */
  ghost function AfterSettleWork(w: World, o: Owner, writeOk: bool): World
    requires o in w.procs
  {
    var p := w.procs[o];
    var m := MemoryAfterAck(p.memory, AckOutcomeOf(w.store.deliveries, o, p.memory.pending, writeOk));
    WithProcess(WithAck(w, o, writeOk), o, p.(memory := m))
  }

  /** ... or reported an error instead. */
  ghost function AfterSettle(w: World, o: Owner, writeOk: bool): World
    requires o in w.procs
  {
    if w.procs[o].error then WithError(w, o, false) else AfterSettleWork(w, o, writeOk)
  }

  /** The world once a process has handed out the head of its queue. */
  ghost function AfterDequeue(w: World, o: Owner): World
    requires o in w.procs
  {
    var p := w.procs[o];
    var m := MemoryAfterDequeue(p.memory);
    WithProcess(w, o, p.(memory := m)).(taken := if m.pending.Some? then w.taken + {(o, m.pending.value)} else w.taken)
  }

  ghost function OutcomeIn(w: World, o: Owner, writeOk: bool): AckOutcome
    requires o in w.procs
  {
    RequestOutcome(w.store.deliveries, o, w.procs[o].memory.pending, writeOk, w.procs[o].error)
  }

  ghost function AfterTakeStep(w: World, o: Owner, writeOk: bool): World
    requires o in w.procs
  {
    if Proceeds(OutcomeIn(w, o, writeOk)) then AfterDequeue(AfterSettle(w, o, writeOk), o) else AfterSettle(w, o, writeOk)
  }

  ghost function After(w: World, s: Step): World
    requires Enabled(w, s)
  {
    match s
    case Poll(_, _, _, _, _, _) => AfterPoll(w, s)
    case Take(o, writeOk) => AfterTakeStep(w, o, writeOk)
    case Settle(o, writeOk) => AfterSettle(w, o, writeOk)
    case SettleLate(o, writeOk) => AfterSettleWork(w, o, writeOk)
    case Dequeue(o) => AfterDequeue(w, o)
    case AckUnreported(o) => WithAck(w, o, true)
    case Crash(o) => w.(procs := w.procs - {o})
    case Start(o, clock) =>
      WithProcess(w, o, Process(Memory([], {}, None), clock, false)).(usedOwners := w.usedOwners + {o})
    case Other(o, ready, error) =>
      var p := w.procs[o];
      WithProcess(w, o, p.(memory := p.memory.(ready := ready), error := error))
    case EditTasks(tasks) => w.(store := w.store.(tasks := tasks))
  }

  ghost predicate Initial(w: World) {
    && w.store.deliveries == [] && w.procs == map[] && w.grants == {} && w.taken == {} && w.acked == map[]
    && w.usedIds == {} && w.usedOwners == {}
  }

  ghost predicate IsRun(steps: seq<Step>, worlds: seq<World>) {
    && |worlds| == |steps| + 1 && Initial(worlds[0])
    && forall i :: 0 <= i < |steps| ==> Enabled(worlds[i], steps[i]) && worlds[i + 1] == After(worlds[i], steps[i])
  }

  /* ---------- what every step keeps ---------- */

  /** A process holds a delivery while it is queued or being worked on. */
  ghost predicate Holds(m: Memory, id: DeliveryId) {
    id in m.claimed || exists i :: 0 <= i < |DurableIds(m.ready)| && DurableIds(m.ready)[i] == id
  }

  ghost predicate HasGrant(grants: set<Grant>, o: Owner, id: DeliveryId) {
    exists g :: g in grants && g.owner == o && g.id == id
  }

  /** Every delivery is stored or acknowledged, and never both. */
  ghost predicate DeliveriesKept(w: World) {
    && WithinLimits(w.store.deliveries)
    && w.usedIds == IdSet(w.store.deliveries) + w.acked.Keys
    && (forall i :: 0 <= i < |w.store.deliveries| ==> w.store.deliveries[i].id !in w.acked)
    && (forall id :: id in w.acked ==> (w.acked[id], id) in w.taken)
  }

  ghost predicate ProcessOk(w: World, o: Owner, m: Memory) {
    && MemoryOk(m)
    && (forall id :: Holds(m, id) ==> HasGrant(w.grants, o, id))
    && (m.pending.Some? ==> (o, m.pending.value) in w.taken)
  }

  ghost predicate ProcessesOk(w: World) {
    w.procs.Keys <= w.usedOwners && forall o :: o in w.procs ==> ProcessOk(w, o, w.procs[o].memory)
  }

  /** The claim in the store is the lease on the delivery that lasts longest, and the clock of
      its owner has passed the time it was taken. */
  ghost predicate ClaimOk(w: World, d: Delivery) {
    && (d.claim.None? ==> forall g :: g in w.grants ==> g.id != d.id)
    && (d.claim.Some? ==>
          && GrantOf(d) in w.grants
          && (forall g :: g in w.grants && g.id == d.id ==> g.at <= GrantOf(d).at)
          && (d.claim.value.owner in w.procs ==> GrantOf(d).at <= w.procs[d.claim.value.owner].clock))
  }

  ghost predicate ClaimsOk(w: World) {
    forall i :: 0 <= i < |w.store.deliveries| ==> ClaimOk(w, w.store.deliveries[i])
  }

  /** Leases of different owners on one delivery do not overlap. */
  ghost predicate Disjoint(g: Grant, h: Grant) {
    g.id == h.id && g.owner != h.owner ==> g.at + LEASE_MS <= h.at || h.at + LEASE_MS <= g.at
  }

  ghost predicate GrantsOk(w: World) {
    && (forall g :: g in w.grants ==> g.id in w.usedIds && g.owner in w.usedOwners)
    && (forall g, h :: g in w.grants && h in w.grants ==> Disjoint(g, h))
  }

  ghost predicate Inv(w: World) {
    DeliveriesKept(w) && ProcessesOk(w) && ClaimsOk(w) && GrantsOk(w)
  }

  lemma {:induction false} FiredAreNew(tasks: seq<Task>, ids: seq<DeliveryId>, ds: seq<Delivery>, now: int,
                                       startup: bool, nextRun: NextRun, j: nat)
    requires |ids| == |tasks| && Outcomes(tasks, ids, ds, now, startup, nextRun).Some?
    requires j < |AllFired(Outcomes(tasks, ids, ds, now, startup, nextRun).value)|
    ensures var d := AllFired(Outcomes(tasks, ids, ds, now, startup, nextRun).value)[j];
            d.claim.None? && exists i :: 0 <= i < |ids| && ids[i] == d.id
    decreases |tasks|
  {
    hide DuePrompt, HasRoom, IsExpired;
    var os := Outcomes(tasks, ids, ds, now, startup, nextRun).value;
    var first := Fired(os[0]);
    var rest := Outcomes(tasks[1..], ids[1..], ds + first, now, startup, nextRun).value;
    assert os[1..] == rest;
    if j < |first| {
      assert AllFired(os)[j] == first[0];
    } else {
      FiredAreNew(tasks[1..], ids[1..], ds + first, now, startup, nextRun, j - |first|);
      assert AllFired(os)[j] == AllFired(rest)[j - |first|];
      var i :| 0 <= i < |ids[1..]| && ids[1..][i] == AllFired(os)[j].id;
      assert ids[i + 1] == AllFired(os)[j].id;
    }
  }

  /** More leases, and more running processes' clocks, do not take grants away. */
  lemma ProcessOkGrows(w: World, v: World, o: Owner, m: Memory)
    requires ProcessOk(w, o, m) && w.grants <= v.grants && w.taken <= v.taken
    ensures ProcessOk(v, o, m)
  {
    hide MemoryOk, Holds;
    forall id | Holds(m, id) ensures HasGrant(v.grants, o, id) {
      assert HasGrant(w.grants, o, id);
      var g :| g in w.grants && g.owner == o && g.id == id;
      assert g in v.grants;
    }
  }

  lemma TasksDoNotMatter(w: World, tasks: seq<Task>)
    requires Inv(w)
    ensures Inv(w.(store := w.store.(tasks := tasks)))
  {
    hide WithinLimits, ProcessOk, ClaimOk, Disjoint;
    var v := w.(store := w.store.(tasks := tasks));
    forall o | o in v.procs ensures ProcessOk(v, o, v.procs[o].memory) {
      ProcessOkGrows(w, v, o, w.procs[o].memory);
    }
    forall i | 0 <= i < |v.store.deliveries| ensures ClaimOk(v, v.store.deliveries[i]) {
      assert ClaimOk(w, w.store.deliveries[i]);
      SameClaim(w, v, w.store.deliveries[i]);
    }
  }

  lemma SameClaim(w: World, v: World, d: Delivery)
    requires ClaimOk(w, d) && v.grants == w.grants
    requires d.claim.Some? && d.claim.value.owner in v.procs ==>
               d.claim.value.owner in w.procs && w.procs[d.claim.value.owner].clock <= v.procs[d.claim.value.owner].clock
    ensures ClaimOk(v, d)
  {
  }

  /** Adding deliveries that nobody claimed and whose ids are new. */
  lemma {:induction false} NewDeliveriesKeepInv(w: World, tasks: seq<Task>, ds: seq<Delivery>)
    requires Inv(w) && w.store.deliveries <= ds && WithinLimits(ds)
    requires forall j :: |w.store.deliveries| <= j < |ds| ==> ds[j].claim.None? && ds[j].id !in w.usedIds
    ensures Inv(WithStore(w, Store(tasks, ds))) && WithStore(w, Store(tasks, ds)).grants == w.grants
  {
    hide WithinLimits, ProcessOk, ClaimOk, Disjoint;
    var v, old_ := WithStore(w, Store(tasks, ds)), w.store.deliveries;
    forall g | g in Recorded(ds) ensures g in w.grants {
      var i :| 0 <= i < |ds| && ds[i].claim.Some? && g == GrantOf(ds[i]);
      assert ds[i] == old_[i] && ClaimOk(w, old_[i]);
      ClaimIsGranted(w, old_[i]);
    }
    assert v.grants == w.grants;
    assert IdSet(old_) <= IdSet(ds) by {
      forall id | id in IdSet(old_) ensures id in IdSet(ds) {
        var i :| 0 <= i < |old_| && old_[i].id == id;
        assert ds[i].id == id;
      }
    }
    assert v.usedIds == IdSet(ds) + v.acked.Keys;
    forall i | 0 <= i < |ds| ensures ds[i].id !in v.acked && ClaimOk(v, ds[i]) {
      if i < |old_| {
        assert ds[i] == old_[i] && ClaimOk(w, old_[i]);
        SameClaim(w, v, ds[i]);
      } else {
        assert ds[i].id !in w.usedIds;
        UnusedIsUnclaimed(w, v, ds[i]);
      }
    }
    forall o | o in v.procs ensures ProcessOk(v, o, v.procs[o].memory) {
      ProcessOkGrows(w, v, o, w.procs[o].memory);
    }
  }

  lemma ClaimIsGranted(w: World, d: Delivery)
    requires ClaimOk(w, d) && d.claim.Some?
    ensures GrantOf(d) in w.grants
  {
  }

  lemma UnusedIsUnclaimed(w: World, v: World, d: Delivery)
    requires GrantsOk(w) && v.grants == w.grants && d.claim.None? && d.id !in w.usedIds
    ensures ClaimOk(v, d)
  {
  }

  /** The first write of a poll. */
  lemma {:induction false} FiringKeepsInv(w: World, s: Step)
    requires Inv(w) && s.Poll? && Enabled(w, s) && OutcomesIn(w, s).Some?
    ensures var v := WithStore(w, AfterFiring(w.store, OutcomesIn(w, s).value, s.now));
            Inv(v) && v.grants == w.grants
    ensures WithinLimits(w.store.deliveries + AllFired(OutcomesIn(w, s).value))
  {
    hide WithinLimits, ProcessesOk, ClaimsOk, GrantsOk, Outcomes, AllFired, AllRemaining, AnyChange;
    var ds, os := w.store.deliveries, OutcomesIn(w, s).value;
    assert FreshIds(s.ids, ds) by {
      forall i, j | 0 <= i < |s.ids| && 0 <= j < |ds| ensures s.ids[i] != ds[j].id {
        assert ds[j].id in IdSet(ds);
      }
    }
    FiringKeepsLimits(w.store.tasks, s.ids, ds, s.now, s.startup, s.nextRun);
    PollConservesTasks(w.store, os, Claimant(0, {}, {}, 0, 0), s.now);
    var all := ds + AllFired(os);
    forall j | |ds| <= j < |all| ensures all[j].claim.None? && all[j].id !in w.usedIds {
      FiredAreNew(w.store.tasks, s.ids, ds, s.now, s.startup, s.nextRun, j - |ds|);
      var i :| 0 <= i < |s.ids| && s.ids[i] == all[j].id;
    }
    NewDeliveriesKeepInv(w, AfterFiring(w.store, os, s.now).tasks, all);
  }

  /** Whoever may claim a delivery finds the leases of others on it expired. */
  lemma ClaimableMeansExpired(w: World, o: Owner, d: Delivery, c: Claimant, now: int, h: Grant)
    requires GrantsOk(w) && ClaimOk(w, d) && Claimable(d, c, now) && c.owner == o
    requires o in w.procs && w.procs[o].clock <= now && h in w.grants && h.id == d.id
    ensures h.at <= now && (h.owner != o ==> h.at + LEASE_MS <= now)
  {
    assert d.claim.Some?;
    assert Disjoint(h, GrantOf(d));
  }

  /** What the claim pass makes of each delivery. */
  ghost predicate PassDid(before: seq<Delivery>, after: seq<Delivery>, c: Claimant, now: int, staged: seq<Delivery>) {
    && |after| == |before|
    && (forall i :: 0 <= i < |before| ==> ClaimStep(before[i], after[i], c, now, InStaged(before[i], staged)))
    && (forall k :: 0 <= k < |staged| ==> staged[k] in before)
  }

  lemma {:induction false} PassDoes(ds: seq<Delivery>, c: Claimant, now: int)
    requires UniqueIds(ds)
    ensures PassDid(ds, ClaimAll(ds, c, [], now), c, now, StagedBy(ds, c, [], now))
  {
    hide ClaimAll, StagedBy, ClaimStep, InStaged;
    var after, staged := ClaimAll(ds, c, [], now), StagedBy(ds, c, [], now);
    forall i | 0 <= i < |ds| ensures ClaimStep(ds[i], after[i], c, now, InStaged(ds[i], staged)) {
      ClaimedEach(ds, c, [], now, i);
    }
    forall k | 0 <= k < |staged| ensures staged[k] in ds {
      StagedAreStored(ds, c, [], now, staged[k]);
    }
  }

  /** The world after a claim pass; the queue is filled only if the poll gets that far. */
  ghost function AfterPass(w: World, tasks: seq<Task>, o: Owner, now: int, filled: bool): World
    requires o in w.procs
  {
    var m := w.procs[o].memory;
    var c, ds := ClaimantOf(o, m), w.store.deliveries;
    WithProcess(WithStore(w, Store(tasks, ClaimAll(ds, c, [], now))), o,
                w.procs[o].(memory := if filled then m.(ready := m.ready + DurablePrompts(StagedBy(ds, c, [], now))) else m, clock := now))
  }

  /** A lease that the pass records is either an old one or taken now, when every lease of
      another owner on that delivery had expired. */
  lemma {:induction false} RecordedByPass(w: World, o: Owner, now: int, ds': seq<Delivery>, c: Claimant, staged: seq<Delivery>, g: Grant)
    requires GrantsOk(w) && ClaimsOk(w) && o in w.procs && w.procs[o].clock <= now && c.owner == o
    requires PassDid(w.store.deliveries, ds', c, now, staged) && g in Recorded(ds')
    ensures g in w.grants || (g.owner == o && g.at == now)
    ensures g !in w.grants ==> forall h :: h in w.grants && h.id == g.id ==> h.at <= now && (h.owner != o ==> h.at + LEASE_MS <= now)
    ensures g.id in IdSet(w.store.deliveries)
  {
    hide GrantsOk, ClaimOk, Claimable;
    var ds := w.store.deliveries;
    var i :| 0 <= i < |ds'| && ds'[i].claim.Some? && g == GrantOf(ds'[i]);
    assert ClaimStep(ds[i], ds'[i], c, now, InStaged(ds[i], staged)) && ClaimOk(w, ds[i]);
    if ds'[i].claim == ds[i].claim {
      ClaimIsGranted(w, ds[i]);
    } else {
      forall h | h in w.grants && h.id == g.id ensures h.at <= now && (h.owner != o ==> h.at + LEASE_MS <= now) {
        ClaimableMeansExpired(w, o, ds[i], c, now, h);
      }
    }
  }

  lemma {:induction false} PassKeepsGrants(w: World, v: World, o: Owner, now: int, c: Claimant, staged: seq<Delivery>)
    requires GrantsOk(w) && ClaimsOk(w) && o in w.procs && w.procs[o].clock <= now && c.owner == o && o in w.usedOwners
    requires PassDid(w.store.deliveries, v.store.deliveries, c, now, staged)
    requires v.grants == w.grants + Recorded(v.store.deliveries)
    requires v.usedOwners == w.usedOwners && w.usedIds <= v.usedIds && IdSet(w.store.deliveries) <= v.usedIds
    ensures GrantsOk(v)
  {
    hide PassDid, ClaimsOk, IdSet;
    forall g | g in v.grants ensures g.id in v.usedIds && g.owner in v.usedOwners {
      if g !in w.grants { RecordedByPass(w, o, now, v.store.deliveries, c, staged, g); }
    }
    forall g, h | g in v.grants && h in v.grants ensures Disjoint(g, h) {
      if g !in w.grants { RecordedByPass(w, o, now, v.store.deliveries, c, staged, g); }
      if h !in w.grants { RecordedByPass(w, o, now, v.store.deliveries, c, staged, h); }
    }
  }

  lemma {:induction false} PassKeepsClaims(w: World, v: World, o: Owner, now: int, c: Claimant, staged: seq<Delivery>)
    requires GrantsOk(w) && ClaimsOk(w) && o in w.procs && w.procs[o].clock <= now && c.owner == o
    requires PassDid(w.store.deliveries, v.store.deliveries, c, now, staged) && UniqueIds(v.store.deliveries)
    requires v.grants == w.grants + Recorded(v.store.deliveries)
    requires v.procs.Keys == w.procs.Keys && v.procs[o].clock == now
    requires forall p :: p in w.procs && p != o ==> v.procs[p] == w.procs[p]
    ensures ClaimsOk(v)
  {
    hide GrantsOk, Claimable;
    var ds, ds' := w.store.deliveries, v.store.deliveries;
    forall i | 0 <= i < |ds'| ensures ClaimOk(v, ds'[i]) {
      assert ClaimStep(ds[i], ds'[i], c, now, InStaged(ds[i], staged)) && ClaimOk(w, ds[i]);
      forall g | g in v.grants && g.id == ds'[i].id
        ensures ds'[i].claim.Some? && g.at <= GrantOf(ds'[i]).at
      {
        if g in Recorded(ds') {
          var k :| 0 <= k < |ds'| && ds'[k].claim.Some? && g == GrantOf(ds'[k]);
          assert k == i;
        } else if ds'[i].claim != ds[i].claim {
          ClaimableMeansExpired(w, o, ds[i], c, now, g);
        }
      }
      if ds'[i].claim.Some? { assert GrantOf(ds'[i]) in Recorded(ds'); }
    }
  }

  lemma {:induction false} PassKeepsProcess(w: World, v: World, o: Owner, now: int, c: Claimant, staged: seq<Delivery>, filled: bool)
    requires o in w.procs && ProcessOk(w, o, w.procs[o].memory) && c == ClaimantOf(o, w.procs[o].memory)
    requires PassDid(w.store.deliveries, v.store.deliveries, c, now, staged) && StagedApart(c, staged)
    requires v.grants == w.grants + Recorded(v.store.deliveries) && w.taken == v.taken
    ensures var m := w.procs[o].memory;
            ProcessOk(v, o, if filled then m.(ready := m.ready + DurablePrompts(staged)) else m)
  {
    hide DurableIds, HoldsApart, StagedApart, ClaimantOf, Holds, HasGrant, PassDid;
    var m := w.procs[o].memory;
    ProcessOkGrows(w, v, o, m);
    if filled {
      var m' := m.(ready := m.ready + DurablePrompts(staged));
      ClaimantIs(o, m);
      StagedHoldApart(m.ready, m.claimed, m.pending, c, staged);
      forall id | Holds(m', id) ensures HasGrant(v.grants, o, id) {
        HeldAfterFilling(m, staged, id);
        if !Holds(m, id) {
          var k :| 0 <= k < |staged| && staged[k].id == id;
          StagedIsGranted(w, v, c, now, staged, k);
        }
      }
    }
  }

  lemma {:induction false} HeldAfterFilling(m: Memory, staged: seq<Delivery>, id: DeliveryId)
    ensures Holds(m.(ready := m.ready + DurablePrompts(staged)), id) <==>
            Holds(m, id) || exists k :: 0 <= k < |staged| && staged[k].id == id
  {
    hide DurableIds, DurablePrompts, IdsOf;
    DurableIdsConcat(m.ready, DurablePrompts(staged));
    DurableIdsOfStaged(staged);
    FoundInEither(DurableIds(m.ready), IdsOf(staged), id);
    IdsOfAt(staged, id);
  }

  lemma FoundInEither(a: seq<DeliveryId>, b: seq<DeliveryId>, id: DeliveryId)
    ensures (exists i :: 0 <= i < |a + b| && (a + b)[i] == id) <==>
            (exists i :: 0 <= i < |a| && a[i] == id) || (exists k :: 0 <= k < |b| && b[k] == id)
  {
    if i :| 0 <= i < |a| && a[i] == id { assert (a + b)[i] == id; }
    if k :| 0 <= k < |b| && b[k] == id { assert (a + b)[|a| + k] == id; }
  }

  lemma IdsOfAt(ds: seq<Delivery>, id: DeliveryId)
    ensures (exists k :: 0 <= k < |IdsOf(ds)| && IdsOf(ds)[k] == id) <==> (exists k :: 0 <= k < |ds| && ds[k].id == id)
  {
    if k :| 0 <= k < |ds| && ds[k].id == id { assert IdsOf(ds)[k] == id; }
  }

  lemma ClaimantIs(o: Owner, m: Memory)
    ensures ClaimantOf(o, m).claimed == m.claimed && ClaimantOf(o, m).queued == (set i | i in DurableIds(m.ready))
    ensures ClaimantOf(o, m).owner == o && ClaimantOf(o, m).length == |m.ready|
  {
  }

  lemma {:induction false} StagedIsGranted(w: World, v: World, c: Claimant, now: int, staged: seq<Delivery>, k: nat)
    requires PassDid(w.store.deliveries, v.store.deliveries, c, now, staged) && k < |staged|
    requires v.grants == w.grants + Recorded(v.store.deliveries)
    ensures HasGrant(v.grants, c.owner, staged[k].id)
  {
    hide Claimable;
    var ds, ds' := w.store.deliveries, v.store.deliveries;
    assert staged[k] in ds;
    var i :| 0 <= i < |ds| && ds[i] == staged[k];
    assert InStaged(ds[i], staged);
    assert ClaimStep(ds[i], ds'[i], c, now, true);
    assert GrantOf(ds'[i]) in Recorded(ds');
    assert GrantOf(ds'[i]).id == staged[k].id && GrantOf(ds'[i]).owner == c.owner;
  }

  /** The second write of a poll, with or without the queue being filled after it. */
  lemma {:induction false} PassKeepsInv(w: World, tasks: seq<Task>, o: Owner, now: int, filled: bool)
    requires Inv(w) && o in w.procs && w.procs[o].clock <= now
    ensures Inv(AfterPass(w, tasks, o, now, filled))
  {
    hide ProcessOk, ClaimsOk, GrantsOk, ClaimAll, StagedBy, PassDid, StagedApart, Stackable, OutboxBytes, ClaimantOf;
    var m, ds := w.procs[o].memory, w.store.deliveries;
    var c := ClaimantOf(o, m);
    ClaimantIs(o, m);
    var ds', staged := ClaimAll(ds, c, [], now), StagedBy(ds, c, [], now);
    var v := AfterPass(w, tasks, o, now, filled);
    PassDoes(ds, c, now);
    ClaimingKeepsLimits(ds, c, [], now);
    SameIdsAndPrompts(ds, c, [], now);
    SameIdSet(ds, ds');
    NothingStaged(c);
    StagedFits(ds, c, [], now);
    assert v.grants == w.grants + Recorded(v.store.deliveries);
    PassKeepsGrants(w, v, o, now, c, staged);
    PassKeepsClaims(w, v, o, now, c, staged);
    PassKeepsProcess(w, v, o, now, c, staged, filled);
    forall p | p in v.procs ensures ProcessOk(v, p, v.procs[p].memory) {
      if p != o { ProcessOkGrows(w, v, p, w.procs[p].memory); }
    }
    forall i | 0 <= i < |ds'| ensures ds'[i].id !in v.acked {
      assert ds'[i].id == ds[i].id;
    }
  }

  lemma SameIdSet(a: seq<Delivery>, b: seq<Delivery>)
    requires |a| == |b| && forall i :: 0 <= i < |a| ==> b[i].id == a[i].id
    ensures IdSet(a) == IdSet(b)
  {
    assert forall i :: 0 <= i < |a| ==> a[i].id in IdSet(b) && b[i].id in IdSet(a);
  }

  /** A poll is its writes one after another. */
  lemma {:induction false} PollInParts(w: World, s: Step)
    requires Inv(w) && s.Poll? && Enabled(w, s) && OutcomesIn(w, s).Some?
    ensures var v, o := PollWork(w, s), s.owner;
            var w1 := WithStore(w, AfterFiring(w.store, OutcomesIn(w, s).value, s.now));
            match s.stage
            case Nothing => v == WithProcess(w, o, w.procs[o].(clock := s.now))
            case TasksFired => v == WithProcess(w1, o, w.procs[o].(clock := s.now))
            case _ => v == AfterPass(w1, v.store.tasks, o, s.now, s.stage.QueueFilled?)
  {
    hide WithinLimits, ProcessesOk, ClaimsOk, GrantsOk, Outcomes, AllFired, AllRemaining, AnyChange, ClaimAll, StagedBy, ClaimChanges;
    hide ClaimantOf, DurablePrompts;
    var o, os, p := s.owner, OutcomesIn(w, s).value, w.procs[s.owner];
    var c, ds := ClaimantOf(o, p.memory), w.store.deliveries + AllFired(os);
    var w1 := WithStore(w, AfterFiring(w.store, os, s.now));
    FiringKeepsInv(w, s);
    PollConservesTasks(w.store, os, c, s.now);
    if s.stage.Nothing? {
      StoreIsRecorded(w);
    }
    var after := AfterClaiming(w.store, os, c, s.now);
    if ClaimChanges(ds, c, [], s.now) {
      assert after.deliveries == ClaimAll(ds, c, [], s.now);
    } else {
      NoClaimNoChange(ds, c, [], s.now);
    }
    SameIdsAndPrompts(ds, c, [], s.now);
    SameIdSet(ds, ClaimAll(ds, c, [], s.now));
    assert w1.usedIds == w.usedIds + IdSet(ds);
  }

  lemma StoreIsRecorded(w: World)
    requires Inv(w)
    ensures WithStore(w, w.store) == w
  {
    hide WithinLimits, ProcessesOk, GrantsOk;
    var ds := w.store.deliveries;
    forall g | g in Recorded(ds) ensures g in w.grants {
      var i :| 0 <= i < |ds| && ds[i].claim.Some? && g == GrantOf(ds[i]);
      assert ClaimOk(w, ds[i]);
    }
    assert w.grants + Recorded(ds) == w.grants;
    assert w.usedIds + IdSet(ds) == w.usedIds;
  }

  lemma {:induction false} ClockKeepsInv(w: World, o: Owner, clock: int)
    requires Inv(w) && o in w.procs && w.procs[o].clock <= clock
    ensures Inv(WithProcess(w, o, w.procs[o].(clock := clock)))
  {
    hide DeliveriesKept, ProcessOk, ClaimOk, Disjoint;
    var v := WithProcess(w, o, w.procs[o].(clock := clock));
    forall p | p in v.procs ensures ProcessOk(v, p, v.procs[p].memory) {
      ProcessOkGrows(w, v, p, w.procs[p].memory);
    }
    forall i | 0 <= i < |v.store.deliveries| ensures ClaimOk(v, v.store.deliveries[i]) {
      assert ClaimOk(w, w.store.deliveries[i]);
      SameClaim(w, v, w.store.deliveries[i]);
    }
    SameDeliveries(w, v);
  }

  lemma SameDeliveries(w: World, v: World)
    requires DeliveriesKept(w) && v.store.deliveries == w.store.deliveries && v.acked == w.acked
    requires v.usedIds == w.usedIds && w.taken <= v.taken
    ensures DeliveriesKept(v)
  {
    hide WithinLimits;
  }

  lemma {:induction false} PollWorkKeepsInv(w: World, s: Step)
    requires Inv(w) && s.Poll? && Enabled(w, s)
    ensures Inv(PollWork(w, s))
  {
    hide Inv, Outcomes, PollWork;
    var o := s.owner;
    if OutcomesIn(w, s).None? {
      ClockKeepsInv(w, o, s.now);
      PollOfNothing(w, s);
    } else {
      PollInParts(w, s);
      FiringKeepsInv(w, s);
      var w1 := WithStore(w, AfterFiring(w.store, OutcomesIn(w, s).value, s.now));
      match s.stage {
        case Nothing => ClockKeepsInv(w, o, s.now);
        case TasksFired => ClockKeepsInv(w1, o, s.now);
        case _ => PassKeepsInv(w1, PollWork(w, s).store.tasks, o, s.now, s.stage.QueueFilled?);
      }
    }
  }

  /** A recorded error is no part of the protocol. */
  lemma {:induction false} ErrorKeepsInv(w: World, o: Owner, error: bool)
    requires Inv(w) && o in w.procs
    ensures Inv(WithError(w, o, error))
  {
    hide DeliveriesKept, ProcessOk, ClaimOk, Disjoint;
    var v := WithError(w, o, error);
    SameDeliveries(w, v);
    forall p | p in v.procs ensures ProcessOk(v, p, v.procs[p].memory) { ProcessOkGrows(w, v, p, w.procs[p].memory); }
    forall i | 0 <= i < |v.store.deliveries| ensures ClaimOk(v, v.store.deliveries[i]) {
      assert ClaimOk(w, w.store.deliveries[i]);
      SameClaim(w, v, w.store.deliveries[i]);
    }
  }

  lemma {:induction false} PollKeepsInv(w: World, s: Step)
    requires Inv(w) && s.Poll? && Enabled(w, s)
    ensures Inv(After(w, s))
  {
    hide Inv, Outcomes, PollWork;
    PollWorkKeepsInv(w, s);
    PollWorkKeepsProcesses(w, s);
    ErrorKeepsInv(PollWork(w, s), s.owner, w.procs[s.owner].error || RecordsError(s.stage, s.startup));
  }

  lemma PollWorkKeepsProcesses(w: World, s: Step)
    requires s.Poll? && Enabled(w, s)
    ensures s.owner in PollWork(w, s).procs && PollWork(w, s).procs.Keys == w.procs.Keys
  {
    hide Outcomes, StoreAfter, MemoryAfter, IdSet, Recorded, ClaimantOf;
  }

  lemma PollOfNothing(w: World, s: Step)
    requires s.Poll? && Enabled(w, s) && OutcomesIn(w, s).None?
    ensures PollWork(w, s) == WithProcess(w, s.owner, w.procs[s.owner].(clock := s.now))
  {
  }

  /** Removing a delivery from the store. */
  lemma {:induction false} RemovalKeepsLimits(ds: seq<Delivery>, n: nat)
    requires WithinLimits(ds) && n < |ds|
    ensures WithinLimits(ds[..n] + ds[n + 1..])
    ensures IdSet(ds[..n] + ds[n + 1..]) == IdSet(ds) - {ds[n].id}
  {
    hide ByteLen, OutboxBytes;
    var r := ds[..n] + ds[n + 1..];
    assert ds == ds[..n] + [ds[n]] + ds[n + 1..];
    OutboxBytesConcat(ds[..n], [ds[n]]);
    OutboxBytesConcat(ds[..n] + [ds[n]], ds[n + 1..]);
    OutboxBytesConcat(ds[..n], ds[n + 1..]);
    forall id | id in IdSet(ds) && id != ds[n].id ensures id in IdSet(r) {
      var i :| 0 <= i < |ds| && ds[i].id == id;
      assert r[if i < n then i else i - 1].id == id;
    }
  }

  lemma {:induction false} AckKeepsInv(w: World, o: Owner, writeOk: bool)
    requires Inv(w) && o in w.procs
    ensures Inv(WithAck(w, o, writeOk))
  {
    hide WithinLimits, IdSet, ProcessOk, ClaimOk, Disjoint;
    var v, ds := WithAck(w, o, writeOk), w.store.deliveries;
    var pending := w.procs[o].memory.pending;
    if AckOutcomeOf(ds, o, pending, writeOk).Removed? {
      var n := Position(ds, pending.value);
      RemovalKeepsLimits(ds, n);
      PendingIsTaken(w, o);
      forall p | p in v.procs ensures ProcessOk(v, p, v.procs[p].memory) {
        ProcessOkGrows(w, v, p, w.procs[p].memory);
      }
      var left := v.store.deliveries;
      forall i | 0 <= i < |left| ensures ClaimOk(v, left[i]) && left[i].id !in v.acked {
        var k := if i < n then i else i + 1;
        assert left[i] == ds[k] && ClaimOk(w, ds[k]);
        SameClaim(w, v, ds[k]);
        IdsDiffer(ds, n, k);
      }
      IdIn(ds, n);
    }
  }

  lemma IdsDiffer(ds: seq<Delivery>, n: nat, k: nat)
    requires WithinLimits(ds) && n < |ds| && k < |ds| && n != k
    ensures ds[k].id != ds[n].id
  {
    hide OutboxBytes;
  }

  lemma IdIn(ds: seq<Delivery>, n: nat)
    requires n < |ds|
    ensures ds[n].id in IdSet(ds)
  {
  }

  lemma PendingIsTaken(w: World, o: Owner)
    requires Inv(w) && o in w.procs && w.procs[o].memory.pending.Some?
    ensures (o, w.procs[o].memory.pending.value) in w.taken
  {
    hide DeliveriesKept, ClaimsOk, GrantsOk, MemoryOk, Holds;
    assert ProcessOk(w, o, w.procs[o].memory);
  }

  /** A new memory for a process that holds no more than before. */
  lemma {:induction false} MemoryKeepsInv(w: World, o: Owner, m: Memory, taken: set<(Owner, DeliveryId)>)
    requires Inv(w) && o in w.procs && MemoryOk(m) && w.taken <= taken
    requires forall id :: Holds(m, id) ==> Holds(w.procs[o].memory, id)
    requires m.pending.Some? ==> (o, m.pending.value) in taken
    ensures Inv(WithProcess(w, o, w.procs[o].(memory := m)).(taken := taken))
  {
    hide DeliveriesKept, ClaimOk, Disjoint, MemoryOk, Holds, HasGrant;
    var v := WithProcess(w, o, w.procs[o].(memory := m)).(taken := taken);
    SameDeliveries(w, v);
    forall p | p in v.procs ensures ProcessOk(v, p, v.procs[p].memory) {
      assert ProcessOk(w, p, w.procs[p].memory);
      if p != o { ProcessOkGrows(w, v, p, w.procs[p].memory); }
    }
    forall i | 0 <= i < |v.store.deliveries| ensures ClaimOk(v, v.store.deliveries[i]) {
      assert ClaimOk(w, w.store.deliveries[i]);
      SameClaim(w, v, w.store.deliveries[i]);
    }
  }

  /** Settling a delivery and handing out a prompt never make a process hold more. */
  lemma {:induction false} SettlingHoldsNoMore(m: Memory, ack: AckOutcome)
    requires MemoryOk(m)
    ensures MemoryOk(MemoryAfterAck(m, ack))
    ensures forall id :: Holds(MemoryAfterAck(m, ack), id) ==> Holds(m, id)
  {
    hide DistinctDeliveries, DurableIds;
  }

  lemma {:induction false} DequeuingHoldsNoMore(m: Memory)
    requires MemoryOk(m) && m.pending.None?
    ensures MemoryOk(MemoryAfterDequeue(m))
    ensures forall id :: Holds(MemoryAfterDequeue(m), id) ==> Holds(m, id)
  {
    hide DistinctDeliveries;
    var m' := MemoryAfterDequeue(m);
    if m.ready != [] {
      PopHoldsApart(m.ready);
      var head := if m.ready[0].source.DurableCron? then [m.ready[0].source.delivery] else [];
      assert DurableIds(m.ready) == head + DurableIds(m.ready[1..]);
      forall id | Holds(m', id) ensures Holds(m, id) {
        if id in m'.claimed {
          assert DurableIds(m.ready)[0] == id;
        } else {
          var i :| 0 <= i < |DurableIds(m'.ready)| && DurableIds(m'.ready)[i] == id;
          assert DurableIds(m.ready)[i + |head|] == id;
        }
      }
    }
  }

  lemma {:induction false} SettleWorkKeepsInv(w: World, o: Owner, writeOk: bool)
    requires Inv(w) && o in w.procs
    ensures Inv(AfterSettleWork(w, o, writeOk))
  {
    hide Inv, MemoryOk, Holds, MemoryAfterAck, AckOutcomeOf, WithAck;
    var p := w.procs[o];
    var ack := AckOutcomeOf(w.store.deliveries, o, p.memory.pending, writeOk);
    var v, m := WithAck(w, o, writeOk), MemoryAfterAck(p.memory, ack);
    AckKeepsInv(w, o, writeOk);
    AckLeavesProcesses(w, o, writeOk);
    MemoryIsOk(w, o);
    SettlingHoldsNoMore(p.memory, ack);
    SettledPending(w, o, ack);
    MemoryKeepsInv(v, o, m, w.taken);
  }

  lemma {:induction false} SettleKeepsInv(w: World, o: Owner, writeOk: bool)
    requires Inv(w) && o in w.procs
    ensures Inv(AfterSettle(w, o, writeOk))
  {
    hide Inv, AfterSettleWork;
    if w.procs[o].error { ErrorKeepsInv(w, o, false); } else { SettleWorkKeepsInv(w, o, writeOk); }
  }

  lemma SettledPending(w: World, o: Owner, ack: AckOutcome)
    requires Inv(w) && o in w.procs
    ensures var m := MemoryAfterAck(w.procs[o].memory, ack); m.pending.Some? ==> (o, m.pending.value) in w.taken
  {
    hide Inv;
    if w.procs[o].memory.pending.Some? { PendingIsTaken(w, o); }
  }

  lemma {:induction false} DequeueKeepsInv(w: World, o: Owner)
    requires Inv(w) && o in w.procs && w.procs[o].memory.pending.None?
    ensures Inv(AfterDequeue(w, o))
  {
    hide Inv, MemoryOk, Holds, MemoryAfterDequeue;
    var m := MemoryAfterDequeue(w.procs[o].memory);
    MemoryIsOk(w, o);
    DequeuingHoldsNoMore(w.procs[o].memory);
    MemoryKeepsInv(w, o, m, if m.pending.Some? then w.taken + {(o, m.pending.value)} else w.taken);
  }

  /** A request that goes on has nothing left to acknowledge. */
  lemma SettledHasNothingPending(w: World, o: Owner, writeOk: bool)
    requires o in w.procs
    ensures o in AfterSettle(w, o, writeOk).procs
    ensures Proceeds(OutcomeIn(w, o, writeOk)) ==>
              && AfterSettle(w, o, writeOk) == AfterSettleWork(w, o, writeOk)
              && AfterSettle(w, o, writeOk).procs[o].memory.pending.None?
  {
    hide AckOutcomeOf;
  }

  lemma {:induction false} TakeKeepsInv(w: World, o: Owner, writeOk: bool)
    requires Inv(w) && o in w.procs
    ensures Inv(AfterTakeStep(w, o, writeOk))
  {
    hide Inv, OutcomeIn, AfterSettle, AfterDequeue;
    SettleKeepsInv(w, o, writeOk);
    SettledHasNothingPending(w, o, writeOk);
    if Proceeds(OutcomeIn(w, o, writeOk)) { DequeueKeepsInv(AfterSettle(w, o, writeOk), o); }
  }

  lemma AckLeavesProcesses(w: World, o: Owner, writeOk: bool)
    requires o in w.procs
    ensures WithAck(w, o, writeOk).procs == w.procs && WithAck(w, o, writeOk).taken == w.taken
  {
  }

  lemma MemoryIsOk(w: World, o: Owner)
    requires Inv(w) && o in w.procs
    ensures MemoryOk(w.procs[o].memory)
  {
    hide DeliveriesKept, ClaimsOk, GrantsOk, MemoryOk, Holds;
    assert ProcessOk(w, o, w.procs[o].memory);
  }

  lemma {:induction false} StartKeepsInv(w: World, o: Owner, clock: int)
    requires Inv(w) && o !in w.usedOwners
    ensures Inv(After(w, Start(o, clock)))
  {
    hide DeliveriesKept, ProcessOk, ClaimOk, Disjoint;
    var v := After(w, Start(o, clock));
    SameDeliveries(w, v);
    forall p | p in v.procs ensures ProcessOk(v, p, v.procs[p].memory) {
      if p == o { NothingHeld(v, o); } else { ProcessOkGrows(w, v, p, w.procs[p].memory); }
    }
    forall i | 0 <= i < |v.store.deliveries| ensures ClaimOk(v, v.store.deliveries[i]) {
      var d := v.store.deliveries[i];
      assert ClaimOk(w, w.store.deliveries[i]);
      if d.claim.Some? { ClaimIsGranted(w, d); }
      SameClaim(w, v, d);
    }
  }

  lemma NothingHeld(w: World, o: Owner)
    ensures ProcessOk(w, o, Memory([], {}, None))
  {
  }

  lemma {:induction false} CrashKeepsInv(w: World, o: Owner)
    requires Inv(w) && o in w.procs
    ensures Inv(After(w, Crash(o)))
  {
    hide DeliveriesKept, ProcessOk, ClaimOk, Disjoint;
    var v := After(w, Crash(o));
    SameDeliveries(w, v);
    forall p | p in v.procs ensures ProcessOk(v, p, v.procs[p].memory) {
      ProcessOkGrows(w, v, p, w.procs[p].memory);
    }
    forall i | 0 <= i < |v.store.deliveries| ensures ClaimOk(v, v.store.deliveries[i]) {
      assert ClaimOk(w, w.store.deliveries[i]);
      SameClaim(w, v, w.store.deliveries[i]);
    }
  }

  lemma {:induction false} OtherKeepsInv(w: World, o: Owner, ready: seq<Prompt>, error: bool)
    requires Inv(w) && o in w.procs && DurableIds(ready) == DurableIds(w.procs[o].memory.ready)
    ensures Inv(After(w, Other(o, ready, error)))
  {
    hide Inv, DurableIds, HoldsApart;
    var m := w.procs[o].memory;
    MemoryIsOk(w, o);
    if m.pending.Some? {
      PendingIsTaken(w, o);
    }
    MemoryKeepsInv(w, o, m.(ready := ready), w.taken);
    var v := WithProcess(w, o, w.procs[o].(memory := m.(ready := ready))).(taken := w.taken);
    ErrorKeepsInv(v, o, error);
    assert w.procs[o := v.procs[o]][o := v.procs[o].(error := error)] == w.procs[o := v.procs[o].(error := error)];
    assert WithError(v, o, error) == After(w, Other(o, ready, error));
  }

  lemma {:induction false} StepKeepsInv(w: World, s: Step)
    requires Inv(w) && Enabled(w, s)
    ensures Inv(After(w, s))
  {
    hide Inv;
    match s {
      case Poll(_, _, _, _, _, _) => PollKeepsInv(w, s);
      case Take(o, writeOk) => TakeKeepsInv(w, o, writeOk);
      case Settle(o, writeOk) => SettleKeepsInv(w, o, writeOk);
      case SettleLate(o, writeOk) => SettleWorkKeepsInv(w, o, writeOk);
      case Dequeue(o) => DequeueKeepsInv(w, o);
      case AckUnreported(o) => AckKeepsInv(w, o, true);
      case Crash(o) => CrashKeepsInv(w, o);
      case Start(o, clock) => StartKeepsInv(w, o, clock);
      case Other(o, ready, error) => OtherKeepsInv(w, o, ready, error);
      case EditTasks(tasks) => TasksDoNotMatter(w, tasks);
    }
  }

  lemma {:induction false} RunKeepsInv(steps: seq<Step>, worlds: seq<World>, n: nat)
    requires IsRun(steps, worlds) && n <= |steps|
    ensures |worlds| == |steps| + 1 && Inv(worlds[n])
  {
    hide Inv, Enabled, After, IsRun;
    if n == 0 {
      RunStart(steps, worlds);
      InitialInv(worlds[0]);
    } else {
      RunKeepsInv(steps, worlds, n - 1);
      RunStep(steps, worlds, n - 1);
      StepKeepsInv(worlds[n - 1], steps[n - 1]);
    }
  }

  lemma RunStart(steps: seq<Step>, worlds: seq<World>)
    requires IsRun(steps, worlds)
    ensures |worlds| == |steps| + 1 && Initial(worlds[0])
  {
  }

  lemma RunStep(steps: seq<Step>, worlds: seq<World>, n: nat)
    requires IsRun(steps, worlds) && n < |steps|
    ensures |worlds| == |steps| + 1 && Enabled(worlds[n], steps[n]) && worlds[n + 1] == After(worlds[n], steps[n])
  {
    hide Enabled, After, Initial;
  }

  lemma InitialInv(w: World)
    requires Initial(w)
    ensures Inv(w)
  {
  }

  /* ---------- leases ---------- */

  /** In every run, leases of different owners on one delivery never overlap. */
  lemma {:induction false} LeasesNeverOverlap(steps: seq<Step>, worlds: seq<World>, n: nat, g: Grant, h: Grant)
    requires IsRun(steps, worlds) && n <= |steps|
    requires g in worlds[n].grants && h in worlds[n].grants && g.id == h.id && g.owner != h.owner
    ensures g.at + LEASE_MS <= h.at || h.at + LEASE_MS <= g.at
  {
    hide IsRun, DeliveriesKept, ProcessesOk, ClaimsOk;
    RunKeepsInv(steps, worlds, n);
    assert Disjoint(g, h);
  }

  /** A lease is only ever taken by a poll of its owner, at the time of that poll, and only
      when every earlier lease of another owner on that delivery had expired by then. */
  lemma {:induction false} NewLeaseFindsOthersExpired(steps: seq<Step>, worlds: seq<World>, n: nat, g: Grant)
    requires IsRun(steps, worlds) && n < |steps|
    requires g in worlds[n + 1].grants && g !in worlds[n].grants
    ensures steps[n].Poll? && steps[n].owner == g.owner && steps[n].now == g.at
    ensures forall h :: h in worlds[n].grants && h.id == g.id && h.owner != g.owner ==> h.at + LEASE_MS <= g.at
  {
    hide IsRun, Inv, WithinLimits, AfterPass, Outcomes, PollWork, Recorded, PassDid;
    RunStep(steps, worlds, n);
    var w, s := worlds[n], steps[n];
    RunKeepsInv(steps, worlds, n);
    assert s.Poll?;
    if OutcomesIn(w, s).None? {
      PollOfNothing(w, s);
      assert false;
    } else {
      PollInParts(w, s);
      FiringKeepsInv(w, s);
      var w1 := WithStore(w, AfterFiring(w.store, OutcomesIn(w, s).value, s.now));
      assert s.stage.DeliveriesClaimed? || s.stage.QueueFilled?;
      PassGrants(w1, After(w, s).store.tasks, s.owner, s.now, s.stage.QueueFilled?, g);
    }
  }

  lemma {:induction false} PassGrants(w: World, tasks: seq<Task>, o: Owner, now: int, filled: bool, g: Grant)
    requires Inv(w) && o in w.procs && w.procs[o].clock <= now
    requires g in AfterPass(w, tasks, o, now, filled).grants && g !in w.grants
    ensures g.owner == o && g.at == now
    ensures forall h :: h in w.grants && h.id == g.id && h.owner != o ==> h.at + LEASE_MS <= now
  {
    hide OutboxBytes, ProcessesOk, ClaimsOk, GrantsOk, ClaimAll, StagedBy, PassDid, ClaimantOf, Recorded;
    var ds, c := w.store.deliveries, ClaimantOf(o, w.procs[o].memory);
    ClaimantIs(o, w.procs[o].memory);
    PassDoes(ds, c, now);
    RecordedByPass(w, o, now, ClaimAll(ds, c, [], now), c, StagedBy(ds, c, [], now), g);
  }

  /** What a process holds it has a lease on in the store, and it holds it once: queued once,
      or being worked on, never both. */
  lemma {:induction false} HeldOnceAndOnlyUnderLease(steps: seq<Step>, worlds: seq<World>, n: nat, o: Owner, id: DeliveryId)
    requires IsRun(steps, worlds) && n <= |steps| && o in worlds[n].procs && Holds(worlds[n].procs[o].memory, id)
    ensures HasGrant(worlds[n].grants, o, id)
    ensures var m := worlds[n].procs[o].memory;
            && (forall i, j :: 0 <= i < j < |DurableIds(m.ready)| ==> DurableIds(m.ready)[i] != DurableIds(m.ready)[j])
            && (id in m.claimed ==> id !in DurableIds(m.ready))
  {
    hide IsRun, DeliveriesKept, ClaimsOk, GrantsOk, Holds, HasGrant;
    RunKeepsInv(steps, worlds, n);
    assert ProcessOk(worlds[n], o, worlds[n].procs[o].memory);
  }

  /** If two processes hold one delivery, there is no time at which both leases run: one of
      them had expired when the other was taken. */
  lemma {:induction false} TwoHoldersTakeTurns(steps: seq<Step>, worlds: seq<World>, n: nat, o: Owner, p: Owner, id: DeliveryId)
    requires IsRun(steps, worlds) && n <= |steps| && o in worlds[n].procs && p in worlds[n].procs && o != p
    requires Holds(worlds[n].procs[o].memory, id) && Holds(worlds[n].procs[p].memory, id)
    ensures exists g, h :: g in worlds[n].grants && h in worlds[n].grants && g.owner == o && h.owner == p && g.id == h.id == id
                           && (g.at + LEASE_MS <= h.at || h.at + LEASE_MS <= g.at)
  {
    hide IsRun, Holds;
    RunStart(steps, worlds);
    HeldOnceAndOnlyUnderLease(steps, worlds, n, o, id);
    HeldOnceAndOnlyUnderLease(steps, worlds, n, p, id);
    var g :| g in worlds[n].grants && g.owner == o && g.id == id;
    var h :| h in worlds[n].grants && h.owner == p && h.id == id;
    LeasesNeverOverlap(steps, worlds, n, g, h);
  }

  /* ---------- no delivery is lost ---------- */

  /** The ids of the store after a step other than an acknowledgement that went through. */
  lemma {:induction false} PollKeepsDeliveries(w: World, s: Step, id: DeliveryId)
    requires Inv(w) && s.Poll? && Enabled(w, s) && id in IdSet(w.store.deliveries)
    ensures id in IdSet(After(w, s).store.deliveries)
  {
    hide WithinLimits, ProcessesOk, ClaimsOk, GrantsOk, Outcomes, PollWork, ClaimAll, AllFired, AllRemaining, AnyChange, ClaimantOf;
    if OutcomesIn(w, s).None? {
      PollOfNothing(w, s);
    } else {
      PollInParts(w, s);
      var os, p := OutcomesIn(w, s).value, w.procs[s.owner];
      PollConservesTasks(w.store, os, ClaimantOf(s.owner, p.memory), s.now);
      var ds := w.store.deliveries + AllFired(os);
      var i :| 0 <= i < |w.store.deliveries| && w.store.deliveries[i].id == id;
      assert ds[i].id == id;
      var c := ClaimantOf(s.owner, p.memory);
      SameIdsAndPrompts(ds, c, [], s.now);
      SameIdSet(ds, ClaimAll(ds, c, [], s.now));
    }
  }

  /** A delivery leaves the store only by an acknowledgement of the process that handed it
      out last, while the claim in the store is still its own. */
  lemma {:induction false} LeavesOnlyByAck(steps: seq<Step>, worlds: seq<World>, n: nat, i: nat)
    requires IsRun(steps, worlds) && n < |steps| && i < |worlds[n].store.deliveries|
    requires worlds[n].store.deliveries[i].id !in IdSet(worlds[n + 1].store.deliveries)
    ensures var w, s, d := worlds[n], steps[n], worlds[n].store.deliveries[i];
            && (s.Take? || s.Settle? || s.SettleLate? || s.AckUnreported?) && s.owner in w.procs
            && (!s.AckUnreported? ==> s.writeOk) && (s.Take? || s.Settle? ==> !w.procs[s.owner].error)
            && w.procs[s.owner].memory.pending == Some(d.id) && (s.owner, d.id) in w.taken
            && d.claim.Some? && d.claim.value.owner == s.owner
            && d.id in worlds[n + 1].acked && worlds[n + 1].acked[d.id] == s.owner
  {
    hide IsRun, Inv, WithinLimits, Outcomes, PollWork, MemoryAfterDequeue, MemoryAfterAck;
    RunStep(steps, worlds, n);
    var w, s, d := worlds[n], steps[n], worlds[n].store.deliveries[i];
    RunKeepsInv(steps, worlds, n);
    IdIn(w.store.deliveries, i);
    if s.Poll? {
      PollKeepsDeliveries(w, s, d.id);
      assert false;
    } else {
      assert s.Take? || s.Settle? || s.SettleLate? || s.AckUnreported?;
      var writeOk := if s.AckUnreported? then true else s.writeOk;
      AckRemovesOnlyPending(w, s.owner, writeOk, i);
      PendingIsTaken(w, s.owner);
    }
  }

  lemma {:induction false} AckRemovesOnlyPending(w: World, o: Owner, writeOk: bool, i: nat)
    requires Inv(w) && o in w.procs && i < |w.store.deliveries|
    requires w.store.deliveries[i].id !in IdSet(WithAck(w, o, writeOk).store.deliveries)
    ensures var d := w.store.deliveries[i];
            && writeOk && w.procs[o].memory.pending == Some(d.id) && d.claim.Some? && d.claim.value.owner == o
            && d.id in WithAck(w, o, writeOk).acked && WithAck(w, o, writeOk).acked[d.id] == o
  {
    hide WithinLimits, ProcessesOk, ClaimsOk, GrantsOk, IdSet;
    var ds, pending := w.store.deliveries, w.procs[o].memory.pending;
    IdIn(ds, i);
    var n := Position(ds, pending.value);
    RemovalKeepsLimits(ds, n);
    if n != i { IdsDiffer(ds, n, i); }
  }

  /** Crashes included: an id once issued stays accounted for, by exactly one of the store and
      the acknowledgements, and whoever acknowledged it had been handed it. */
  lemma {:induction false} EveryDeliveryIsStoredOrAcked(steps: seq<Step>, worlds: seq<World>, m: nat, n: nat, id: DeliveryId)
    requires IsRun(steps, worlds) && m <= n <= |steps| && id in worlds[m].usedIds
    ensures id in IdSet(worlds[n].store.deliveries) <==> id !in worlds[n].acked
    ensures id in worlds[n].acked ==> (worlds[n].acked[id], id) in worlds[n].taken
    decreases n - m
  {
    if m < n {
      hide IsRun, Outcomes, IdSet, Recorded;
      RunStep(steps, worlds, m);
      EveryDeliveryIsStoredOrAcked(steps, worlds, m + 1, n, id);
    } else {
      hide IsRun, WithinLimits, ProcessesOk, ClaimsOk, GrantsOk;
      RunKeepsInv(steps, worlds, n);
    }
  }

  /** The prompt that a process hands out in a step, if it is a delivery. */
  ghost predicate HandsOut(w: World, s: Step, o: Owner, id: DeliveryId) {
    && (s.Take? || s.Dequeue?) && s.owner == o && o in w.procs
    && (if s.Take? then Proceeds(OutcomeIn(w, o, s.writeOk)) else w.procs[o].memory.pending.None?)
    && w.procs[o].memory.ready != [] && w.procs[o].memory.ready[0].source == DurableCron(id)
  }

  /** Whatever counts as handed out was at the head of that process's queue in some earlier step. */
  lemma {:induction false} TakenWasDequeued(steps: seq<Step>, worlds: seq<World>, n: nat, o: Owner, id: DeliveryId)
    returns (k: nat)
    requires IsRun(steps, worlds) && n <= |steps| && (o, id) in worlds[n].taken
    ensures k < n && HandsOut(worlds[k], steps[k], o, id)
  {
    hide IsRun, Inv, Enabled, After, HandsOut;
    RunStart(steps, worlds);
    assert n > 0;
    if (o, id) in worlds[n - 1].taken {
      k := TakenWasDequeued(steps, worlds, n - 1, o, id);
    } else {
      k := n - 1;
      RunStep(steps, worlds, k);
      RunKeepsInv(steps, worlds, k);
      TakenNow(worlds[k], steps[k], o, id);
    }
  }

  lemma {:induction false} TakenNow(w: World, s: Step, o: Owner, id: DeliveryId)
    requires Inv(w) && Enabled(w, s) && (o, id) in After(w, s).taken && (o, id) !in w.taken
    ensures HandsOut(w, s, o, id)
  {
    hide Inv, Outcomes, IdSet, Recorded, AckOutcomeOf, AfterAck;
    assert (s.Take? || s.Dequeue?) && s.owner == o;
  }

  /** Work that was abandoned is taken over: once the lease on a stored delivery has run out, a poll
      by any process that does not hold it puts it in its queue, under a lease of its own, if and
      only if there is room for it when the pass gets there. */
  lemma {:induction false} AbandonedWorkIsTakenOver(steps: seq<Step>, worlds: seq<World>, n: nat, i: nat)
    requires IsRun(steps, worlds) && n < |steps| && steps[n].Poll? && steps[n].stage.QueueFilled?
    requires i < |worlds[n].store.deliveries|
    requires !Holds(worlds[n].procs[steps[n].owner].memory, worlds[n].store.deliveries[i].id)
    requires var d, o := worlds[n].store.deliveries[i], steps[n].owner;
             d.claim.None? || d.claim.value.owner == o || d.claim.value.expiresAt <= steps[n].now
    ensures var d, o, c := worlds[n].store.deliveries[i], steps[n].owner, ClaimantOf(steps[n].owner, worlds[n].procs[steps[n].owner].memory);
            var before := StagedBy(worlds[n].store.deliveries[..i], c, [], steps[n].now);
            && (DurablePrompt(d) in worlds[n + 1].procs[o].memory.ready <==>
                c.length + |before| < MAX_OUTBOX && c.bytes + OutboxBytes(before) + ByteLen(d.prompt) <= CRON_BYTES)
            && (DurablePrompt(d) in worlds[n + 1].procs[o].memory.ready ==> HasGrant(worlds[n + 1].grants, o, d.id))
  {
    hide IsRun, Outcomes, Inv, WithinLimits, AllFired, StagedBy, ClaimAll, InStaged, StagingRoom, ByteLen, OutboxBytes, Holds, HasGrant, ClaimantOf, After, DurablePrompts;
    RunStep(steps, worlds, n);
    var w, s, w' := worlds[n], steps[n], worlds[n + 1];
    RunKeepsInv(steps, worlds, n);
    StepKeepsInv(w, s);
    var d, m := w.store.deliveries[i], w.procs[s.owner].memory;
    var c, ds := ClaimantOf(s.owner, m), w.store.deliveries + AllFired(OutcomesIn(w, s).value);
    FiringKeepsInv(w, s);
    LimitsSpelledOut(ds);
    assert ds[i] == d && ds[..i] == w.store.deliveries[..i];
    HeldIsListed(m, d.id, s.owner);
    StagedExactly(ds, c, [], s.now, i);
    ClaimantIs(s.owner, m);
    QueueAfterPoll(w, s);
    QueuedIsStaged(m, StagedBy(ds, c, [], s.now), d);
    StagedIsStored(ds, c, s.now, i);
    if DurablePrompt(d) in w'.procs[s.owner].memory.ready { QueuedIsGranted(w', s.owner, d); }
  }

  /** ... and there is room if the queue has room for all that is stored. */
  lemma {:induction false} RoomForAllIsRoom(ds: seq<Delivery>, c: Claimant, now: int, i: nat)
    requires i < |ds| && UniqueIds(ds) && ds[i].id !in c.claimed && ds[i].id !in c.queued && Claimable(ds[i], c, now)
    requires c.length + |ds| <= MAX_OUTBOX && c.bytes + OutboxBytes(ds) <= CRON_BYTES
    ensures StagingRoom(ds[i], c, StagedBy(ds[..i], c, [], now))
  {
    hide StagedBy, InStaged, ByteLen;
    assert OutboxBytes([]) == 0;
    RoomyQueueTakesAll(ds, c, [], now, i);
    StagedExactly(ds, c, [], now, i);
  }

  lemma HeldIsListed(m: Memory, id: DeliveryId, o: Owner)
    ensures Holds(m, id) <==> id in ClaimantOf(o, m).claimed || id in ClaimantOf(o, m).queued
  {
    hide DurableIds;
  }

  /** The queue after a poll that got to the end. */
  lemma QueueAfterPoll(w: World, s: Step)
    requires s.Poll? && s.stage.QueueFilled? && Enabled(w, s)
    ensures OutcomesIn(w, s).Some? && s.owner in After(w, s).procs
    ensures var m := w.procs[s.owner].memory;
            After(w, s).procs[s.owner].memory.ready
            == m.ready + DurablePrompts(StagedBy(w.store.deliveries + AllFired(OutcomesIn(w, s).value), ClaimantOf(s.owner, m), [], s.now))
  {
    hide Outcomes, AllFired, StagedBy, StoreAfter, ClaimantOf, DurablePrompts, IdSet, Recorded;
  }

  /** A prompt of a delivery that was not held before is one of those staged. */
  lemma {:induction false} QueuedIsStaged(m: Memory, staged: seq<Delivery>, d: Delivery)
    requires !Holds(m, d.id)
    ensures DurablePrompt(d) in m.ready + DurablePrompts(staged) <==>
            exists k :: 0 <= k < |staged| && staged[k].id == d.id && staged[k].prompt == d.prompt
  {
    hide Holds, DurableIds;
    if DurablePrompt(d) in m.ready { QueuedIsHeld(m, d); }
    forall k | 0 <= k < |staged| && staged[k].id == d.id && staged[k].prompt == d.prompt
      ensures DurablePrompt(d) in DurablePrompts(staged)
    {
      assert DurablePrompts(staged)[k] == DurablePrompt(d);
    }
  }

  lemma {:induction false} QueuedIsHeld(m: Memory, d: Delivery)
    requires DurablePrompt(d) in m.ready
    ensures Holds(m, d.id)
  {
    hide DurableIds;
    var i :| 0 <= i < |m.ready| && m.ready[i] == DurablePrompt(d);
    var k := PlaceInQueue(m.ready, i);
    assert DurableIds(m.ready)[k] == d.id;
  }

  lemma {:induction false} PlaceInQueue(prompts: seq<Prompt>, i: nat) returns (k: nat)
    requires i < |prompts| && prompts[i].source.DurableCron?
    ensures k < |DurableIds(prompts)| && DurableIds(prompts)[k] == prompts[i].source.delivery
  {
    if i == 0 {
      k := 0;
    } else {
      k := PlaceInQueue(prompts[1..], i - 1);
      if prompts[0].source.DurableCron? { k := k + 1; }
    }
  }

  /** What is staged is a stored delivery, prompt and all. */
  lemma {:induction false} StagedIsStored(ds: seq<Delivery>, c: Claimant, now: int, i: nat)
    requires i < |ds| && UniqueIds(ds)
    ensures InStaged(ds[i], StagedBy(ds, c, [], now)) <==>
            exists k :: 0 <= k < |StagedBy(ds, c, [], now)| && StagedBy(ds, c, [], now)[k].id == ds[i].id
                        && StagedBy(ds, c, [], now)[k].prompt == ds[i].prompt
  {
    hide StagedBy, ClaimAll, ClaimStep;
    ClaimedEach(ds, c, [], now, i);
    var staged := StagedBy(ds, c, [], now);
    if InStaged(ds[i], staged) {
      var k :| 0 <= k < |staged| && staged[k] == ds[i];
    }
  }

  lemma LimitsSpelledOut(ds: seq<Delivery>)
    requires WithinLimits(ds)
    ensures |ds| <= MAX_OUTBOX && OutboxBytes(ds) <= CRON_BYTES && UniqueIds(ds)
    ensures OutboxBytes([]) == 0 && Unstaged(ds, [])
  {
  }

  lemma {:induction false} QueuedIsGranted(w: World, o: Owner, d: Delivery)
    requires Inv(w) && o in w.procs && DurablePrompt(d) in w.procs[o].memory.ready
    ensures HasGrant(w.grants, o, d.id)
  {
    hide DeliveriesKept, ClaimsOk, GrantsOk, Holds, HasGrant, MemoryOk;
    QueuedIsHeld(w.procs[o].memory, d);
    assert ProcessOk(w, o, w.procs[o].memory);
  }
}
