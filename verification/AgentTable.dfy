/** Model of the table of background agents (src/agents.rs): the job map, the set of
    active ids and the reference-counted reservations that keep an id active.

    Each step below is one section of the source that runs under the lock of the job
    table, or the release of one reference to a reservation.
 */
module AgentTable {

  type Id = nat
  type Token = nat
  type Owner = nat
  /** The identity of a reservation object. */
  type Ticket = nat

  /** A job of the table; it holds one reference to its reservation. */
  datatype Job = Job(owner: Owner, token: Token, reservation: Ticket)

  datatype Record = Record(id: Id, job: Job)

  /** A reservation of an id, with the number of its holders. */
  datatype Reservation = Reservation(id: Id, holders: nat)

  /** `detached` are the jobs that an operation has taken out of the table and still holds,
      `running` the reservations held by a running agent; `started` counts the starts of the
      session, and `issued` remembers every launch. */
  datatype State = State(
    jobs: map<Id, Job>,
    active: set<Id>,
    reservations: map<Ticket, Reservation>,
    running: set<Ticket>,
    detached: set<Record>,
    started: nat,
    issued: map<Token, Record>,
    usedTickets: set<Ticket>)

  const INITIAL: State := State(map[], {}, map[], {}, {}, 0, map[], {})

  /** How many background jobs and how many starts in all the session allows. */
  datatype Limits = Limits(background: nat, total: nat)

  datatype Step =
    | Launch(id: Id, owner: Owner, token: Token, ticket: Ticket, limits: Limits, prepared: bool)
    | StartForeground(id: Id, ticket: Ticket, limits: Limits, prepared: bool)
    | FinishRun(ticket: Ticket)
    | TakeCompleted(id: Id, token: Token)
    | StopRemove(id: Id)
    | StopReinsert(record: Record)
    | DropJob(record: Record)
    | Rollback(owner: Owner, keep: map<Id, Token>)

  /* ---------- the steps ---------- */

  /** Releasing one reference; the last one makes the id available again. */
  function Release(s: State, ticket: Ticket): State {
    if ticket !in s.reservations then s
    else
      var r := s.reservations[ticket];
      if r.holders > 1 then s.(reservations := s.reservations[ticket := r.(holders := r.holders - 1)])
      else s.(reservations := s.reservations - {ticket}, active := s.active - {r.id})
  }

  /** A start is refused when the id is active or the session has used up its starts; it counts
      even if the run can then not be prepared (its worktree fails, say) and gives the id back.
      While it is being prepared, such a start is a foreground run that ends without a result. */
  predicate CanStart(s: State, id: Id, limits: Limits) { id !in s.active && s.started < limits.total }

  function WithStart(s: State): State { s.(started := s.started + 1) }

  function AfterBackground(s: State, id: Id, owner: Owner, token: Token, ticket: Ticket, limits: Limits, prepared: bool): State {
    if !CanStart(s, id, limits) || |s.jobs| >= limits.background then s
    else if !prepared then WithStart(s)
    else AfterLaunch(WithStart(s), id, owner, token, ticket, limits.background)
  }

  function AfterForeground(s: State, id: Id, ticket: Ticket, limits: Limits, prepared: bool): State {
    if !CanStart(s, id, limits) then s
    else if !prepared then WithStart(s)
    else AfterStartForeground(WithStart(s), id, ticket)
  }

  /** The table has room for another job, and its id is free. */
  predicate CanLaunch(s: State, id: Id, limit: nat) { |s.jobs| < limit && id !in s.active }

  function AfterLaunch(s: State, id: Id, owner: Owner, token: Token, ticket: Ticket, limit: nat): State {
    if !CanLaunch(s, id, limit) then s
    else
      var job := Job(owner, token, ticket);
      s.(jobs := s.jobs[id := job],
         active := s.active + {id},
         reservations := s.reservations[ticket := Reservation(id, 2)],
         running := s.running + {ticket},
         issued := s.issued[token := Record(id, job)],
         usedTickets := s.usedTickets + {ticket})
  }

  function AfterStartForeground(s: State, id: Id, ticket: Ticket): State {
    if id in s.active then s
    else
      s.(active := s.active + {id},
         reservations := s.reservations[ticket := Reservation(id, 1)],
         running := s.running + {ticket},
         usedTickets := s.usedTickets + {ticket})
  }

  function AfterFinishRun(s: State, ticket: Ticket): State {
    if ticket !in s.running then s else Release(s.(running := s.running - {ticket}), ticket)
  }

  /** Takes a job out of the table. */
  function Detach(s: State, id: Id): State
    requires id in s.jobs
  {
    s.(jobs := s.jobs - {id}, detached := s.detached + {Record(id, s.jobs[id])})
  }

  /** A reader removes the job only if it still carries the token seen before waiting. */
  function AfterTakeCompleted(s: State, id: Id, token: Token): State {
    if id in s.jobs && s.jobs[id].token == token then Detach(s, id) else s
  }

  function AfterStopRemove(s: State, id: Id): State {
    if id in s.jobs then Detach(s, id) else s
  }

  /** `stop` puts the job back when it ended in the meantime. */
  function AfterStopReinsert(s: State, record: Record): State {
    if record in s.detached then s.(jobs := s.jobs[record.id := record.job], detached := s.detached - {record}) else s
  }

  function AfterDropJob(s: State, record: Record): State {
    if record in s.detached then Release(s.(detached := s.detached - {record}), record.job.reservation) else s
  }

  /** The jobs a rollback removes: those of the owner that are not in the checkpoint. */
  predicate IsNew(id: Id, job: Job, owner: Owner, keep: map<Id, Token>) {
    job.owner == owner && !(id in keep && keep[id] == job.token)
  }

  function AfterRollback(s: State, owner: Owner, keep: map<Id, Token>): State {
    s.(jobs := map id | id in s.jobs && !IsNew(id, s.jobs[id], owner, keep) :: s.jobs[id],
       detached := s.detached + set id | id in s.jobs && IsNew(id, s.jobs[id], owner, keep) :: Record(id, s.jobs[id]))
  }

  function Checkpoint(s: State, owner: Owner): map<Id, Token> {
    map id | id in s.jobs && s.jobs[id].owner == owner :: s.jobs[id].token
  }

  function After(s: State, step: Step): State {
    match step
    case Launch(id, owner, token, ticket, limits, prepared) => AfterBackground(s, id, owner, token, ticket, limits, prepared)
    case StartForeground(id, ticket, limits, prepared) => AfterForeground(s, id, ticket, limits, prepared)
    case FinishRun(ticket) => AfterFinishRun(s, ticket)
    case TakeCompleted(id, token) => AfterTakeCompleted(s, id, token)
    case StopRemove(id) => AfterStopRemove(s, id)
    case StopReinsert(record) => AfterStopReinsert(s, record)
    case DropJob(record) => AfterDropJob(s, record)
    case Rollback(owner, keep) => AfterRollback(s, owner, keep)
  }

  predicate FreshLaunch(s: State, token: Token, ticket: Ticket) { token !in s.issued && ticket !in s.usedTickets }

  /** Launch tokens and reservation objects are fresh. */
  predicate Fresh(s: State, step: Step) {
    match step
    case Launch(_, _, token, ticket, _, _) => FreshLaunch(s, token, ticket)
    case StartForeground(_, ticket, _, _) => ticket !in s.usedTickets
    case _ => true
  }

  ghost predicate IsRun(steps: seq<Step>, states: seq<State>) {
    && |states| == |steps| + 1 && states[0] == INITIAL
    && forall i :: 0 <= i < |steps| ==> Fresh(states[i], steps[i]) && states[i + 1] == After(states[i], steps[i])
  }

  /* ---------- the invariant ---------- */

  /** The jobs of the table and those held by an operation. */
  ghost predicate Held(s: State, x: Record) {
    (x.id in s.jobs && s.jobs[x.id] == x.job) || x in s.detached
  }

  ghost predicate HasRecord(s: State, ticket: Ticket) {
    exists x :: Held(s, x) && x.job.reservation == ticket
  }

  ghost function Holders(s: State, ticket: Ticket): nat {
    (if ticket in s.running then 1 else 0) + (if HasRecord(s, ticket) then 1 else 0)
  }

  /** Reservations are exactly what is held, and are counted exactly. */
  ghost predicate Counted(s: State) {
    && (forall t :: t in s.reservations ==> s.reservations[t].holders == Holders(s, t) && Holders(s, t) > 0)
    && (forall t :: t in s.running ==> t in s.reservations)
    && (forall x :: Held(s, x) ==>
          x.job.reservation in s.reservations && s.reservations[x.job.reservation].id == x.id)
    && (forall t :: t in s.reservations ==> t in s.usedTickets)
  }

  /** The active ids are exactly the reserved ones, each reserved once. */
  ghost predicate ActiveIsReserved(s: State) {
    && (forall t :: t in s.reservations ==> s.reservations[t].id in s.active)
    && (forall id :: id in s.active ==> exists t :: t in s.reservations && s.reservations[t].id == id)
    && (forall t, u :: t in s.reservations && u in s.reservations && s.reservations[t].id == s.reservations[u].id ==> t == u)
  }

  /** A job has one reservation and one token of its own, and is in one place. */
  ghost predicate JobsDistinct(s: State) {
    && (forall x, y :: Held(s, x) && Held(s, y) && x.job.reservation == y.job.reservation ==> x == y)
    && (forall x :: Held(s, x) ==> x.job.token in s.issued && s.issued[x.job.token] == x)
    && (forall x :: x in s.detached ==> !(x.id in s.jobs && s.jobs[x.id] == x.job))
    && (forall t :: t in s.issued ==> s.issued[t].job.token == t)
  }

  ghost predicate Inv(s: State) {
    Counted(s) && ActiveIsReserved(s) && JobsDistinct(s)
  }

  /* ---------- moving a job between table and operation changes nothing else ---------- */

  lemma SameRecords(s: State, s': State)
    requires Inv(s) && (forall x :: Held(s', x) <==> Held(s, x))
    requires s'.running == s.running && s'.reservations == s.reservations && s'.active == s.active
    requires s'.issued == s.issued && s'.usedTickets == s.usedTickets
    requires forall x :: x in s'.detached ==> !(x.id in s'.jobs && s'.jobs[x.id] == x.job)
    ensures Inv(s')
  {
    assert forall t :: HasRecord(s', t) <==> HasRecord(s, t);
  }

  /** Two jobs with one id never exist at the same time, wherever they are held. */
  lemma OneJobPerId(s: State, x: Record, y: Record)
    requires Inv(s) && Held(s, x) && Held(s, y) && x.id == y.id
    ensures x == y
  {
  }

  lemma {:induction false} DetachKeepsInv(s: State, id: Id)
    requires Inv(s) && id in s.jobs
    ensures Inv(Detach(s, id))
  {
    hide Inv;
    var s' := Detach(s, id);
    DetachedApart(s);
    SameRecords(s, s');
  }

  lemma DetachedApart(s: State)
    requires Inv(s)
    ensures forall x :: x in s.detached ==> !(x.id in s.jobs && s.jobs[x.id] == x.job)
  {
  }

  lemma {:induction false} RollbackKeepsInv(s: State, owner: Owner, keep: map<Id, Token>)
    requires Inv(s)
    ensures Inv(AfterRollback(s, owner, keep))
  {
    hide Inv;
    var s' := AfterRollback(s, owner, keep);
    DetachedApart(s);
    SameRecords(s, s');
  }

  lemma {:induction false} ReinsertKeepsInv(s: State, record: Record)
    requires Inv(s) && record in s.detached
    ensures record.id !in s.jobs
    ensures Inv(AfterStopReinsert(s, record))
  {
    hide Inv;
    if record.id in s.jobs {
      OneJobPerId(s, record, Record(record.id, s.jobs[record.id]));
      DetachedApart(s);
    }
    var s' := AfterStopReinsert(s, record);
    DetachedApart(s);
    forall x | x in s'.detached ensures !(x.id in s'.jobs && s'.jobs[x.id] == x.job) {
      if x.id == record.id { OneJobPerId(s, x, record); }
    }
    SameRecords(s, s');
  }

  /* ---------- taking and releasing references ---------- */

  lemma {:induction false} LaunchRecords(s: State, id: Id, owner: Owner, token: Token, ticket: Ticket, limit: nat)
    requires Counted(s) && CanLaunch(s, id, limit) && ticket !in s.usedTickets && ActiveIsReserved(s)
    ensures id !in s.jobs && ticket !in s.reservations && !HasRecord(s, ticket)
    ensures var s' := AfterLaunch(s, id, owner, token, ticket, limit);
            var x := Record(id, Job(owner, token, ticket));
            && (forall y :: Held(s', y) <==> Held(s, y) || y == x)
            && HasRecord(s', ticket) && (forall t :: t != ticket ==> (HasRecord(s', t) <==> HasRecord(s, t)))
  {
    var s' := AfterLaunch(s, id, owner, token, ticket, limit);
    var x := Record(id, Job(owner, token, ticket));
    if id in s.jobs { assert Held(s, Record(id, s.jobs[id])); }
    assert Held(s', x);
    forall t | t != ticket ensures HasRecord(s', t) <==> HasRecord(s, t) {
      if HasRecord(s, t) {
        var y :| Held(s, y) && y.job.reservation == t;
        assert Held(s', y);
      }
    }
  }

  lemma {:induction false} LaunchKeepsInv(s: State, id: Id, owner: Owner, token: Token, ticket: Ticket, limit: nat)
    requires Inv(s) && FreshLaunch(s, token, ticket)
    ensures CanLaunch(s, id, limit) ==> id !in s.jobs
    ensures Inv(AfterLaunch(s, id, owner, token, ticket, limit))
  {
    hide Held, HasRecord, ActiveIsReserved, JobsDistinct, Counted;
    if CanLaunch(s, id, limit) {
      LaunchRecords(s, id, owner, token, ticket, limit);
      LaunchKeepsCounted(s, id, owner, token, ticket, limit);
      LaunchKeepsActive(s, id, owner, token, ticket, limit);
      LaunchKeepsDistinct(s, id, owner, token, ticket, limit);
    }
  }

  lemma {:induction false} LaunchKeepsCounted(s: State, id: Id, owner: Owner, token: Token, ticket: Ticket, limit: nat)
    requires Inv(s) && FreshLaunch(s, token, ticket) && CanLaunch(s, id, limit)
    ensures Counted(AfterLaunch(s, id, owner, token, ticket, limit))
  {
    hide Held, HasRecord, JobsDistinct;
    LaunchRecords(s, id, owner, token, ticket, limit);
  }

  lemma {:induction false} LaunchKeepsActive(s: State, id: Id, owner: Owner, token: Token, ticket: Ticket, limit: nat)
    requires Inv(s) && FreshLaunch(s, token, ticket) && CanLaunch(s, id, limit)
    ensures ActiveIsReserved(AfterLaunch(s, id, owner, token, ticket, limit))
  {
    hide Held, HasRecord, JobsDistinct, Holders;
    var s' := AfterLaunch(s, id, owner, token, ticket, limit);
    assert ticket !in s.reservations;
    forall a | a in s'.active ensures exists t :: t in s'.reservations && s'.reservations[t].id == a {
      if a == id {
        assert s'.reservations[ticket].id == a;
      } else {
        var t :| t in s.reservations && s.reservations[t].id == a;
        assert s'.reservations[t].id == a;
      }
    }
  }

  lemma {:induction false} LaunchKeepsDistinct(s: State, id: Id, owner: Owner, token: Token, ticket: Ticket, limit: nat)
    requires Inv(s) && FreshLaunch(s, token, ticket) && CanLaunch(s, id, limit)
    ensures JobsDistinct(AfterLaunch(s, id, owner, token, ticket, limit))
  {
    hide HasRecord, ActiveIsReserved, Holders;
    LaunchRecords(s, id, owner, token, ticket, limit);
  }

  lemma SameJobsDistinct(s: State, s': State)
    requires JobsDistinct(s) && s'.jobs == s.jobs && s'.detached == s.detached && s'.issued == s.issued
    ensures JobsDistinct(s')
  {
    assert forall y :: Held(s', y) <==> Held(s, y);
  }

  lemma {:induction false} StartForegroundKeepsInv(s: State, id: Id, ticket: Ticket)
    requires Inv(s) && ticket !in s.usedTickets
    ensures Inv(AfterStartForeground(s, id, ticket))
  {
    if id !in s.active {
      hide Counted, ActiveIsReserved;
      SameJobsDistinct(s, AfterStartForeground(s, id, ticket));
      ForegroundKeepsCounted(s, id, ticket);
      ForegroundKeepsActive(s, id, ticket);
    }
  }

  lemma {:induction false} ForegroundKeepsCounted(s: State, id: Id, ticket: Ticket)
    requires Counted(s) && ticket !in s.usedTickets && id !in s.active
    ensures Counted(AfterStartForeground(s, id, ticket))
  {
    var s' := AfterStartForeground(s, id, ticket);
    assert forall y :: Held(s', y) <==> Held(s, y);
    assert forall t :: HasRecord(s', t) <==> HasRecord(s, t);
    assert !HasRecord(s, ticket);
  }

  lemma {:induction false} ForegroundKeepsActive(s: State, id: Id, ticket: Ticket)
    requires Counted(s) && ActiveIsReserved(s) && ticket !in s.usedTickets && id !in s.active
    ensures ActiveIsReserved(AfterStartForeground(s, id, ticket))
  {
    hide Holders, Held;
    var s' := AfterStartForeground(s, id, ticket);
    assert ticket !in s.reservations;
    forall x | x in s'.active ensures exists t :: t in s'.reservations && s'.reservations[t].id == x {
      if x == id {
        assert s'.reservations[ticket].id == id;
      } else {
        var t :| t in s.reservations && s.reservations[t].id == x;
        assert s'.reservations[t].id == x;
      }
    }
  }

  /** Releasing a reference whose holder is gone restores the counts. */
  lemma {:induction false} ReleaseRestores(s: State, ticket: Ticket)
    requires ActiveIsReserved(s) && JobsDistinct(s) && ticket in s.reservations
    requires s.reservations[ticket].holders == Holders(s, ticket) + 1
    requires forall t :: t in s.reservations && t != ticket ==>
               s.reservations[t].holders == Holders(s, t) && Holders(s, t) > 0
    requires forall t :: t in s.running ==> t in s.reservations
    requires forall x :: Held(s, x) ==> x.job.reservation in s.reservations && s.reservations[x.job.reservation].id == x.id
    requires forall t :: t in s.reservations ==> t in s.usedTickets
    ensures Inv(Release(s, ticket))
  {
    hide ActiveIsReserved, JobsDistinct, Holders;
    var s' := Release(s, ticket);
    ReleaseHolders(s, ticket);
    if s.reservations[ticket].holders == 1 {
      assert Holders(s, ticket) == 0;
      ReleaseLast(s, ticket);
      NotHeld(s, ticket);
    } else {
      ReleaseOne(s, ticket);
    }
    ReleaseKeepsDistinct(s, ticket);
  }

  lemma ReleaseHolders(s: State, ticket: Ticket)
    ensures var s' := Release(s, ticket);
            (forall x :: Held(s', x) <==> Held(s, x)) && (forall t :: Holders(s', t) == Holders(s, t))
  {
    var s' := Release(s, ticket);
    assert forall x :: Held(s', x) <==> Held(s, x);
    assert forall t :: HasRecord(s', t) <==> HasRecord(s, t);
  }

  lemma NotHeld(s: State, ticket: Ticket)
    requires Holders(s, ticket) == 0
    ensures ticket !in s.running && forall x :: Held(s, x) ==> x.job.reservation != ticket
  {
    hide Held;
    forall x | Held(s, x) ensures x.job.reservation != ticket {
      assert !HasRecord(s, ticket);
    }
  }

  lemma ReleaseOne(s: State, ticket: Ticket)
    requires ActiveIsReserved(s) && ticket in s.reservations && s.reservations[ticket].holders > 1
    ensures ActiveIsReserved(Release(s, ticket))
  {
    var s' := Release(s, ticket);
    assert s'.reservations.Keys == s.reservations.Keys;
    assert forall t :: t in s.reservations ==> s'.reservations[t].id == s.reservations[t].id;
  }

  lemma ReleaseKeepsDistinct(s: State, ticket: Ticket)
    requires JobsDistinct(s)
    ensures JobsDistinct(Release(s, ticket))
  {
    assert forall x :: Held(Release(s, ticket), x) <==> Held(s, x);
  }

  lemma {:induction false} ReleaseLast(s: State, ticket: Ticket)
    requires ActiveIsReserved(s) && ticket in s.reservations && s.reservations[ticket].holders <= 1
    ensures ActiveIsReserved(Release(s, ticket))
  {
    var s' := Release(s, ticket);
    forall id | id in s'.active ensures exists t :: t in s'.reservations && s'.reservations[t].id == id {
      var t :| t in s.reservations && s.reservations[t].id == id;
      assert t in s'.reservations;
    }
  }

  lemma {:induction false} FinishRunKeepsInv(s: State, ticket: Ticket)
    requires Inv(s)
    ensures Inv(AfterFinishRun(s, ticket))
  {
    if ticket in s.running {
      var mid := s.(running := s.running - {ticket});
      assert forall x :: Held(mid, x) <==> Held(s, x);
      assert forall t :: HasRecord(mid, t) <==> HasRecord(s, t);
      assert forall t :: t != ticket ==> Holders(mid, t) == Holders(s, t);
      ReleaseRestores(mid, ticket);
    }
  }

  lemma {:induction false} DropJobKeepsInv(s: State, record: Record)
    requires Inv(s)
    ensures Inv(AfterDropJob(s, record))
  {
    if record in s.detached {
      var ticket := record.job.reservation;
      var mid := s.(detached := s.detached - {record});
      assert Held(s, record) && HasRecord(s, ticket);
      assert forall x :: Held(mid, x) <==> Held(s, x) && x != record;
      assert !HasRecord(mid, ticket);
      forall t | t != ticket ensures HasRecord(mid, t) <==> HasRecord(s, t) { }
      assert forall t :: t != ticket ==> Holders(mid, t) == Holders(s, t);
      ReleaseRestores(mid, ticket);
    }
  }

  lemma StartedKeepsInv(s: State)
    requires Inv(s)
    ensures Inv(WithStart(s))
  {
    assert forall x :: Held(WithStart(s), x) <==> Held(s, x);
    SameRecords(s, WithStart(s));
  }

  lemma {:induction false} StepKeepsInv(s: State, step: Step)
    requires Inv(s) && Fresh(s, step)
    ensures Inv(After(s, step))
  {
    hide Inv;
    match step {
      case Launch(id, owner, token, ticket, limits, _) =>
        StartedKeepsInv(s);
        LaunchKeepsInv(WithStart(s), id, owner, token, ticket, limits.background);
      case StartForeground(id, ticket, _, _) =>
        StartedKeepsInv(s);
        StartForegroundKeepsInv(WithStart(s), id, ticket);
      case FinishRun(ticket) => FinishRunKeepsInv(s, ticket);
      case TakeCompleted(id, token) =>
        if id in s.jobs { DetachKeepsInv(s, id); }
      case StopRemove(id) =>
        if id in s.jobs { DetachKeepsInv(s, id); }
      case StopReinsert(record) =>
        if record in s.detached { ReinsertKeepsInv(s, record); }
      case DropJob(record) => DropJobKeepsInv(s, record);
      case Rollback(owner, keep) => RollbackKeepsInv(s, owner, keep);
    }
  }

  /* ---------- main results over all interleavings ---------- */

  lemma {:induction false} RunsKeepInv(steps: seq<Step>, states: seq<State>, n: nat)
    requires IsRun(steps, states) && n <= |steps|
    ensures Inv(states[n])
  {
    hide Inv;
    if n == 0 {
      InitialInv();
    } else {
      RunsKeepInv(steps, states, n - 1);
      StepKeepsInv(states[n - 1], steps[n - 1]);
    }
  }

  lemma InitialInv()
    ensures Inv(INITIAL)
  {
  }

  /** In every run, no more agents are ever started than the session allows, however many starts
      fail or are refused. */
  lemma {:induction false} StartsStayInBudget(steps: seq<Step>, states: seq<State>, n: nat, total: nat)
    requires IsRun(steps, states) && n <= |steps|
    requires forall i :: 0 <= i < n ==> (steps[i].Launch? || steps[i].StartForeground? ==> steps[i].limits.total <= total)
    ensures |states[n].usedTickets| <= states[n].started <= total
    ensures |states[n].issued| <= states[n].started
  {
    hide After, Fresh;
    if n > 0 {
      StartsStayInBudget(steps, states, n - 1, total);
      StepCounts(states[n - 1], steps[n - 1], total);
    }
  }

  lemma StepCounts(s: State, step: Step, total: nat)
    requires |s.usedTickets| <= s.started <= total && |s.issued| <= s.started && Fresh(s, step)
    requires step.Launch? || step.StartForeground? ==> step.limits.total <= total
    ensures |After(s, step).usedTickets| <= After(s, step).started <= total
    ensures |After(s, step).issued| <= After(s, step).started
  {
    match step {
      case Launch(id, owner, token, ticket, limits, prepared) => LaunchCounts(s, id, owner, token, ticket, limits, prepared);
      case StartForeground(_, _, _, _) =>
      case _ => OthersDoNotCount(s, step);
    }
  }

  lemma OthersDoNotCount(s: State, step: Step)
    requires !step.Launch? && !step.StartForeground?
    ensures var s' := After(s, step); s'.usedTickets == s.usedTickets && s'.started == s.started && s'.issued == s.issued
  {
  }

  lemma LaunchCounts(s: State, id: Id, owner: Owner, token: Token, ticket: Ticket, limits: Limits, prepared: bool)
    requires FreshLaunch(s, token, ticket)
    ensures var s' := AfterBackground(s, id, owner, token, ticket, limits, prepared);
            && s.started <= s'.started && (s'.started > s.started ==> s'.started == s.started + 1 <= limits.total)
            && |s'.usedTickets| - |s.usedTickets| <= s'.started - s.started
            && |s'.issued| - |s.issued| <= s'.started - s.started
  {
    var s' := AfterBackground(s, id, owner, token, ticket, limits, prepared);
    if s'.issued != s.issued {
      assert s'.issued.Keys == s.issued.Keys + {token};
      assert |s.issued| == |s.issued.Keys| && |s'.issued| == |s'.issued.Keys|;
    }
  }

  /** An id is active exactly while some run, table entry or operation holds a reservation of it. */
  ghost predicate InUse(s: State, id: Id) {
    exists t :: t in s.reservations && s.reservations[t].id == id && (t in s.running || HasRecord(s, t))
  }

  lemma {:induction false} ActiveIdsAreInUse(steps: seq<Step>, states: seq<State>, n: nat, id: Id)
    requires IsRun(steps, states) && n <= |steps|
    ensures id in states[n].active <==> InUse(states[n], id)
    ensures id in states[n].jobs ==> id in states[n].active
  {
    hide HasRecord, JobsDistinct;
    RunsKeepInv(steps, states, n);
    var s := states[n];
    if id in s.active {
      var t :| t in s.reservations && s.reservations[t].id == id;
      assert Holders(s, t) > 0;
    }
    if id in s.jobs {
      assert Held(s, Record(id, s.jobs[id]));
    }
  }

  /** No id has two agents running at the same time. */
  lemma {:induction false} OneRunPerId(steps: seq<Step>, states: seq<State>, n: nat, t: Ticket, u: Ticket)
    requires IsRun(steps, states) && n <= |steps| && t in states[n].running && u in states[n].running
    ensures t in states[n].reservations && u in states[n].reservations
    ensures states[n].reservations[t].id == states[n].reservations[u].id ==> t == u
  {
    RunsKeepInv(steps, states, n);
  }

  lemma IssuedStays(s: State, step: Step, token: Token)
    requires Fresh(s, step) && token in s.issued
    ensures token in After(s, step).issued && After(s, step).issued[token] == s.issued[token]
  {
  }

  lemma {:induction false} IssuedStaysLong(steps: seq<Step>, states: seq<State>, m: nat, n: nat, token: Token)
    requires IsRun(steps, states) && m <= n <= |steps| && token in states[m].issued
    ensures token in states[n].issued && states[n].issued[token] == states[m].issued[token]
  {
    hide After, Fresh;
    if m < n {
      IssuedStaysLong(steps, states, m, n - 1, token);
      IssuedStays(states[n - 1], steps[n - 1], token);
    }
  }

  lemma HeldIsIssued(s: State, id: Id)
    requires Inv(s) && id in s.jobs
    ensures s.jobs[id].token in s.issued && s.issued[s.jobs[id].token] == Record(id, s.jobs[id])
  {
    assert Held(s, Record(id, s.jobs[id]));
  }

  /** The token a waiter saw identifies one launch: what it removes later is that very job,
      and a job launched again under the same id is left alone. */
  lemma {:induction false} WaiterTakesOnlyWhatItSaw(steps: seq<Step>, states: seq<State>, m: nat, n: nat, id: Id)
    requires IsRun(steps, states) && m <= n <= |steps| && id in states[m].jobs
    ensures var seen := states[m].jobs[id];
            if id in states[n].jobs && states[n].jobs[id] == seen
            then AfterTakeCompleted(states[n], id, seen.token) == Detach(states[n], id)
            else AfterTakeCompleted(states[n], id, seen.token) == states[n]
  {
    hide Inv;
    RunsKeepInv(steps, states, m);
    RunsKeepInv(steps, states, n);
    HeldIsIssued(states[m], id);
    IssuedStaysLong(steps, states, m, n, states[m].jobs[id].token);
    if id in states[n].jobs { HeldIsIssued(states[n], id); }
  }

  /** Putting a stopped job back, and launching one, never overwrites a job of the table. */
  lemma {:induction false} NothingIsOverwritten(steps: seq<Step>, states: seq<State>, n: nat, id: Id)
    requires IsRun(steps, states) && n < |steps| && id in states[n].jobs
    requires steps[n].StopReinsert? || steps[n].Launch?
    ensures id in states[n + 1].jobs && states[n + 1].jobs[id] == states[n].jobs[id]
  {
    hide Inv;
    RunsKeepInv(steps, states, n);
    match steps[n] {
      case StopReinsert(record) =>
        if record in states[n].detached { ReinsertKeepsInv(states[n], record); }
      case Launch(other, owner, token, ticket, limits, _) =>
        StartedKeepsInv(states[n]);
        LaunchKeepsInv(WithStart(states[n]), other, owner, token, ticket, limits.background);
    }
  }

  /** Whatever happens between checkpoint and rollback, the owner is left with exactly the
      checkpointed jobs that are still in the table; other owners' jobs are untouched. */
  lemma {:induction false} RollbackRestoresCheckpoint(steps: seq<Step>, states: seq<State>, m: nat, n: nat,
                                                      owner: Owner, id: Id, job: Job)
    requires IsRun(steps, states) && m <= n <= |steps|
    ensures var before, after := states[n].jobs, AfterRollback(states[n], owner, Checkpoint(states[m], owner)).jobs;
            (id in after && after[id] == job) <==>
              && id in before && before[id] == job
              && (job.owner == owner ==> id in states[m].jobs && states[m].jobs[id] == job)
  {
    hide Inv;
    if id in states[m].jobs {
      RunsKeepInv(steps, states, m);
      HeldIsIssued(states[m], id);
      IssuedStaysLong(steps, states, m, n, states[m].jobs[id].token);
    }
    if id in states[n].jobs {
      RunsKeepInv(steps, states, n);
      HeldIsIssued(states[n], id);
    }
  }

  /** A rollback changes nothing exactly if what it keeps includes every launch of the owner, id
      and token; so the checkpoint of a table is the least that keeps the table as it is. */
  lemma {:induction false} CheckpointKeepsEverything(s: State, owner: Owner, keep: map<Id, Token>)
    ensures AfterRollback(s, owner, keep) == s <==>
            forall id :: id in Checkpoint(s, owner) ==> id in keep && keep[id] == Checkpoint(s, owner)[id]
    ensures AfterRollback(s, owner, Checkpoint(s, owner)) == s
  {
    NeutralIfKept(s, owner, Checkpoint(s, owner));
    if forall id :: id in Checkpoint(s, owner) ==> id in keep && keep[id] == Checkpoint(s, owner)[id] {
      NeutralIfKept(s, owner, keep);
    } else {
      var id :| id in Checkpoint(s, owner) && !(id in keep && keep[id] == Checkpoint(s, owner)[id]);
      assert id !in AfterRollback(s, owner, keep).jobs;
    }
  }

  lemma {:induction false} NeutralIfKept(s: State, owner: Owner, keep: map<Id, Token>)
    requires forall id :: id in Checkpoint(s, owner) ==> id in keep && keep[id] == Checkpoint(s, owner)[id]
    ensures AfterRollback(s, owner, keep) == s
  {
    forall id | id in s.jobs ensures !IsNew(id, s.jobs[id], owner, keep) {
      if s.jobs[id].owner == owner { assert id in Checkpoint(s, owner); }
    }
    var t := AfterRollback(s, owner, keep);
    assert t.jobs == s.jobs && t.detached == s.detached;
  }

  /** Rollbacks by different owners do not disturb each other, in either order. */
  lemma RollbacksCommute(s: State, o1: Owner, keep1: map<Id, Token>, o2: Owner, keep2: map<Id, Token>)
    requires o1 != o2
    ensures AfterRollback(AfterRollback(s, o1, keep1), o2, keep2) == AfterRollback(AfterRollback(s, o2, keep2), o1, keep1)
  {
    var s1 := AfterRollback(s, o1, keep1);
    var s2 := AfterRollback(s, o2, keep2);
    var s12, s21 := AfterRollback(s1, o2, keep2), AfterRollback(s2, o1, keep1);
    assert s12.jobs == s21.jobs;
    forall x ensures x in s12.detached <==> x in s21.detached {
      DetachedByRollback(s, o1, keep1, x);
      DetachedByRollback(s1, o2, keep2, x);
      DetachedByRollback(s, o2, keep2, x);
      DetachedByRollback(s2, o1, keep1, x);
    }
    assert s12.detached == s21.detached;
  }

  lemma DetachedByRollback(s: State, owner: Owner, keep: map<Id, Token>, x: Record)
    ensures x in AfterRollback(s, owner, keep).detached <==>
            x in s.detached || (x.id in s.jobs && s.jobs[x.id] == x.job && IsNew(x.id, x.job, owner, keep))
  {
  }

  /** Putting a stopped job back does not look at the table's limit: it stays within the
      limit exactly when there is still room, and a launch in between can take the room. */
  lemma {:induction false} ReinsertIgnoresLimit(s: State, record: Record, limit: nat)
    requires Inv(s) && record in s.detached
    ensures |AfterStopReinsert(s, record).jobs| <= limit <==> |s.jobs| < limit
  {
    hide Inv;
    ReinsertKeepsInv(s, record);
  }

  /** With a limit of one: launch 7, take it out to stop it, launch 8, put 7 back. */
  ghost function OverfullStates(): (states: seq<State>)
    ensures |states| == 5
  {
    var job, other := Job(0, 0, 0), Job(0, 1, 1);
    var s1 := State(map[7 := job], {7}, map[0 := Reservation(7, 2)], {0}, {}, 1, map[0 := Record(7, job)], {0});
    var s3 := State(map[8 := other], {7, 8}, map[0 := Reservation(7, 2), 1 := Reservation(8, 2)], {0, 1},
                    {Record(7, job)}, 2, map[0 := Record(7, job), 1 := Record(8, other)], {0, 1});
    [INITIAL, s1, s1.(jobs := map[], detached := {Record(7, job)}), s3, s3.(jobs := map[8 := other, 7 := job], detached := {})]
  }

  ghost function OverfullSteps(): seq<Step> {
    [Launch(7, 0, 0, 0, Limits(1, 2), true), StopRemove(7), Launch(8, 0, 1, 1, Limits(1, 2), true), StopReinsert(Record(7, Job(0, 0, 0)))]
  }

  lemma FirstLaunch()
    ensures OverfullStates()[1] == AfterBackground(OverfullStates()[0], 7, 0, 0, 0, Limits(1, 2), true)
    ensures OverfullStates()[0] == INITIAL
  {
    hide AfterStopRemove, AfterStopReinsert;
    assert {} + {7} == {7} && {} + {0} == {0};
  }

  lemma SecondLaunch()
    ensures OverfullStates()[3] == AfterBackground(OverfullStates()[2], 8, 0, 1, 1, Limits(1, 2), true)
    ensures 1 !in OverfullStates()[2].issued && 1 !in OverfullStates()[2].usedTickets
  {
    hide AfterStopRemove, AfterStopReinsert, AfterLaunch;
    var s := OverfullStates()[2];
    assert |s.jobs| == 0 && CanStart(s, 8, Limits(1, 2));
    SecondJob(WithStart(s));
  }

  lemma SecondJob(s: State)
    requires s == WithStart(OverfullStates()[2])
    ensures OverfullStates()[3] == AfterLaunch(s, 8, 0, 1, 1, 1)
  {
    assert |s.jobs| == 0;
    assert {7} + {8} == {7, 8} && {0} + {1} == {0, 1};
  }

  lemma OverfullLaunches()
    ensures OverfullStates()[1] == AfterBackground(OverfullStates()[0], 7, 0, 0, 0, Limits(1, 2), true)
    ensures OverfullStates()[3] == AfterBackground(OverfullStates()[2], 8, 0, 1, 1, Limits(1, 2), true)
    ensures OverfullStates()[0] == INITIAL && 1 !in OverfullStates()[2].issued && 1 !in OverfullStates()[2].usedTickets
  {
    hide OverfullStates, AfterBackground;
    FirstLaunch();
    SecondLaunch();
  }

  lemma OverfullStops()
    ensures OverfullStates()[2] == AfterStopRemove(OverfullStates()[1], 7)
    ensures OverfullStates()[4] == AfterStopReinsert(OverfullStates()[3], Record(7, Job(0, 0, 0)))
  {
    hide AfterBackground;
    assert OverfullStates()[1].jobs - {7} == map[];
  }

  lemma OverfullStep(i: nat)
    requires i < 4
    ensures Fresh(OverfullStates()[i], OverfullSteps()[i])
    ensures OverfullStates()[i + 1] == After(OverfullStates()[i], OverfullSteps()[i])
  {
    hide OverfullStates, AfterBackground, AfterStopRemove, AfterStopReinsert;
    OverfullLaunches();
    OverfullStops();
  }

  lemma OverfullEnd()
    ensures OverfullStates()[0] == INITIAL && |OverfullStates()[4].jobs| == 2
  {
    assert OverfullStates()[4].jobs.Keys == {7, 8};
    assert |OverfullStates()[4].jobs| == |OverfullStates()[4].jobs.Keys|;
  }

  /** The limit on background jobs is not an invariant of the table. */
  lemma LimitCanBeExceeded()
    ensures exists steps: seq<Step>, states: seq<State> ::
              && IsRun(steps, states) && |steps| == 4
              && (forall i :: 0 <= i < 4 && steps[i].Launch? ==> steps[i].limits.background == 1)
              && |states[4].jobs| == 2
  {
    var steps, states := OverfullSteps(), OverfullStates();
    assert IsRun(steps, states) by {
      hide OverfullStates, After, Fresh;
      OverfullEnd();
      forall i | 0 <= i < 4 ensures Fresh(states[i], steps[i]) && states[i + 1] == After(states[i], steps[i]) {
        OverfullStep(i);
      }
    }
    OverfullEnd();
  }

  /* ---------- the runtime object ---------- */

  ghost function Records(ids: set<Id>, jobs: map<Id, Job>): set<Record>
    requires ids <= jobs.Keys
  {
    set id | id in ids :: Record(id, jobs[id])
  }

  lemma RolledBackRecords(s: State, owner: Owner, keep: map<Id, Token>)
    ensures AfterRollback(s, owner, keep).detached
         == s.detached + Records((set id | id in s.jobs && IsNew(id, s.jobs[id], owner, keep)), s.jobs)
  {
  }

  lemma NoRecords(jobs: map<Id, Job>)
    ensures Records({}, jobs) == {}
  {
  }

  lemma RecordsGrow(ids: set<Id>, id: Id, jobs: map<Id, Job>)
    requires ids <= jobs.Keys && id in jobs
    ensures Records(ids + {id}, jobs) == Records(ids, jobs) + {Record(id, jobs[id])}
  {
  }

  class AgentRuntime {
    var jobs: map<Id, Job>
    var activeIds: set<Id>
    var reservations: map<Ticket, Reservation>
    var running: set<Ticket>
    var detached: set<Record>
    var started: nat
    ghost var issued: map<Token, Record>
    ghost var usedTickets: set<Ticket>

    ghost function View(): State
      reads this
    {
      State(jobs, activeIds, reservations, running, detached, started, issued, usedTickets)
    }

    constructor ()
      ensures View() == INITIAL
    {
      jobs, activeIds, reservations, running, detached, started, issued, usedTickets := map[], {}, map[], {}, {}, 0, map[], {};
    }

    /** Claims an id, failing while it is active. */
    method ReserveActive(id: Id, ticket: Ticket, holders: nat) returns (ok: bool)
      modifies this`activeIds, this`reservations
      ensures ok <==> id !in old(activeIds)
      ensures if ok then activeIds == old(activeIds) + {id} && reservations == old(reservations)[ticket := Reservation(id, holders)]
              else activeIds == old(activeIds) && reservations == old(reservations)
    {
      ok := id !in activeIds;
      if ok {
        activeIds := activeIds + {id};
        reservations := reservations[ticket := Reservation(id, holders)];
      }
    }

    /** Drops one reference to a reservation. */
    method DropReservation(ticket: Ticket)
      modifies this
      ensures View() == Release(old(View()), ticket)
    {
      if ticket in reservations {
        var r := reservations[ticket];
        if r.holders > 1 {
          reservations := reservations[ticket := r.(holders := r.holders - 1)];
        } else {
          reservations := reservations - {ticket};
          activeIds := activeIds - {r.id};
        }
      }
    }

    /** Counts a start against the budget of the session. */
    method ReserveStart(total: nat) returns (ok: bool)
      modifies this`started
      ensures ok <==> old(started) < total
      ensures started == old(started) + (if ok then 1 else 0)
    {
      ok := started < total;
      if ok {
        started := started + 1;
      }
    }

    /** Launches a background agent: the table and the spawned run each hold the reservation.
        Without a start left, or if the run cannot be prepared, the id is given back. */
    method StartBackground(id: Id, owner: Owner, token: Token, ticket: Ticket, limits: Limits, prepared: bool) returns (ok: bool)
      requires ticket !in reservations
      modifies this
      ensures View() == AfterBackground(old(View()), id, owner, token, ticket, limits, prepared)
      ensures ok <==> |old(jobs)| < limits.background && CanStart(old(View()), id, limits) && prepared
    {
      if |jobs| >= limits.background {
        return false;
      }
      ghost var before := activeIds;
      ghost var reserved := reservations;
      ok := ReserveActive(id, ticket, 2);
      if ok {
        var counted := ReserveStart(limits.total);
        if !counted || !prepared {
          activeIds := activeIds - {id};
          reservations := reservations - {ticket};
          assert activeIds == before && reservations == reserved;
          return false;
        }
        running := running + {ticket};
        jobs := jobs[id := Job(owner, token, ticket)];
        issued := issued[token := Record(id, Job(owner, token, ticket))];
        usedTickets := usedTickets + {ticket};
      }
    }

    method StartForegroundRun(id: Id, ticket: Ticket, limits: Limits, prepared: bool) returns (ok: bool)
      requires ticket !in reservations
      modifies this
      ensures View() == AfterForeground(old(View()), id, ticket, limits, prepared)
      ensures ok == (CanStart(old(View()), id, limits) && prepared)
    {
      ghost var before := activeIds;
      ghost var reserved := reservations;
      ok := ReserveActive(id, ticket, 1);
      if ok {
        var counted := ReserveStart(limits.total);
        if !counted || !prepared {
          activeIds := activeIds - {id};
          reservations := reservations - {ticket};
          assert activeIds == before && reservations == reserved;
          return false;
        }
        running := running + {ticket};
        usedTickets := usedTickets + {ticket};
      }
    }

    method EndRun(ticket: Ticket)
      modifies this
      ensures View() == AfterFinishRun(old(View()), ticket)
    {
      if ticket in running {
        running := running - {ticket};
        DropReservation(ticket);
      }
    }

    /** The second half of `output` and `wait_team_agent`. */
    method RemoveCompleted(id: Id, token: Token) returns (removed: bool)
      modifies this
      ensures View() == AfterTakeCompleted(old(View()), id, token)
      ensures removed <==> id in old(jobs) && old(jobs)[id].token == token
    {
      removed := id in jobs && jobs[id].token == token;
      if removed {
        detached := detached + {Record(id, jobs[id])};
        jobs := jobs - {id};
      }
    }

    /** The first half of `stop`. */
    method RemoveForStop(id: Id) returns (removed: bool)
      modifies this
      ensures View() == AfterStopRemove(old(View()), id) && removed == (id in old(jobs))
    {
      removed := id in jobs;
      if removed {
        detached := detached + {Record(id, jobs[id])};
        jobs := jobs - {id};
      }
    }

    /** The second half of `stop`, when the job turns out to have ended. */
    method PutBack(record: Record)
      requires record in detached
      modifies this
      ensures View() == AfterStopReinsert(old(View()), record)
    {
      detached := detached - {record};
      jobs := jobs[record.id := record.job];
    }

    method Discard(record: Record)
      requires record in detached
      modifies this
      ensures View() == AfterDropJob(old(View()), record)
    {
      detached := detached - {record};
      DropReservation(record.job.reservation);
    }

    method BackgroundCheckpoint(owner: Owner) returns (keep: map<Id, Token>)
      ensures keep == Checkpoint(View(), owner)
    {
      keep := map id | id in jobs && jobs[id].owner == owner :: jobs[id].token;
    }

    /** Takes the owner's new jobs out of the table, one after another. */
    method RollbackNewBackground(owner: Owner, keep: map<Id, Token>)
      modifies this
      ensures View() == AfterRollback(old(View()), owner, keep)
    {
      var ids := set id | id in jobs && IsNew(id, jobs[id], owner, keep);
      ghost var target := AfterRollback(View(), owner, keep);
      ghost var all := ids;
      hide Records;
      NoRecords(jobs);
      while ids != {}
        invariant ids <= all <= old(jobs).Keys && jobs.Keys == old(jobs).Keys - (all - ids)
        invariant forall id :: id in jobs ==> jobs[id] == old(jobs)[id]
        invariant detached == old(detached) + Records(all - ids, old(jobs))
        invariant View().(jobs := target.jobs, detached := target.detached) == target
        decreases ids
      {
        var id :| id in ids;
        RecordsGrow(all - ids, id, old(jobs));
        assert all - (ids - {id}) == (all - ids) + {id};
        detached := detached + {Record(id, jobs[id])};
        jobs := jobs - {id};
        ids := ids - {id};
      }
      assert jobs == target.jobs;
      assert all - ids == all;
      RolledBackRecords(old(View()), owner, keep);
    }
  }
}
