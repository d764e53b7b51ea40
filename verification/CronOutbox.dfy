/** Model of the durable schedule store (src/cron.rs): firing due tasks into the outbox,
    claiming its deliveries under a lease, and acknowledging them.

    The next time of a recurring task is a parameter, `nextRun`, absent when the cron text
    does not parse or has no time within the horizon; `NextRunBy` is what the program
    computes on a given clock. Delivery ids are parameters too.
 */
module CronOutbox {
  import opened Wrappers
  import opened TextBasics
  import CronExpression
  import opened CronPrompts
  import opened CronQueue

  type Owner = nat

  const LEASE_MS: int := 5 * 60 * 1000
  const MAX_OUTBOX: nat := MAX_READY_PROMPTS - 1

  datatype Task = Task(
    id: string, cron: string, prompt: string, createdAt: int, nextFireAt: int, lastFiredAt: Option<int>, recurring: bool)

  datatype Claim = Claim(owner: Owner, expiresAt: int)

  datatype Delivery = Delivery(id: DeliveryId, prompt: string, claim: Option<Claim>)

  type NextRun = (string, int) -> Option<int>

  /* ---------- the outbox ---------- */

  function OutboxBytes(ds: seq<Delivery>): nat {
    if ds == [] then 0 else ByteLen(ds[0].prompt) + OutboxBytes(ds[1..])
  }

  lemma {:induction false} OutboxBytesConcat(a: seq<Delivery>, b: seq<Delivery>)
    ensures OutboxBytes(a + b) == OutboxBytes(a) + OutboxBytes(b)
  {
    hide ByteLen;
    if a == [] {
      assert a + b == b;
    } else {
      assert (a + b)[1..] == a[1..] + b;
      OutboxBytesConcat(a[1..], b);
    }
  }

  predicate UniqueIds(ds: seq<Delivery>) {
    forall i, j :: 0 <= i < j < |ds| ==> ds[i].id != ds[j].id
  }

  /** What the store's validation asks of the outbox. */
  predicate WithinLimits(ds: seq<Delivery>) {
    && |ds| <= MAX_OUTBOX && OutboxBytes(ds) <= CRON_BYTES && UniqueIds(ds)
    && (forall i :: 0 <= i < |ds| ==> ds[i].prompt != "")
  }

  /** The limits, delivery by delivery. */
  lemma LimitsAre(ds: seq<Delivery>)
    ensures WithinLimits(ds) <==>
            && |ds| <= 63 && OutboxBytes(ds) <= CRON_BYTES
            && (forall d :: d in ds ==> d.prompt != "")
            && (forall i, j :: 0 <= i < |ds| && 0 <= j < |ds| && ds[i].id == ds[j].id ==> i == j)
  {
  }

  /* ---------- firing due tasks ---------- */

  /** What becomes of one task in a poll. */
  datatype Outcome =
    | Dropped
    | Kept
    | Deferred
    | FiredOnce(delivery: Delivery)
    | FiredAgain(delivery: Delivery, next: int)

  predicate IsExpired(t: Task, now: int) { t.recurring && AgedOut(t.createdAt, now) }

  predicate HasRoom(ds: seq<Delivery>, prompt: string) {
    |ds| < MAX_OUTBOX && OutboxBytes(ds) + ByteLen(prompt) <= CRON_BYTES
  }

  /** The prompt of a due task; a one-shot found due at startup was missed. */
  function DuePrompt(t: Task, startup: bool): string {
    ScheduledPrompt(t.id, t.prompt, t.recurring, startup && !t.recurring)
  }

  /** The outcome of a task when the outbox holds `ds`; absent when its cron has no next time. */
  function OutcomeOf(t: Task, id: DeliveryId, ds: seq<Delivery>, now: int, startup: bool, nextRun: NextRun): Option<Outcome> {
    if IsExpired(t, now) then Some(Dropped)
    else if t.nextFireAt > now then Some(Kept)
    else if !HasRoom(ds, DuePrompt(t, startup)) then Some(Deferred)
    else
      var d := Delivery(id, DuePrompt(t, startup), None);
      if !t.recurring then Some(FiredOnce(d))
      else
        var next := nextRun(t.cron, now);
        if next.None? then None else Some(FiredAgain(d, next.value))
  }

  /** The deliveries an outcome adds. */
  function Fired(o: Outcome): seq<Delivery> {
    if o.FiredOnce? || o.FiredAgain? then [o.delivery] else []
  }

  /** The task as it stays in the store after its outcome. */
  function Remains(t: Task, o: Outcome, now: int): seq<Task> {
    match o
    case Dropped => []
    case Kept => [t]
    case Deferred => [t]
    case FiredOnce(_) => []
    case FiredAgain(_, next) => [t.(lastFiredAt := Some(now), nextFireAt := next)]
  }

  predicate Changes(o: Outcome) { !o.Kept? && !o.Deferred? }

  /** The outcomes of all tasks, in order, each seeing the deliveries of those before it. */
  function Outcomes(tasks: seq<Task>, ids: seq<DeliveryId>, ds: seq<Delivery>, now: int, startup: bool, nextRun: NextRun)
    : (r: Option<seq<Outcome>>)
    requires |ids| == |tasks|
    ensures r.Some? ==> |r.value| == |tasks|
  {
    if tasks == [] then Some([])
    else
      var o := OutcomeOf(tasks[0], ids[0], ds, now, startup, nextRun);
      if o.None? then None
      else
        var rest := Outcomes(tasks[1..], ids[1..], ds + Fired(o.value), now, startup, nextRun);
        if rest.None? then None else Some([o.value] + rest.value)
  }

  function AllFired(os: seq<Outcome>): seq<Delivery> {
    if os == [] then [] else Fired(os[0]) + AllFired(os[1..])
  }

  function AllRemaining(tasks: seq<Task>, os: seq<Outcome>, now: int): seq<Task>
    requires |os| == |tasks|
  {
    if tasks == [] then [] else Remains(tasks[0], os[0], now) + AllRemaining(tasks[1..], os[1..], now)
  }

  ghost predicate AnyChange(os: seq<Outcome>) {
    exists i :: 0 <= i < |os| && Changes(os[i])
  }

  /** A poll counts as a change exactly if a delivery is added or a task goes. */
  lemma {:induction false} ChangeExactly(tasks: seq<Task>, os: seq<Outcome>, now: int)
    requires |os| == |tasks|
    ensures AnyChange(os) <==> AllFired(os) != [] || |AllRemaining(tasks, os, now)| < |tasks|
    ensures |AllRemaining(tasks, os, now)| <= |tasks|
  {
    if os != [] {
      ChangeExactly(tasks[1..], os[1..], now);
      assert AnyChange(os) <==> Changes(os[0]) || AnyChange(os[1..]) by {
        if AnyChange(os[1..]) {
          var i :| 0 <= i < |os| - 1 && Changes(os[1..][i]);
          assert Changes(os[i + 1]);
        }
        if AnyChange(os) && !Changes(os[0]) {
          var i :| 0 <= i < |os| && Changes(os[i]);
          assert os[1..][i - 1] == os[i];
        }
      }
    }
  }

  /** Every task is kept, dropped as an expired recurring one, or fired into one delivery of
      its own; a recurring one that fired stays with a later time. */
  ghost predicate IsFate(t: Task, id: DeliveryId, o: Outcome, now: int, startup: bool) {
    match o
    case Dropped => t.recurring && AgedOut(t.createdAt, now)
    case Kept => !IsExpired(t, now) && t.nextFireAt > now
    case Deferred => !IsExpired(t, now) && t.nextFireAt <= now
    case FiredOnce(d) => !t.recurring && t.nextFireAt <= now && d == Delivery(id, DuePrompt(t, startup), None)
    case FiredAgain(d, next) =>
      && t.recurring && !IsExpired(t, now) && t.nextFireAt <= now < next && d == Delivery(id, DuePrompt(t, startup), None)
  }

  /** Next times lie in the future. */
  ghost predicate Advances(nextRun: NextRun) {
    forall cron, now :: nextRun(cron, now).Some? ==> nextRun(cron, now).value > now
  }

  /** The next times that cron texts give on a clock. */
  ghost function NextRunBy(clock: CronExpression.Clock): NextRun {
    (cron: string, now: int) =>
      var fields := CronExpression.CronOf(cron);
      if fields.None? then None else CronExpression.NextRunOf(fields.value, clock, now)
  }

  lemma NextRunsAdvance(clock: CronExpression.Clock)
    ensures Advances(NextRunBy(clock))
  {
    hide CronExpression.CronOf, CronExpression.CronMatches;
  }

  lemma {:induction false} EveryTaskHasItsFate(tasks: seq<Task>, ids: seq<DeliveryId>, ds: seq<Delivery>, now: int,
                                               startup: bool, nextRun: NextRun, i: nat)
    requires |ids| == |tasks| && i < |tasks| && Advances(nextRun)
    requires Outcomes(tasks, ids, ds, now, startup, nextRun).Some?
    ensures IsFate(tasks[i], ids[i], Outcomes(tasks, ids, ds, now, startup, nextRun).value[i], now, startup)
  {
    hide DuePrompt, HasRoom, AgedOut;
    if i > 0 {
      var o := OutcomeOf(tasks[0], ids[0], ds, now, startup, nextRun).value;
      EveryTaskHasItsFate(tasks[1..], ids[1..], ds + Fired(o), now, startup, nextRun, i - 1);
    }
  }

  /** A task that was deferred had no room in the outbox left by the tasks before it. */
  lemma {:induction false} OutcomeAt(tasks: seq<Task>, ids: seq<DeliveryId>, ds: seq<Delivery>, now: int,
                                     startup: bool, nextRun: NextRun, i: nat)
    requires |ids| == |tasks| && i < |tasks|
    requires Outcomes(tasks, ids, ds, now, startup, nextRun).Some?
    ensures var os := Outcomes(tasks, ids, ds, now, startup, nextRun).value;
            OutcomeOf(tasks[i], ids[i], ds + AllFired(os[..i]), now, startup, nextRun) == Some(os[i])
  {
    hide OutcomeOf, Fired;
    var os := Outcomes(tasks, ids, ds, now, startup, nextRun).value;
    if i == 0 {
      assert os[..0] == [] && ds + [] == ds;
    } else {
      OutcomeAt(tasks[1..], ids[1..], ds + Fired(os[0]), now, startup, nextRun, i - 1);
      assert os[1..][..i - 1] == os[..i][1..] && os[..i][0] == os[0];
      assert ds + Fired(os[0]) + AllFired(os[1..][..i - 1]) == ds + AllFired(os[..i]);
    }
  }

  /** A due recurring task that finds room in the outbox and has no next time. */
  predicate LacksNextRun(t: Task, ds: seq<Delivery>, now: int, startup: bool, nextRun: NextRun) {
    && t.recurring && !AgedOut(t.createdAt, now) && t.nextFireAt <= now
    && HasRoom(ds, DuePrompt(t, startup)) && nextRun(t.cron, now).None?
  }

  /** The tasks before the `i`th one fire, and that one lacks a next time. */
  predicate StopsAt(tasks: seq<Task>, ids: seq<DeliveryId>, ds: seq<Delivery>, now: int, startup: bool, nextRun: NextRun, i: nat)
    requires |ids| == |tasks| && i < |tasks|
  {
    var before := Outcomes(tasks[..i], ids[..i], ds, now, startup, nextRun);
    before.Some? && LacksNextRun(tasks[i], ds + AllFired(before.value), now, startup, nextRun)
  }

  /** When a poll gets through: it stops if and only if some due recurring task finds room but has
      no next time. Tasks before it and after it do not matter: none of them fires then. */
  lemma {:induction false} PollStopsExactly(tasks: seq<Task>, ids: seq<DeliveryId>, ds: seq<Delivery>, now: int,
                                            startup: bool, nextRun: NextRun)
    requires |ids| == |tasks|
    ensures Outcomes(tasks, ids, ds, now, startup, nextRun).None? <==>
            exists i :: 0 <= i < |tasks| && StopsAt(tasks, ids, ds, now, startup, nextRun, i)
  {
    hide DuePrompt, HasRoom, StopsAt;
    if tasks != [] {
      var o := OutcomeOf(tasks[0], ids[0], ds, now, startup, nextRun);
      StopsAtFirst(tasks, ids, ds, now, startup, nextRun);
      forall i | 0 < i < |tasks|
        ensures StopsAt(tasks, ids, ds, now, startup, nextRun, i) <==>
                o.Some? && StopsAt(tasks[1..], ids[1..], ds + Fired(o.value), now, startup, nextRun, i - 1)
      {
        StopsLater(tasks, ids, ds, now, startup, nextRun, i);
      }
      if o.Some? {
        var ds' := ds + Fired(o.value);
        PollStopsExactly(tasks[1..], ids[1..], ds', now, startup, nextRun);
        if j :| 0 <= j < |tasks[1..]| && StopsAt(tasks[1..], ids[1..], ds', now, startup, nextRun, j) {
          assert StopsAt(tasks, ids, ds, now, startup, nextRun, j + 1);
        }
      }
    }
  }

  lemma StopsAtFirst(tasks: seq<Task>, ids: seq<DeliveryId>, ds: seq<Delivery>, now: int, startup: bool, nextRun: NextRun)
    requires |ids| == |tasks| && tasks != []
    ensures StopsAt(tasks, ids, ds, now, startup, nextRun, 0) <==> OutcomeOf(tasks[0], ids[0], ds, now, startup, nextRun).None?
  {
    hide DuePrompt, HasRoom;
    assert tasks[..0] == [] && ids[..0] == [] && ds + [] == ds;
  }

  lemma {:induction false} StopsLater(tasks: seq<Task>, ids: seq<DeliveryId>, ds: seq<Delivery>, now: int,
                                      startup: bool, nextRun: NextRun, i: nat)
    requires |ids| == |tasks| && 0 < i < |tasks|
    ensures var o := OutcomeOf(tasks[0], ids[0], ds, now, startup, nextRun);
            StopsAt(tasks, ids, ds, now, startup, nextRun, i) <==>
            o.Some? && StopsAt(tasks[1..], ids[1..], ds + Fired(o.value), now, startup, nextRun, i - 1)
  {
    hide OutcomeOf, Fired, LacksNextRun;
    var o := OutcomeOf(tasks[0], ids[0], ds, now, startup, nextRun);
    assert tasks[..i][1..] == tasks[1..][..i - 1] && ids[..i][1..] == ids[1..][..i - 1];
    if o.Some? {
      var rest := Outcomes(tasks[1..][..i - 1], ids[1..][..i - 1], ds + Fired(o.value), now, startup, nextRun);
      if rest.Some? {
        assert ([o.value] + rest.value)[1..] == rest.value;
        assert ds + Fired(o.value) + AllFired(rest.value) == ds + AllFired([o.value] + rest.value);
      }
    }
  }

  /** The delivery that a task fires. */
  function DeliveryOf(t: Task, id: DeliveryId, startup: bool): Delivery {
    Delivery(id, ScheduledPrompt(t.id, t.prompt, t.recurring, startup && !t.recurring), None)
  }

  /** There is room for one more delivery exactly if the outbox with it is one that the store's
      validation accepts. */
  lemma RoomIsAcceptance(ds: seq<Delivery>, d: Delivery)
    requires WithinLimits(ds) && d.prompt != "" && forall j :: 0 <= j < |ds| ==> ds[j].id != d.id
    ensures HasRoom(ds, d.prompt) <==> WithinLimits(ds + [d])
  {
    hide ByteLen;
    OutboxBytesConcat(ds, [d]);
    assert OutboxBytes([d]) == ByteLen(d.prompt) + OutboxBytes([]);
  }

  /** The outcome of every task, in terms of its own times and of what the store's validation
      accepts: an expired recurring task is dropped, one that is not due is kept, and a due one
      fires exactly if the outbox, as the tasks before it leave it, would still be accepted with
      its delivery added. */
  lemma {:induction false} OutcomeExactly(tasks: seq<Task>, ids: seq<DeliveryId>, ds: seq<Delivery>, now: int,
                                          startup: bool, nextRun: NextRun, i: nat)
    requires |ids| == |tasks| && i < |tasks| && WithinLimits(ds) && FreshIds(ids, ds)
    requires Outcomes(tasks, ids, ds, now, startup, nextRun).Some?
    ensures var t, d, o, before := tasks[i], DeliveryOf(tasks[i], ids[i], startup),
                                   Outcomes(tasks, ids, ds, now, startup, nextRun).value[i],
                                   ds + AllFired(Outcomes(tasks, ids, ds, now, startup, nextRun).value[..i]);
            var expired := t.recurring && t.createdAt + RECURRING_MAX_AGE_MS <= now;
            && (o == Dropped <==> expired)
            && (o == Kept <==> !expired && now < t.nextFireAt)
            && (o == Deferred <==> !expired && t.nextFireAt <= now && !WithinLimits(before + [d]))
            && (o == FiredOnce(d) <==> !t.recurring && t.nextFireAt <= now && WithinLimits(before + [d]))
            && (o.FiredAgain? <==> t.recurring && !expired && t.nextFireAt <= now && WithinLimits(before + [d]))
            && (o.FiredAgain? ==> o.delivery == d && nextRun(t.cron, now) == Some(o.next))
  {
    hide ScheduledPrompt, HasRoom, WithinLimits, Fired;
    var os := Outcomes(tasks, ids, ds, now, startup, nextRun).value;
    if i == 0 {
      assert os[..0] == [] && ds + [] == ds;
      DuePromptNotEmpty(tasks[0], startup);
      RoomIsAcceptance(ds, DeliveryOf(tasks[0], ids[0], startup));
    } else {
      FiringOneKeepsLimits(tasks[0], ids, ds, now, startup, nextRun);
      OutcomeExactly(tasks[1..], ids[1..], ds + Fired(os[0]), now, startup, nextRun, i - 1);
      assert os[1..][..i - 1] == os[..i][1..] && os[..i][0] == os[0];
      assert ds + Fired(os[0]) + AllFired(os[1..][..i - 1]) == ds + AllFired(os[..i]);
    }
  }

  /** The deliveries of all tasks that are due and not expired. */
  function AllDue(tasks: seq<Task>, ids: seq<DeliveryId>, now: int, startup: bool): seq<Delivery>
    requires |ids| == |tasks|
  {
    if tasks == [] then []
    else
      var t := tasks[0];
      (if (t.recurring && t.createdAt + RECURRING_MAX_AGE_MS <= now) || now < t.nextFireAt then [] else [DeliveryOf(t, ids[0], startup)])
      + AllDue(tasks[1..], ids[1..], now, startup)
  }

  lemma {:induction false} PrefixWithinLimits(a: seq<Delivery>, b: seq<Delivery>)
    requires WithinLimits(a + b)
    ensures WithinLimits(a)
  {
    hide ByteLen, OutboxBytes;
    OutboxBytesConcat(a, b);
    assert forall i :: 0 <= i < |a| ==> (a + b)[i] == a[i];
  }

  /** If everything stored and everything due is together within the limits, nothing is deferred. */
  lemma {:induction false} RoomForAllDefersNothing(tasks: seq<Task>, ids: seq<DeliveryId>, ds: seq<Delivery>, now: int,
                                                   startup: bool, nextRun: NextRun, i: nat)
    requires |ids| == |tasks| && i < |tasks| && FreshIds(ids, ds) && WithinLimits(ds + AllDue(tasks, ids, now, startup))
    requires Outcomes(tasks, ids, ds, now, startup, nextRun).Some?
    ensures Outcomes(tasks, ids, ds, now, startup, nextRun).value[i] != Deferred
  {
    hide ScheduledPrompt, HasRoom, WithinLimits, OutcomeOf, Fired;
    var os, due := Outcomes(tasks, ids, ds, now, startup, nextRun).value, AllDue(tasks, ids, now, startup);
    var d := DeliveryOf(tasks[0], ids[0], startup);
    PrefixWithinLimits(ds, due);
    OutcomeExactly(tasks, ids, ds, now, startup, nextRun, 0);
    assert os[..0] == [] && ds + AllFired(os[..0]) == ds;
    var rest := AllDue(tasks[1..], ids[1..], now, startup);
    if due == [d] + rest {
      assert ds + due == ds + [d] + rest;
      PrefixWithinLimits(ds + [d], rest);
    }
    if i > 0 {
      FiredIs(os[0]);
      assert ds + due == ds + Fired(os[0]) + rest;
      FiringOneKeepsLimits(tasks[0], ids, ds, now, startup, nextRun);
      RoomForAllDefersNothing(tasks[1..], ids[1..], ds + Fired(os[0]), now, startup, nextRun, i - 1);
    }
  }

  lemma FiredIs(o: Outcome)
    ensures Fired(o) == if o.FiredOnce? || o.FiredAgain? then [o.delivery] else []
  {
  }

  ghost function CountFired(os: seq<Outcome>): nat {
    if os == [] then 0 else |Fired(os[0])| + CountFired(os[1..])
  }

  /** The numbers of a poll add up: one delivery for each firing, and no task goes missing
      other than dropped ones and one-shots that fired. */
  lemma {:induction false} PollAddsUp(tasks: seq<Task>, os: seq<Outcome>, now: int)
    requires |os| == |tasks|
    ensures |AllFired(os)| == CountFired(os)
    ensures |AllRemaining(tasks, os, now)| == |Staying(os)|
    ensures !AnyChange(os) ==> AllRemaining(tasks, os, now) == tasks && AllFired(os) == []
  {
    if tasks != [] {
      PollAddsUp(tasks[1..], os[1..], now);
      assert os == [os[0]] + os[1..] && tasks == [tasks[0]] + tasks[1..];
      if !AnyChange(os) {
        assert !Changes(os[0]);
        assert forall i :: 0 <= i < |os[1..]| ==> os[1..][i] == os[i + 1];
      }
    }
  }

  /** The outcomes that leave their task in the store. */
  ghost function Staying(os: seq<Outcome>): seq<Outcome> {
    if os == [] then []
    else if os[0].Dropped? || os[0].FiredOnce? then Staying(os[1..])
    else [os[0]] + Staying(os[1..])
  }

  /** Where a task that stays, and the delivery of one that fired, are to be found after the poll:
      in the order of the tasks, with nothing in between. A recurring task that fired keeps all
      but its times. */
  lemma {:induction false} PlaceAfterPoll(tasks: seq<Task>, os: seq<Outcome>, now: int, i: nat)
    requires |os| == |tasks| && i < |tasks|
    ensures !os[i].Dropped? && !os[i].FiredOnce? ==>
              && |Staying(os[..i])| < |AllRemaining(tasks, os, now)|
              && var t, r := tasks[i], AllRemaining(tasks, os, now)[|Staying(os[..i])|];
                 if os[i].FiredAgain? then
                   && r.id == t.id && r.cron == t.cron && r.prompt == t.prompt && r.createdAt == t.createdAt && r.recurring == t.recurring
                   && r.lastFiredAt == Some(now) && r.nextFireAt == os[i].next
                 else r == t
    ensures os[i].FiredOnce? || os[i].FiredAgain? ==>
              CountFired(os[..i]) < |AllFired(os)| && AllFired(os)[CountFired(os[..i])] == os[i].delivery
  {
    if i == 0 {
      assert os[..0] == [];
    } else {
      PlacesBefore(tasks[0], os, now, i);
      hide Staying, CountFired, Remains, Fired;
      PlaceAfterPoll(tasks[1..], os[1..], now, i - 1);
    }
  }

  lemma PlacesBefore(t: Task, os: seq<Outcome>, now: int, i: nat)
    requires 0 < i <= |os|
    ensures |Staying(os[..i])| == |Remains(t, os[0], now)| + |Staying(os[1..][..i - 1])|
    ensures CountFired(os[..i]) == |Fired(os[0])| + CountFired(os[1..][..i - 1])
  {
    assert os[..i][0] == os[0] && os[..i][1..] == os[1..][..i - 1];
  }

  /** Firing keeps the outbox within the limits that the store's validation enforces. */
  lemma {:induction false} FiringKeepsLimits(tasks: seq<Task>, ids: seq<DeliveryId>, ds: seq<Delivery>, now: int,
                                             startup: bool, nextRun: NextRun)
    requires |ids| == |tasks| && WithinLimits(ds) && FreshIds(ids, ds)
    requires Outcomes(tasks, ids, ds, now, startup, nextRun).Some?
    ensures WithinLimits(ds + AllFired(Outcomes(tasks, ids, ds, now, startup, nextRun).value))
    decreases |tasks|
  {
    hide ByteLen, DuePrompt, AgedOut;
    if tasks == [] {
      assert ds + [] == ds;
    } else {
      var o := OutcomeOf(tasks[0], ids[0], ds, now, startup, nextRun).value;
      FiringOneKeepsLimits(tasks[0], ids, ds, now, startup, nextRun);
      FiringKeepsLimits(tasks[1..], ids[1..], ds + Fired(o), now, startup, nextRun);
      var rest := Outcomes(tasks[1..], ids[1..], ds + Fired(o), now, startup, nextRun).value;
      assert ([o] + rest)[1..] == rest;
      assert ds + Fired(o) + AllFired(rest) == ds + (Fired(o) + AllFired(rest));
    }
  }

  /** New ids are distinct and not in use. */
  ghost predicate FreshIds(ids: seq<DeliveryId>, ds: seq<Delivery>) {
    && (forall i, j :: 0 <= i < j < |ids| ==> ids[i] != ids[j])
    && (forall i, j :: 0 <= i < |ids| && 0 <= j < |ds| ==> ids[i] != ds[j].id)
  }

  lemma {:induction false} FiringOneKeepsLimits(t: Task, ids: seq<DeliveryId>, ds: seq<Delivery>, now: int,
                                                startup: bool, nextRun: NextRun)
    requires ids != [] && WithinLimits(ds) && FreshIds(ids, ds)
    requires OutcomeOf(t, ids[0], ds, now, startup, nextRun).Some?
    ensures var ds' := ds + Fired(OutcomeOf(t, ids[0], ds, now, startup, nextRun).value);
            WithinLimits(ds') && FreshIds(ids[1..], ds')
  {
    hide ByteLen, DuePrompt, AgedOut;
    var o := OutcomeOf(t, ids[0], ds, now, startup, nextRun).value;
    DuePromptNotEmpty(t, startup);
    if Fired(o) == [] {
      assert ds + [] == ds;
    } else {
      OutboxBytesConcat(ds, Fired(o));
      assert OutboxBytes(Fired(o)) == ByteLen(o.delivery.prompt) + OutboxBytes([]);
      assert forall i :: 0 <= i < |ids[1..]| ==> ids[1..][i] == ids[i + 1];
    }
  }

  lemma DuePromptNotEmpty(t: Task, startup: bool)
    ensures DuePrompt(t, startup) != ""
  {
    hide ScheduledPrompt;
    ScheduledPromptNotEmpty(t.id, t.prompt, t.recurring, startup && !t.recurring);
  }

  /* ---------- claiming ---------- */

  /** What a process brings to the claim pass: its owner id, the deliveries it is working on,
      those in its queue, and how full the queue is. */
  datatype Claimant = Claimant(owner: Owner, claimed: set<DeliveryId>, queued: set<DeliveryId>, length: nat, bytes: nat)

  predicate RenewsLease(d: Delivery, c: Claimant, now: int) {
    d.claim.Some? && d.claim.value.owner == c.owner && d.claim.value.expiresAt <= now + LEASE_MS / 2
  }

  predicate Claimable(d: Delivery, c: Claimant, now: int) {
    d.claim.None? || d.claim.value.owner == c.owner || d.claim.value.expiresAt <= now
  }

  predicate Working(d: Delivery, c: Claimant, staged: seq<Delivery>) {
    d.id in c.claimed || d.id in c.queued || exists i :: 0 <= i < |staged| && staged[i].id == d.id
  }

  predicate StagingRoom(d: Delivery, c: Claimant, staged: seq<Delivery>) {
    c.length + |staged| < MAX_OUTBOX && c.bytes + OutboxBytes(staged) + ByteLen(d.prompt) <= CRON_BYTES
  }

  /** Whether a delivery is newly claimed and staged. */
  predicate Stages(d: Delivery, c: Claimant, staged: seq<Delivery>, now: int) {
    !Working(d, c, staged) && Claimable(d, c, now) && StagingRoom(d, c, staged)
  }

  function Leased(d: Delivery, c: Claimant, now: int): Delivery {
    d.(claim := Some(Claim(c.owner, now + LEASE_MS)))
  }

  /** The delivery as the pass leaves it. */
  function Claimed(d: Delivery, c: Claimant, staged: seq<Delivery>, now: int): Delivery {
    if if Working(d, c, staged) then RenewsLease(d, c, now) else Stages(d, c, staged, now) then Leased(d, c, now) else d
  }

  /** The outbox after the pass. */
  function ClaimAll(ds: seq<Delivery>, c: Claimant, staged: seq<Delivery>, now: int): (r: seq<Delivery>)
    ensures |r| == |ds|
    decreases |ds|
  {
    if ds == [] then []
    else
      var staged' := if Stages(ds[0], c, staged, now) then staged + [ds[0]] else staged;
      [Claimed(ds[0], c, staged, now)] + ClaimAll(ds[1..], c, staged', now)
  }

  /** The deliveries staged by the pass, in order. */
  function StagedBy(ds: seq<Delivery>, c: Claimant, staged: seq<Delivery>, now: int): seq<Delivery>
    decreases |ds|
  {
    if ds == [] then staged
    else StagedBy(ds[1..], c, if Stages(ds[0], c, staged, now) then staged + [ds[0]] else staged, now)
  }

  /** The queue prompt of a staged delivery. */
  function DurablePrompt(d: Delivery): Prompt { Prompt(d.prompt, DurableCron(d.id)) }

  function DurablePrompts(ds: seq<Delivery>): seq<Prompt> {
    seq(|ds|, i requires 0 <= i < |ds| => DurablePrompt(ds[i]))
  }

  /** Whether the pass has anything to write back. */
  function ClaimChanges(ds: seq<Delivery>, c: Claimant, staged: seq<Delivery>, now: int): bool
    decreases |ds|
  {
    ds != [] &&
    ((if Working(ds[0], c, staged) then RenewsLease(ds[0], c, now) else Stages(ds[0], c, staged, now))
     || ClaimChanges(ds[1..], c, if Stages(ds[0], c, staged, now) then staged + [ds[0]] else staged, now))
  }

  /** The staged deliveries can be pushed onto the queue one after another. */
  ghost predicate Stackable(c: Claimant, staged: seq<Delivery>) {
    forall i :: 0 <= i < |staged| ==>
      && c.length + i < MAX_OUTBOX
      && c.bytes + OutboxBytes(staged[..i]) + ByteLen(staged[i].prompt) <= CRON_BYTES
  }

  /** Staged deliveries are distinct and none of them is already being worked on. */
  ghost predicate StagedApart(c: Claimant, staged: seq<Delivery>) {
    && (forall i :: 0 <= i < |staged| ==> staged[i].id !in c.claimed && staged[i].id !in c.queued)
    && (forall i, j :: 0 <= i < j < |staged| ==> staged[i].id != staged[j].id)
  }

  lemma {:induction false} StagingKeeps(d: Delivery, c: Claimant, staged: seq<Delivery>, now: int)
    requires Stackable(c, staged) && StagedApart(c, staged) && Stages(d, c, staged, now)
    ensures Stackable(c, staged + [d]) && StagedApart(c, staged + [d])
  {
    hide ByteLen, OutboxBytes;
    var t := staged + [d];
    forall i | 0 <= i < |t|
      ensures c.length + i < MAX_OUTBOX && c.bytes + OutboxBytes(t[..i]) + ByteLen(t[i].prompt) <= CRON_BYTES
    {
      assert t[..i] == staged[..i];
      if i == |staged| { assert staged[..i] == staged; }
    }
  }

  /** Everything the pass claims fits the queue, so hydrating it cannot stop half-way. */
  lemma {:induction false} StagedFits(ds: seq<Delivery>, c: Claimant, staged: seq<Delivery>, now: int)
    requires Stackable(c, staged) && StagedApart(c, staged)
    ensures var all := StagedBy(ds, c, staged, now);
            Stackable(c, all) && StagedApart(c, all) && staged <= all
    decreases |ds|
  {
    hide Stages, Stackable, StagedApart;
    if ds != [] {
      var staged' := if Stages(ds[0], c, staged, now) then staged + [ds[0]] else staged;
      if Stages(ds[0], c, staged, now) { StagingKeeps(ds[0], c, staged, now); }
      StagedFits(ds[1..], c, staged', now);
    }
  }

  /** What the pass does to one delivery. */
  ghost predicate ClaimStep(before: Delivery, after: Delivery, c: Claimant, now: int, newlyStaged: bool) {
    && after.id == before.id && after.prompt == before.prompt
    && (after.claim == before.claim || after.claim == Some(Claim(c.owner, now + LEASE_MS)))
    && (after.claim != before.claim ==> Claimable(before, c, now))
    && (newlyStaged ==> after.claim == Some(Claim(c.owner, now + LEASE_MS)) && Claimable(before, c, now))
  }

  lemma {:induction false} ClaimedEach(ds: seq<Delivery>, c: Claimant, staged: seq<Delivery>, now: int, i: nat)
    requires i < |ds| && UniqueIds(ds) && Unstaged(ds, staged)
    ensures ClaimStep(ds[i], ClaimAll(ds, c, staged, now)[i], c, now, InStaged(ds[i], StagedBy(ds, c, staged, now)))
    ensures InStaged(ds[i], StagedBy(ds, c, staged, now)) ==> ds[i] in StagedBy(ds, c, staged, now)
    decreases |ds|
  {
    hide Claimable, StagingRoom, RenewsLease, ClaimStep;
    var staged' := if Stages(ds[0], c, staged, now) then staged + [ds[0]] else staged;
    assert Unstaged(ds[1..], staged');
    assert UniqueIds(ds[1..]);
    if i == 0 {
      ClaimedStep(ds[0], c, staged, now);
      assert !InStaged(ds[0], staged);
      assert Stages(ds[0], c, staged, now) ==> staged'[|staged|] == ds[0];
      assert InStaged(ds[0], staged') <==> Stages(ds[0], c, staged, now);
      StagedOnlyFrom(ds[1..], c, staged', now, ds[0]);
      StagedPrefix(ds[1..], c, staged', now);
    } else {
      ClaimedEach(ds[1..], c, staged', now, i - 1);
    }
  }

  /** The claim of a delivery is written anew exactly if the pass stages the delivery, or the process
      already works on it, has the lease, and less than half of that is left. */
  lemma {:induction false} ClaimedExactly(ds: seq<Delivery>, c: Claimant, staged: seq<Delivery>, now: int, i: nat)
    requires i < |ds| && UniqueIds(ds) && Unstaged(ds, staged)
    ensures var before, after := ds[i].claim, ClaimAll(ds, c, staged, now)[i].claim;
            after == if || InStaged(ds[i], StagedBy(ds, c, staged, now))
                        || (&& (ds[i].id in c.claimed || ds[i].id in c.queued)
                            && before.Some? && before.value.owner == c.owner && 2 * (before.value.expiresAt - now) <= 300_000)
                     then Some(Claim(c.owner, now + 300_000)) else before
    decreases |ds|
  {
    hide Claimable, StagingRoom;
    var staged' := if Stages(ds[0], c, staged, now) then staged + [ds[0]] else staged;
    assert Unstaged(ds[1..], staged');
    assert UniqueIds(ds[1..]);
    if i == 0 {
      assert !InStaged(ds[0], staged);
      assert Stages(ds[0], c, staged, now) ==> staged'[|staged|] == ds[0];
      assert InStaged(ds[0], staged') <==> Stages(ds[0], c, staged, now);
      StagedOnlyFrom(ds[1..], c, staged', now, ds[0]);
    } else {
      hide Stages, Working;
      ClaimedExactly(ds[1..], c, staged', now, i - 1);
    }
  }

  ghost predicate InStaged(d: Delivery, staged: seq<Delivery>) {
    exists k :: 0 <= k < |staged| && staged[k].id == d.id
  }

  ghost predicate Unstaged(ds: seq<Delivery>, staged: seq<Delivery>) {
    forall i, k :: 0 <= i < |ds| && 0 <= k < |staged| ==> staged[k].id != ds[i].id
  }

  lemma ClaimedStep(d: Delivery, c: Claimant, staged: seq<Delivery>, now: int)
    ensures ClaimStep(d, Claimed(d, c, staged, now), c, now, Stages(d, c, staged, now))
  {
  }

  lemma {:induction false} StagedPrefix(ds: seq<Delivery>, c: Claimant, staged: seq<Delivery>, now: int)
    ensures staged <= StagedBy(ds, c, staged, now)
    decreases |ds|
  {
    hide Stages;
    if ds != [] {
      StagedPrefix(ds[1..], c, if Stages(ds[0], c, staged, now) then staged + [ds[0]] else staged, now);
    }
  }

  /** The pass stages only deliveries of the outbox. */
  lemma {:induction false} StagedOnlyFrom(ds: seq<Delivery>, c: Claimant, staged: seq<Delivery>, now: int, d: Delivery)
    requires forall i :: 0 <= i < |ds| ==> ds[i].id != d.id
    ensures InStaged(d, StagedBy(ds, c, staged, now)) <==> InStaged(d, staged)
    decreases |ds|
  {
    hide Stages;
    if ds != [] {
      var staged' := if Stages(ds[0], c, staged, now) then staged + [ds[0]] else staged;
      assert InStaged(d, staged') <==> InStaged(d, staged) by {
        if InStaged(d, staged) {
          var k :| 0 <= k < |staged| && staged[k].id == d.id;
          assert staged'[k] == staged[k];
        }
      }
      StagedOnlyFrom(ds[1..], c, staged', now, d);
    }
  }

  lemma {:induction false} StagedAreStored(ds: seq<Delivery>, c: Claimant, staged: seq<Delivery>, now: int, d: Delivery)
    requires d in StagedBy(ds, c, staged, now)
    ensures d in staged || d in ds
    decreases |ds|
  {
    hide Stages;
    if ds != [] {
      StagedAreStored(ds[1..], c, if Stages(ds[0], c, staged, now) then staged + [ds[0]] else staged, now, d);
    }
  }

  /** What a process holds and still owns is leased for more than half a lease after the pass;
      what that means over a run is shown in LeaseKeeping. */
  lemma {:induction false} HeldStaysLeased(ds: seq<Delivery>, c: Claimant, staged: seq<Delivery>, now: int, i: nat)
    requires i < |ds| && (ds[i].id in c.claimed || ds[i].id in c.queued)
    requires ds[i].claim.Some? && ds[i].claim.value.owner == c.owner
    ensures var after := ClaimAll(ds, c, staged, now)[i].claim;
            after.Some? && after.value.owner == c.owner && after.value.expiresAt > now + LEASE_MS / 2
            && after.value.expiresAt >= ds[i].claim.value.expiresAt
    decreases |ds|
  {
    hide StagingRoom, Claimable;
    if i > 0 {
      HeldStaysLeased(ds[1..], c, if Stages(ds[0], c, staged, now) then staged + [ds[0]] else staged, now, i - 1);
    }
  }

  /** Nothing changes in the outbox when the pass reports no change. */
  lemma {:induction false} NoClaimNoChange(ds: seq<Delivery>, c: Claimant, staged: seq<Delivery>, now: int)
    requires !ClaimChanges(ds, c, staged, now)
    ensures ClaimAll(ds, c, staged, now) == ds && StagedBy(ds, c, staged, now) == staged
    decreases |ds|
  {
    hide Stages, Working, RenewsLease;
    if ds != [] {
      StagesMeansNotWorking(ds[0], c, staged, now);
      NoClaimNoChange(ds[1..], c, staged, now);
    }
  }

  lemma StagesMeansNotWorking(d: Delivery, c: Claimant, staged: seq<Delivery>, now: int)
    ensures Stages(d, c, staged, now) ==> !Working(d, c, staged)
  {
  }

  lemma {:induction false} ClaimingKeepsLimits(ds: seq<Delivery>, c: Claimant, staged: seq<Delivery>, now: int)
    requires WithinLimits(ds)
    ensures WithinLimits(ClaimAll(ds, c, staged, now))
  {
    hide ClaimAll;
    SameIdsAndPrompts(ds, c, staged, now);
    SameBytes(ds, ClaimAll(ds, c, staged, now));
  }

  lemma {:induction false} SameIdsAndPrompts(ds: seq<Delivery>, c: Claimant, staged: seq<Delivery>, now: int)
    ensures var r := ClaimAll(ds, c, staged, now);
            |r| == |ds| && forall i :: 0 <= i < |ds| ==> r[i].id == ds[i].id && r[i].prompt == ds[i].prompt
    decreases |ds|
  {
    hide Stages, Working, RenewsLease;
    if ds != [] {
      SameIdsAndPrompts(ds[1..], c, if Stages(ds[0], c, staged, now) then staged + [ds[0]] else staged, now);
    }
  }

  lemma {:induction false} SameBytes(a: seq<Delivery>, b: seq<Delivery>)
    requires |a| == |b| && forall i :: 0 <= i < |a| ==> a[i].prompt == b[i].prompt
    ensures OutboxBytes(a) == OutboxBytes(b)
  {
    hide ByteLen;
    if a != [] { SameBytes(a[1..], b[1..]); }
  }

  /** A delivery is taken into the queue if and only if the process does not hold it yet, may claim
      it, and its queue has room for it after the deliveries that the pass staged before. */
  lemma {:induction false} StagedExactly(ds: seq<Delivery>, c: Claimant, staged: seq<Delivery>, now: int, i: nat)
    requires i < |ds| && UniqueIds(ds) && Unstaged(ds, staged)
    ensures InStaged(ds[i], StagedBy(ds, c, staged, now)) <==>
            && ds[i].id !in c.claimed && ds[i].id !in c.queued
            && (ds[i].claim.None? || ds[i].claim.value.owner == c.owner || ds[i].claim.value.expiresAt <= now)
            && (var before := StagedBy(ds[..i], c, staged, now);
                && c.length + |before| < MAX_OUTBOX
                && c.bytes + OutboxBytes(before) + ByteLen(ds[i].prompt) <= CRON_BYTES)
    decreases |ds|
  {
    var d := ds[0];
    var staged' := if Stages(d, c, staged, now) then staged + [d] else staged;
    if i > 0 { hide Claimable, StagingRoom, Stages; }
    hide ByteLen, OutboxBytes;
    if i == 0 {
      assert ds[..0] == [];
      assert !InStaged(d, staged);
      assert Stages(d, c, staged, now) ==> staged'[|staged|] == d;
      assert InStaged(d, staged') <==> Stages(d, c, staged, now);
      StagedOnlyFrom(ds[1..], c, staged', now, d);
    } else {
      assert Unstaged(ds[1..], staged');
      assert UniqueIds(ds[1..]);
      assert ds[..i][1..] == ds[1..][..i - 1] && ds[..i][0] == d;
      StagedExactly(ds[1..], c, staged', now, i - 1);
    }
  }

  /** A process whose queue has room for all of them takes over every delivery it may claim. */
  lemma {:induction false} RoomyQueueTakesAll(ds: seq<Delivery>, c: Claimant, staged: seq<Delivery>, now: int, i: nat)
    requires i < |ds| && UniqueIds(ds) && Unstaged(ds, staged)
    requires c.length + |staged| + |ds| <= MAX_OUTBOX && c.bytes + OutboxBytes(staged) + OutboxBytes(ds) <= CRON_BYTES
    requires ds[i].id !in c.claimed && ds[i].id !in c.queued && Claimable(ds[i], c, now)
    ensures InStaged(ds[i], StagedBy(ds, c, staged, now))
    decreases |ds|
  {
    hide Claimable, ByteLen;
    var d := ds[0];
    var stages := Stages(d, c, staged, now);
    var staged' := if stages then staged + [d] else staged;
    OutboxBytesConcat(staged, [d]);
    assert OutboxBytes([d]) == ByteLen(d.prompt) + OutboxBytes([]);
    if i == 0 {
      assert stages;
      StagedPrefix(ds[1..], c, staged', now);
      assert staged'[|staged|] == d;
      assert InStaged(d, staged');
      var all := StagedBy(ds[1..], c, staged', now);
      assert all[|staged|] == d;
    } else {
      assert Unstaged(ds[1..], staged');
      RoomyQueueTakesAll(ds[1..], c, staged', now, i - 1);
    }
  }
}
