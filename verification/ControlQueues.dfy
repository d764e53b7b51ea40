/** Model of the control session's inbound queues (src/control.rs): six bounded
    lanes, the set of queued user messages and the set of cancelled ones.

    Two threads act on them, and every section that the program runs under one lock, and
    every look at one lane, is a step of its own. The input thread reserves room and enters
    a UUID into the queued set, then sends the message; a cancellation takes the UUID out
    of the queued set, then puts it into the cancelled set. The consumer looks at one lane
    after the other until it finds a message, takes its UUID out of the queued set, then
    out of the cancelled set. The steps of the two threads interleave in any way.
 */
module ControlQueues {

  type Uuid = nat

  import opened Wrappers

  /** Capacities of the lanes in the order in which the receiver polls them: side questions,
      control requests, user messages for now, next and later, and the end of input. */
  const CAPACITIES: seq<nat> := [4, 16, 16, 24, 8, 1]

  type LaneIndex = l: nat | l < 6

  /** A message; `user` is the UUID of a user message. The ticket numbers acceptances. */
  datatype Message = Message(ticket: nat, user: Option<Uuid>)

  type Lanes = lanes: seq<seq<Message>> | |lanes| == 6 witness [[], [], [], [], [], []]

  datatype Accepted = Accepted(user: Option<Uuid>, lane: LaneIndex)

  /** What happened so far: every acceptance, the tickets handed to the consumer and
      the tickets reported as cancelled, in order; `holder` is the latest ticket of a UUID. */
  datatype Log = Log(accepted: seq<Accepted>, holder: map<Uuid, nat>, delivered: seq<nat>, reported: seq<nat>)

  /** Where the input thread is: between two messages, between reserving and sending, or
      between the two halves of a cancellation. */
  datatype Input = Idle | Sending(user: Option<Uuid>, lane: LaneIndex) | Cancelling(uuid: Uuid)

  /** Where the consumer is: about to look at a lane, all lanes before which it has found
      empty; with a message that it has taken; or with one that it has unqueued. */
  datatype Consumer = Polling(lane: LaneIndex) | Popped(message: Message) | Unqueued(message: Message)

  datatype State = State(
    lanes: Lanes,
    queued: set<Uuid>,
    cancelled: set<Uuid>,
    input: Input,
    consumer: Consumer,
    log: Log)

  datatype Step =
    | Register(user: Option<Uuid>, lane: LaneIndex)
    | Send
    | CancelRemove(uuid: Uuid)
    | CancelInsert
    | Poll
    | Unqueue
    | Check

  datatype Outcome = Reserved | Full | Duplicate

  const INITIAL: State := State([[], [], [], [], [], []], {}, {}, Idle, Polling(0), Log([], map[], [], []))

  /* ---------- the steps ---------- */

  /** A full lane is noticed before a duplicate UUID. */
  function RegisterOutcome(s: State, user: Option<Uuid>, lane: LaneIndex): Outcome {
    if |s.lanes[lane]| >= CAPACITIES[lane] then Full
    else if user.Some? && user.value in s.queued then Duplicate
    else Reserved
  }

  function AfterRegister(s: State, user: Option<Uuid>, lane: LaneIndex): State {
    if RegisterOutcome(s, user, lane) != Reserved then s
    else s.(queued := if user.Some? then s.queued + {user.value} else s.queued, input := Sending(user, lane))
  }

  function AfterSend(s: State): State {
    match s.input
    case Sending(user, lane) =>
      var ticket := |s.log.accepted|;
      s.(lanes := s.lanes[lane := s.lanes[lane] + [Message(ticket, user)]],
         input := Idle,
         log := s.log.(accepted := s.log.accepted + [Accepted(user, lane)],
                       holder := if user.Some? then s.log.holder[user.value := ticket] else s.log.holder))
    case _ => s
  }

  function AfterCancelRemove(s: State, uuid: Uuid): State {
    if uuid in s.queued then s.(queued := s.queued - {uuid}, input := Cancelling(uuid)) else s
  }

  function AfterCancelInsert(s: State): State {
    match s.input
    case Cancelling(u) =>
      var reported := if u in s.log.holder then s.log.reported + [s.log.holder[u]] else s.log.reported;
      s.(cancelled := s.cancelled + {u}, input := Idle, log := s.log.(reported := reported))
    case _ => s
  }

  /** A look at one lane: the next lane is looked at if it is empty, the first one again after
      the last. */
  function AfterPoll(s: State): State {
    match s.consumer
    case Polling(l) =>
      if s.lanes[l] == [] then s.(consumer := Polling(if l == 5 then 0 else l + 1))
      else s.(lanes := s.lanes[l := s.lanes[l][1..]], consumer := Popped(s.lanes[l][0]))
    case _ => s
  }

  function AfterUnqueue(s: State): State {
    match s.consumer
    case Popped(m) =>
      s.(queued := if m.user.Some? then s.queued - {m.user.value} else s.queued, consumer := Unqueued(m))
    case _ => s
  }

  /** A message found cancelled is dropped, any other handed out. */
  function AfterCheck(s: State): State {
    match s.consumer
    case Unqueued(m) =>
      if m.user.Some? && m.user.value in s.cancelled then
        s.(cancelled := s.cancelled - {m.user.value}, consumer := Polling(0))
      else
        s.(consumer := Polling(0), log := s.log.(delivered := s.log.delivered + [m.ticket]))
    case _ => s
  }

  function After(s: State, step: Step): State {
    match step
    case Register(user, lane) => AfterRegister(s, user, lane)
    case Send => AfterSend(s)
    case CancelRemove(uuid) => AfterCancelRemove(s, uuid)
    case CancelInsert => AfterCancelInsert(s)
    case Poll => AfterPoll(s)
    case Unqueue => AfterUnqueue(s)
    case Check => AfterCheck(s)
  }

  /** Each thread does one thing after the other; user messages go to the three middle lanes. */
  predicate Enabled(s: State, step: Step) {
    match step
    case Register(user, lane) => s.input.Idle? && (user.Some? <==> 2 <= lane <= 4)
    case Send => s.input.Sending?
    case CancelRemove(_) => s.input.Idle?
    case CancelInsert => s.input.Cancelling?
    case Poll => s.consumer.Polling?
    case Unqueue => s.consumer.Popped?
    case Check => s.consumer.Unqueued?
  }

  ghost predicate IsRun(steps: seq<Step>, states: seq<State>) {
    && |states| == |steps| + 1 && states[0] == INITIAL
    && forall i :: 0 <= i < |steps| ==> Enabled(states[i], steps[i]) && states[i + 1] == After(states[i], steps[i])
  }

  /* ---------- where a message is ---------- */

  ghost predicate Waiting(s: State, ticket: nat) {
    exists l, i :: 0 <= l < |s.lanes| && 0 <= i < |s.lanes[l]| && s.lanes[l][i].ticket == ticket
  }

  predicate InFlight(s: State, ticket: nat) {
    !s.consumer.Polling? && s.consumer.message.ticket == ticket
  }

  /** Accepted, and neither delivered nor dropped. */
  ghost predicate Open(s: State, ticket: nat) {
    Waiting(s, ticket) || InFlight(s, ticket)
  }

  /* ---------- the invariant ---------- */

  /** Lanes are bounded, hold what was accepted into them, oldest first; there is room for
      a message that is being sent. */
  ghost predicate LanesInOrder(s: State) {
    && (forall l :: 0 <= l < 6 ==> |s.lanes[l]| <= CAPACITIES[l])
    && (s.input.Sending? ==> |s.lanes[s.input.lane]| < CAPACITIES[s.input.lane])
    && (forall l, i :: 0 <= l < 6 && 0 <= i < |s.lanes[l]| ==>
          var m := s.lanes[l][i];
          m.ticket < |s.log.accepted| && s.log.accepted[m.ticket] == Accepted(m.user, l))
    && (forall l, i, j :: 0 <= l < 6 && 0 <= i < j < |s.lanes[l]| ==> s.lanes[l][i].ticket < s.lanes[l][j].ticket)
  }

  ghost predicate Distinct(tickets: seq<nat>) {
    forall i, j :: 0 <= i < j < |tickets| ==> tickets[i] != tickets[j]
  }

  ghost predicate DeliveredInOrder(log: Log, earlier: nat, later: nat) {
    && earlier < |log.accepted| && later < |log.accepted|
    && (log.accepted[earlier].lane == log.accepted[later].lane ==> earlier < later)
  }

  /** Whatever left a lane was accepted before everything still in it. */
  ghost predicate GoneBeforeWaiting(s: State) {
    forall t, l, i | 0 <= t < |s.log.accepted| && 0 <= l < |s.lanes| && 0 <= i < |s.lanes[l]| ::
      !Waiting(s, t) && s.log.accepted[t].lane == l ==> t < s.lanes[l][i].ticket
  }

  ghost predicate DeliveriesInOrder(log: Log) {
    forall i, j | 0 <= i < j < |log.delivered| :: DeliveredInOrder(log, log.delivered[i], log.delivered[j])
  }

  /** The message that the consumer has taken is an accepted one; it left its lane after all
      messages of that lane that were delivered. */
  ghost predicate InFlightOk(s: State) {
    !s.consumer.Polling? ==>
      var m := s.consumer.message;
      && m.ticket < |s.log.accepted| && s.log.accepted[m.ticket].user == m.user && !Waiting(s, m.ticket)
      && (forall t :: t in s.log.delivered ==> t != m.ticket && DeliveredInOrder(s.log, t, m.ticket))
  }

  /** Nothing that was delivered waits, and nothing was delivered twice. */
  ghost predicate DeliveredOnce(s: State) {
    && Distinct(s.log.delivered)
    && (forall t :: t in s.log.delivered ==> t < |s.log.accepted| && !Waiting(s, t))
  }

  /** User messages are in the three middle lanes. */
  ghost predicate KindsFit(s: State) {
    && (s.input.Sending? ==> (s.input.user.Some? <==> 2 <= s.input.lane <= 4))
    && (forall t :: 0 <= t < |s.log.accepted| ==> (s.log.accepted[t].user.Some? <==> 2 <= s.log.accepted[t].lane <= 4))
  }

  ghost predicate LaneInv(s: State) {
    && LanesInOrder(s) && InFlightOk(s) && DeliveredOnce(s)
    && GoneBeforeWaiting(s) && DeliveriesInOrder(s.log) && KindsFit(s)
  }

  /* ---------- every step keeps the lanes in order ---------- */

  /** A change that leaves lanes, acceptances, deliveries and the message in flight alone. */
  predicate SameLanes(s: State, s': State) {
    && s'.lanes == s.lanes && s'.log.accepted == s.log.accepted && s'.log.delivered == s.log.delivered
    && (s'.consumer.Polling? <==> s.consumer.Polling?)
    && (!s.consumer.Polling? ==> s'.consumer.message == s.consumer.message)
  }

  lemma {:induction false} SameLanesKeepInv(s: State, s': State)
    requires LaneInv(s) && SameLanes(s, s')
    requires s'.input.Sending? ==>
               && |s.lanes[s'.input.lane]| < CAPACITIES[s'.input.lane]
               && (s'.input.user.Some? <==> 2 <= s'.input.lane <= 4)
    ensures LaneInv(s')
  {
    SameLanesSameOpen(s, s');
    assert DeliveriesInOrder(s'.log) by { SameDeliveries(s.log, s'.log); }
    assert InFlightOk(s') by {
      forall t | t in s'.log.delivered && !s.consumer.Polling?
        ensures t != s.consumer.message.ticket && DeliveredInOrder(s'.log, t, s.consumer.message.ticket)
      {
        assert DeliveredInOrder(s.log, t, s.consumer.message.ticket);
      }
    }
  }

  lemma SameLanesSameOpen(s: State, s': State)
    requires SameLanes(s, s')
    ensures forall t :: Waiting(s', t) <==> Waiting(s, t)
    ensures forall t :: InFlight(s', t) <==> InFlight(s, t)
  {
  }

  lemma SameDeliveries(log: Log, log': Log)
    requires DeliveriesInOrder(log) && log'.accepted == log.accepted && log'.delivered == log.delivered
    ensures DeliveriesInOrder(log')
  {
    forall i, j | 0 <= i < j < |log'.delivered| ensures DeliveredInOrder(log', log'.delivered[i], log'.delivered[j]) {
      assert DeliveredInOrder(log, log.delivered[i], log.delivered[j]);
    }
  }

  lemma {:induction false} SendWaiting(s: State, t: nat)
    requires s.input.Sending?
    ensures Waiting(AfterSend(s), t) <==> Waiting(s, t) || t == |s.log.accepted|
  {
    var s', lane := AfterSend(s), s.input.lane;
    if Waiting(s, t) {
      var l, i :| 0 <= l < |s.lanes| && 0 <= i < |s.lanes[l]| && s.lanes[l][i].ticket == t;
      assert s'.lanes[l][i].ticket == t;
    }
    assert s'.lanes[lane][|s.lanes[lane]|].ticket == |s.log.accepted|;
  }

  lemma WaitingIsAccepted(s: State, t: nat)
    requires LanesInOrder(s) && Waiting(s, t)
    ensures t < |s.log.accepted|
    ensures s.lanes[s.log.accepted[t].lane] != []
  {
  }

  lemma {:induction false} SendKeepsLanesInOrder(s: State)
    requires LanesInOrder(s) && KindsFit(s) && s.input.Sending?
    ensures LanesInOrder(AfterSend(s)) && KindsFit(AfterSend(s))
  {
  }

  lemma {:induction false} SendKeepsInFlight(s: State)
    requires InFlightOk(s) && s.input.Sending?
    ensures InFlightOk(AfterSend(s))
  {
    hide DeliveredInOrder, Waiting;
    var s' := AfterSend(s);
    if !s.consumer.Polling? {
      var m := s.consumer.message;
      SendWaiting(s, m.ticket);
      forall t: nat | t in s'.log.delivered ensures DeliveredInOrder(s'.log, t, m.ticket) {
        OrderStays(s.log, s'.log, t, m.ticket);
      }
    }
  }

  lemma {:induction false} SendKeepsLanes(s: State)
    requires LaneInv(s) && s.input.Sending?
    ensures LaneInv(AfterSend(s))
  {
    hide LanesInOrder, KindsFit, InFlightOk, GoneBeforeWaiting, DeliveriesInOrder, Waiting;
    SendKeepsLanesInOrder(s);
    SendKeepsInFlight(s);
    SendKeepsOrder(s);
    var s' := AfterSend(s);
    forall t: nat | t in s'.log.delivered ensures t < |s'.log.accepted| && !Waiting(s', t) { SendWaiting(s, t); }
  }

  lemma OrderStays(log: Log, log': Log, earlier: nat, later: nat)
    requires DeliveredInOrder(log, earlier, later) && log.accepted <= log'.accepted
    ensures DeliveredInOrder(log', earlier, later)
  {
  }

  lemma {:induction false} SendKeepsOrder(s: State)
    requires LaneInv(s) && s.input.Sending?
    ensures GoneBeforeWaiting(AfterSend(s)) && DeliveriesInOrder(AfterSend(s).log)
  {
    hide DeliveredInOrder;
    var s' := AfterSend(s);
    forall t, l, i | 0 <= t < |s'.log.accepted| && 0 <= l < |s'.lanes| && 0 <= i < |s'.lanes[l]|
      ensures !Waiting(s', t) && s'.log.accepted[t].lane == l ==> t < s'.lanes[l][i].ticket
    {
      SendWaiting(s, t);
    }
    forall i, j | 0 <= i < j < |s'.log.delivered|
      ensures DeliveredInOrder(s'.log, s'.log.delivered[i], s'.log.delivered[j])
    {
      OrderStays(s.log, s'.log, s.log.delivered[i], s.log.delivered[j]);
    }
  }

  /** A look at a lane that is not empty takes its oldest message. */
  predicate Takes(s: State) {
    s.consumer.Polling? && s.lanes[s.consumer.lane] != []
  }

  lemma TicketsDiffer(s: State, k: nat, i: nat, l: nat)
    requires LanesInOrder(s) && k < 6 && l < 6 && i < |s.lanes[k]| && s.lanes[l] != [] && (k != l || i != 0)
    ensures s.lanes[k][i].ticket != s.lanes[l][0].ticket
  {
    assert s.log.accepted[s.lanes[k][i].ticket].lane == k;
    assert s.log.accepted[s.lanes[l][0].ticket].lane == l;
  }

  lemma {:induction false} PollWaiting(s: State, t: nat)
    requires LanesInOrder(s) && Takes(s)
    ensures Waiting(AfterPoll(s), t) <==> Waiting(s, t) && t != s.lanes[s.consumer.lane][0].ticket
    ensures Waiting(s, s.lanes[s.consumer.lane][0].ticket)
    ensures forall x :: Open(AfterPoll(s), x) <==> Open(s, x)
  {
    PollTakes(s, t);
    forall x: nat ensures Open(AfterPoll(s), x) <==> Open(s, x) { PollTakes(s, x); }
  }

  lemma {:induction false} PollTakes(s: State, t: nat)
    requires LanesInOrder(s) && Takes(s)
    ensures Waiting(AfterPoll(s), t) <==> Waiting(s, t) && t != s.lanes[s.consumer.lane][0].ticket
    ensures Waiting(s, s.lanes[s.consumer.lane][0].ticket)
  {
    hide LanesInOrder;
    var s', l := AfterPoll(s), s.consumer.lane;
    assert s.lanes[l][0].ticket == s'.consumer.message.ticket;
    if Waiting(s, t) && t != s.lanes[l][0].ticket {
      var k, i :| 0 <= k < |s.lanes| && 0 <= i < |s.lanes[k]| && s.lanes[k][i].ticket == t;
      var i' := if k == l then i - 1 else i;
      assert s'.lanes[k][i'].ticket == t;
    }
    if Waiting(s', t) {
      var k, i :| 0 <= k < |s'.lanes| && 0 <= i < |s'.lanes[k]| && s'.lanes[k][i].ticket == t;
      var i' := if k == l then i + 1 else i;
      assert s.lanes[k][i'] == s'.lanes[k][i];
      TicketsDiffer(s, k, i', l);
    }
  }

  lemma {:induction false} TakeKeepsLanesInOrder(s: State)
    requires LanesInOrder(s) && Takes(s)
    ensures LanesInOrder(AfterPoll(s))
  {
    var s', l := AfterPoll(s), s.consumer.lane;
    assert s'.lanes[l] == s.lanes[l][1..];
    assert forall k :: 0 <= k < 6 && k != l ==> s'.lanes[k] == s.lanes[k];
    assert s'.log.accepted == s.log.accepted;
  }

  lemma {:induction false} TakeKeepsGoneBeforeWaiting(s: State)
    requires LanesInOrder(s) && GoneBeforeWaiting(s) && Takes(s)
    ensures GoneBeforeWaiting(AfterPoll(s))
  {
    var s', l := AfterPoll(s), s.consumer.lane;
    var m := s.lanes[l][0];
    assert s.log.accepted[m.ticket].lane == l;
    forall t, k, i | 0 <= t < |s'.log.accepted| && 0 <= k < |s'.lanes| && 0 <= i < |s'.lanes[k]|
      ensures !Waiting(s', t) && s'.log.accepted[t].lane == k ==> t < s'.lanes[k][i].ticket
    {
      PollTakes(s, t);
      var i' := if k == l then i + 1 else i;
      assert s'.lanes[k][i] == s.lanes[k][i'];
    }
  }

  lemma {:induction false} TakeKeepsLanes(s: State)
    requires LaneInv(s) && Takes(s)
    ensures LaneInv(AfterPoll(s))
  {
    TakeKeepsLanesInOrder(s);
    TakeKeepsGoneBeforeWaiting(s);
    var s', l := AfterPoll(s), s.consumer.lane;
    var m := s.lanes[l][0];
    assert s.log.accepted[m.ticket] == Accepted(m.user, l);
    hide LanesInOrder;
    forall t: nat ensures Waiting(s', t) <==> Waiting(s, t) && t != m.ticket { PollTakes(s, t); }
    PollTakes(s, m.ticket);
    assert forall t :: t in s.log.delivered ==> t != m.ticket && DeliveredInOrder(s.log, t, m.ticket);
  }

  lemma {:induction false} CheckKeepsLanes(s: State)
    requires LaneInv(s) && s.consumer.Unqueued?
    ensures LaneInv(AfterCheck(s))
  {
    var s', m := AfterCheck(s), s.consumer.message;
    assert forall t :: Waiting(s', t) <==> Waiting(s, t);
    assert LanesInOrder(s') by { hide Waiting; }
    assert DeliveriesInOrder(s'.log) by {
      hide DeliveredInOrder;
      forall i, j | 0 <= i < j < |s'.log.delivered|
        ensures DeliveredInOrder(s'.log, s'.log.delivered[i], s'.log.delivered[j])
      {
        OrderAfterDelivery(s, i, j);
      }
    }
  }

  lemma OrderAfterDelivery(s: State, i: nat, j: nat)
    requires LaneInv(s) && s.consumer.Unqueued? && i < j < |AfterCheck(s).log.delivered|
    ensures var log := AfterCheck(s).log; DeliveredInOrder(log, log.delivered[i], log.delivered[j])
  {
    if j < |s.log.delivered| {
      assert DeliveredInOrder(s.log, s.log.delivered[i], s.log.delivered[j]);
    } else {
      assert s.log.delivered[i] in s.log.delivered;
      assert DeliveredInOrder(s.log, s.log.delivered[i], s.consumer.message.ticket);
    }
  }

  lemma RoomToSend(s: State)
    requires LaneInv(s) && s.input.Sending?
    ensures |s.lanes[s.input.lane]| < CAPACITIES[s.input.lane] && (s.input.user.Some? <==> 2 <= s.input.lane <= 4)
  {
  }

  lemma {:induction false} StepKeepsLanes(s: State, step: Step)
    requires LaneInv(s) && Enabled(s, step)
    ensures LaneInv(After(s, step))
  {
    hide LanesInOrder, DeliveredOnce, GoneBeforeWaiting, DeliveriesInOrder, InFlightOk;
    match step {
      case Register(user, lane) => RegisterKeepsLanes(s, user, lane);
      case Send => SendKeepsLanes(s);
      case CancelRemove(uuid) => SameLanesKeepInv(s, AfterCancelRemove(s, uuid));
      case CancelInsert => SameLanesKeepInv(s, AfterCancelInsert(s));
      case Poll =>
        if s.input.Sending? { RoomToSend(s); }
        if Takes(s) { TakeKeepsLanes(s); } else { SameLanesKeepInv(s, AfterPoll(s)); }
      case Unqueue =>
        if s.input.Sending? { RoomToSend(s); }
        SameLanesKeepInv(s, AfterUnqueue(s));
      case Check => CheckKeepsLanes(s);
    }
  }

  lemma RegisterKeepsLanes(s: State, user: Option<Uuid>, lane: LaneIndex)
    requires LaneInv(s) && Enabled(s, Register(user, lane))
    ensures LaneInv(AfterRegister(s, user, lane))
  {
    hide DeliveredOnce, GoneBeforeWaiting, DeliveriesInOrder, InFlightOk;
    SameLanesKeepInv(s, AfterRegister(s, user, lane));
  }

  /* ---------- what holds in every run ---------- */

  lemma {:induction false} RunsKeepLanes(steps: seq<Step>, states: seq<State>, n: nat)
    requires IsRun(steps, states) && n <= |steps|
    ensures LaneInv(states[n])
  {
    hide LaneInv, After, Enabled;
    if n == 0 {
      LanesStartInOrder();
    } else {
      RunsKeepLanes(steps, states, n - 1);
      assert states[n - 1 + 1] == After(states[n - 1], steps[n - 1]);
      StepKeepsLanes(states[n - 1], steps[n - 1]);
    }
  }

  lemma LanesStartInOrder()
    ensures LaneInv(INITIAL)
  {
  }

  /** In every run, however messages are cancelled or submitted again: within a lane, messages
      are delivered in the order in which they were accepted, no message is delivered twice, and
      no lane ever holds more than its capacity. */
  lemma {:induction false} LanesAreFifoAndBounded(steps: seq<Step>, states: seq<State>, n: nat)
    requires IsRun(steps, states) && n <= |steps|
    ensures Distinct(states[n].log.delivered)
    ensures forall i, j | 0 <= i < j < |states[n].log.delivered| ::
              DeliveredInOrder(states[n].log, states[n].log.delivered[i], states[n].log.delivered[j])
    ensures forall l :: 0 <= l < 6 ==> |states[n].lanes[l]| <= CAPACITIES[l]
  {
    hide IsRun;
    RunsKeepLanes(steps, states, n);
  }

  /* ---------- priority ---------- */

  /** The first non-empty lane from `lane` on. */
  function FirstLane(lanes: Lanes, lane: nat): (r: Option<LaneIndex>)
    requires lane <= 6
    ensures r.Some? ==> lane <= r.value && lanes[r.value] != []
    ensures forall k :: lane <= k < (if r.Some? then r.value else 6) ==> lanes[k] == []
    decreases 6 - lane
  {
    if lane == 6 then None
    else if lanes[lane] != [] then Some(lane)
    else FirstLane(lanes, lane + 1)
  }

  lemma FirstLaneIs(lanes: Lanes, lane: LaneIndex, k: LaneIndex)
    requires lane <= k && lanes[k] != [] && forall j :: lane <= j < k ==> lanes[j] == []
    ensures FirstLane(lanes, lane) == Some(k)
  {
  }

  /** The lane the consumer looks at next; a consumer with a message starts again at the first. */
  function Cursor(s: State): LaneIndex {
    if s.consumer.Polling? then s.consumer.lane else 0
  }

  predicate HeadOf(s: State, lane: LaneIndex, ticket: nat) {
    s.lanes[lane] != [] && s.lanes[lane][0].ticket == ticket
  }

  /** What the present pass over the lanes finds if nothing more is sent. */
  predicate FoundNext(s: State, ticket: nat) {
    var l := FirstLane(s.lanes, Cursor(s));
    l.Some? && HeadOf(s, l.value, ticket)
  }

  /** Of two accepted messages, the one of the lane that is polled first, or the older one of
      one lane. */
  predicate Before(log: Log, a: nat, b: nat)
    requires a < |log.accepted| && b < |log.accepted|
  {
    log.accepted[a].lane < log.accepted[b].lane || (log.accepted[a].lane == log.accepted[b].lane && a < b)
  }

  /** `a` comes before `b` whatever happens: the consumer has it, or is about to look at the
      lane it heads, or it precedes `b` and the present pass has not gone past it towards `b`. */
  ghost predicate Sure(s: State, a: nat, b: nat) {
    && a < |s.log.accepted| && b < |s.log.accepted|
    && (|| InFlight(s, a)
        || (&& Waiting(s, a) && !InFlight(s, b)
            && (HeadOf(s, Cursor(s), a) || (Before(s.log, a, b) && !Passed(s, a, b)))))
  }

  predicate Passed(s: State, a: nat, b: nat)
    requires a < |s.log.accepted|
  {
    s.log.accepted[a].lane < Cursor(s) && FoundNext(s, b)
  }

  lemma OpenIsAccepted(s: State, t: nat)
    requires LaneInv(s) && Open(s, t)
    ensures t < |s.log.accepted| && t !in s.log.delivered
    ensures Waiting(s, t) ==> !InFlight(s, t)
    ensures InFlight(s, t) ==> s.log.accepted[t].user == s.consumer.message.user
  {
    if Waiting(s, t) { WaitingIsAccepted(s, t); }
  }

  /** Where a waiting message is. */
  lemma PlaceOf(s: State, t: nat) returns (i: nat)
    requires LaneInv(s) && Waiting(s, t)
    ensures t < |s.log.accepted|
    ensures var lane := s.log.accepted[t].lane; i < |s.lanes[lane]| && s.lanes[lane][i].ticket == t
  {
    var l, k :| 0 <= l < |s.lanes| && 0 <= k < |s.lanes[l]| && s.lanes[l][k].ticket == t;
    i := k;
  }

  /** The head of a lane is its oldest message. */
  lemma HeadIsOldest(s: State, lane: LaneIndex, a: nat, b: nat)
    requires LaneInv(s) && HeadOf(s, lane, a) && Waiting(s, b) && a != b
    ensures a < |s.log.accepted| && b < |s.log.accepted| && s.log.accepted[a].lane == lane
    ensures s.log.accepted[b].lane == lane ==> a < b
  {
    var i := PlaceOf(s, b);
  }

  lemma HeadWaits(s: State, lane: LaneIndex, t: nat)
    requires HeadOf(s, lane, t)
    ensures Waiting(s, t)
  {
    assert s.lanes[lane][0].ticket == t;
  }

  lemma {:induction false} SendKeepsSure(s: State, a: nat, b: nat)
    requires LaneInv(s) && s.input.Sending? && Open(s, a) && Open(s, b) && Sure(s, a, b)
    ensures Sure(AfterSend(s), a, b)
  {
    hide Waiting, LaneInv;
    var s', l := AfterSend(s), s.input.lane;
    SendWaiting(s, a);
    OpenIsAccepted(s, b);
    if FoundNext(s', b) {
      var k := FirstLane(s'.lanes, Cursor(s')).value;
      FirstLaneIs(s.lanes, Cursor(s), k);
    }
  }

  lemma {:induction false} PollKeepsSure(s: State, a: nat, b: nat)
    requires LaneInv(s) && s.consumer.Polling? && Open(s, a) && Open(s, b) && a != b && Sure(s, a, b)
    ensures Sure(AfterPoll(s), a, b)
  {
    hide Waiting, LaneInv, FirstLane, Before;
    OpenIsAccepted(s, a);
    OpenIsAccepted(s, b);
    if Takes(s) {
      PollTakesSure(s, a, b);
    } else {
      SameLanesSameOpen(s, AfterPoll(s));
      LookKeepsPassed(s, a, b);
    }
  }

  lemma {:induction false} PollTakesSure(s: State, a: nat, b: nat)
    requires LaneInv(s) && Takes(s) && Waiting(s, a) && Waiting(s, b) && a != b && Sure(s, a, b)
    ensures Sure(AfterPoll(s), a, b)
  {
    hide Waiting, LaneInv, FirstLane;
    var l := s.consumer.lane;
    LanesAreOrdered(s);
    PollTakes(s, a);
    FirstLaneIs(s.lanes, l, l);
    if s.lanes[l][0].ticket == b {
      HeadIsOldest(s, l, b, a);
      assert false;
    }
  }

  lemma LanesAreOrdered(s: State)
    requires LaneInv(s)
    ensures LanesInOrder(s)
  {
  }

  /** Going past an empty lane does not go past a waiting message. */
  lemma {:induction false} LookKeepsPassed(s: State, a: nat, b: nat)
    requires LaneInv(s) && s.consumer.Polling? && !Takes(s) && Waiting(s, a) && a < |s.log.accepted|
    ensures Passed(AfterPoll(s), a, b) ==> Passed(s, a, b)
    ensures !HeadOf(s, Cursor(s), a)
  {
    hide Waiting;
    WaitingIsAccepted(s, a);
  }

  lemma SameLanesKeepSure(s: State, s': State, a: nat, b: nat)
    requires SameLanes(s, s') && Cursor(s') == Cursor(s)
    ensures Sure(s', a, b) <==> Sure(s, a, b)
    ensures forall t :: Open(s', t) <==> Open(s, t)
  {
    SameLanesSameOpen(s, s');
  }

  /** A message that is sure to come first stays so, and the other one is not dealt with before it. */
  lemma {:induction false} StepKeepsSure(s: State, step: Step, a: nat, b: nat)
    requires LaneInv(s) && Enabled(s, step) && Open(s, a) && Open(s, b) && a != b && Sure(s, a, b)
    ensures Open(After(s, step), b)
    ensures Open(After(s, step), a) ==> Sure(After(s, step), a, b)
  {
    hide LaneInv, Waiting, FirstLane, Before;
    var s' := After(s, step);
    match step {
      case Send =>
        SendKeepsSure(s, a, b);
        SendWaiting(s, b);
      case Poll =>
        PollKeepsSure(s, a, b);
        PollKeepsOpen(s);
      case Register(user, lane) => SameLanesKeepSure(s, s', a, b);
      case CancelRemove(uuid) => SameLanesKeepSure(s, s', a, b);
      case CancelInsert => SameLanesKeepSure(s, s', a, b);
      case Unqueue => SameLanesKeepSure(s, s', a, b);
      case Check => CheckKeepsSure(s, a, b);
    }
  }

  lemma CheckKeepsSure(s: State, a: nat, b: nat)
    requires LaneInv(s) && s.consumer.Unqueued? && Open(s, a) && Open(s, b) && a != b && Sure(s, a, b)
    ensures Open(AfterCheck(s), b)
    ensures Open(AfterCheck(s), a) ==> Sure(AfterCheck(s), a, b)
  {
    hide LaneInv, Waiting, FirstLane;
    CheckCloses(s);
    OpenIsAccepted(s, a);
  }

  lemma PollKeepsOpen(s: State)
    requires LaneInv(s) && s.consumer.Polling?
    ensures forall t :: Open(AfterPoll(s), t) <==> Open(s, t)
  {
    hide Waiting;
    if Takes(s) { PollWaiting(s, 0); } else { SameLanesSameOpen(s, AfterPoll(s)); }
  }

  lemma CheckCloses(s: State)
    requires LaneInv(s) && s.consumer.Unqueued?
    ensures forall t: nat :: Waiting(AfterCheck(s), t) <==> Waiting(s, t)
    ensures forall t: nat :: Open(AfterCheck(s), t) <==> Open(s, t) && t != s.consumer.message.ticket
  {
  }

  /* ---------- what can still happen ---------- */

  /** The state after some steps. */
  ghost function End(s: State, steps: seq<Step>): State
    decreases |steps|
  {
    if steps == [] then s else End(After(s, steps[0]), steps[1..])
  }

  /** A step that cancels nothing and sends nothing under a cancelled UUID. */
  predicate Plain(s: State, step: Step) {
    match step
    case Register(user, _) => user.Some? ==> user.value !in s.cancelled
    case Send => s.input.Sending? && s.input.user.Some? ==> s.input.user.value !in s.cancelled
    case CancelRemove(_) => false
    case CancelInsert => false
    case _ => true
  }

  ghost predicate PlainPath(s: State, steps: seq<Step>)
    decreases |steps|
  {
    steps != [] ==> Enabled(s, steps[0]) && Plain(s, steps[0]) && PlainPath(After(s, steps[0]), steps[1..])
  }

  lemma {:induction false} JoinPaths(s: State, a: seq<Step>, b: seq<Step>)
    requires PlainPath(s, a) && PlainPath(End(s, a), b)
    ensures PlainPath(s, a + b) && End(s, a + b) == End(End(s, a), b)
    decreases |a|
  {
    if a == [] {
      assert a + b == b;
    } else {
      assert (a + b)[1..] == a[1..] + b && (a + b)[0] == a[0];
      JoinPaths(After(s, a[0]), a[1..], b);
    }
  }

  /** What the consumer does next. */
  function Turn(s: State): Step {
    match s.consumer
    case Polling(_) => Poll
    case Popped(_) => Unqueue
    case Unqueued(_) => Check
  }

  function Total(lanes: Lanes): nat {
    |lanes[0]| + |lanes[1]| + |lanes[2]| + |lanes[3]| + |lanes[4]| + |lanes[5]|
  }

  /** Looks until the next message is taken. */
  function Distance(s: State): nat {
    var l := FirstLane(s.lanes, Cursor(s));
    if l.Some? then l.value - Cursor(s)
    else 6 - Cursor(s) + match FirstLane(s.lanes, 0) { case Some(k) => k case None => 0 }
  }

  function Effort(s: State): nat {
    20 * Total(s.lanes) + match s.consumer { case Polling(_) => Distance(s) case Popped(_) => 15 case Unqueued(_) => 14 }
  }

  lemma {:induction false} TurnDecreases(s: State, t: nat)
    requires LaneInv(s) && Open(s, t)
    ensures Effort(After(s, Turn(s))) < Effort(s)
  {
    hide LaneInv, Waiting, Total, Distance;
    DistanceIsSmall(After(s, Turn(s)));
    if s.consumer.Polling? {
      OpenLane(s, t);
      var l := s.log.accepted[t].lane;
      if Takes(s) {
        TotalAfterTake(s);
      } else {
        LookIsCloser(s, l);
      }
    }
  }

  lemma OpenLane(s: State, t: nat)
    requires LaneInv(s) && Waiting(s, t)
    ensures t < |s.log.accepted| && s.lanes[s.log.accepted[t].lane] != []
  {
    WaitingIsAccepted(s, t);
  }

  lemma DistanceIsSmall(s: State)
    ensures Distance(s) <= 11
  {
  }

  lemma TotalAfterTake(s: State)
    requires Takes(s)
    ensures Total(AfterPoll(s).lanes) == Total(s.lanes) - 1
  {
  }

  lemma LookIsCloser(s: State, l: LaneIndex)
    requires s.consumer.Polling? && !Takes(s) && s.lanes[l] != []
    ensures Distance(AfterPoll(s)) < Distance(s)
  {
  }

  /** The consumer alone, until it has dealt with a message; what is sure to come later is
      still open then. */
  lemma {:induction false} AloneUntilClosed(s: State, t: nat, later: nat) returns (steps: seq<Step>)
    requires LaneInv(s) && Open(s, t) && Open(s, later) && t != later && Sure(s, t, later)
    ensures PlainPath(s, steps) && !Open(End(s, steps), t) && Open(End(s, steps), later)
    decreases Effort(s)
  {
    hide LaneInv, Open, Sure, After, Effort;
    var s' := After(s, Turn(s));
    TurnDecreases(s, t);
    StepKeepsLanes(s, Turn(s));
    StepKeepsSure(s, Turn(s), t, later);
    if Open(s', t) {
      var rest := AloneUntilClosed(s', t, later);
      steps := [Turn(s)] + rest;
      assert steps[1..] == rest;
    } else {
      steps := [Turn(s)];
      assert End(s, steps) == s';
    }
  }

  /** Everything but lanes, acceptances and the place of the two threads. */
  predicate SameMarks(s: State, s': State) {
    s'.cancelled == s.cancelled && s'.log.delivered == s.log.delivered && s'.log.reported == s.log.reported
  }

  /** The consumer alone, until it is about to look at the lane of what it will find next. */
  lemma {:induction false} AloneUntilFound(s: State, a: nat, b: nat) returns (steps: seq<Step>)
    requires LaneInv(s) && s.consumer.Polling? && Waiting(s, a) && Waiting(s, b) && a != b && FoundNext(s, b)
    ensures PlainPath(s, steps) && SameMarks(s, End(s, steps)) && LaneInv(End(s, steps))
    ensures Open(End(s, steps), a) && Open(End(s, steps), b) && Sure(End(s, steps), b, a)
    decreases Distance(s)
  {
    hide LaneInv, Waiting, Before, FirstLane;
    OpenIsAccepted(s, a);
    OpenIsAccepted(s, b);
    if Takes(s) {
      FirstLaneIs(s.lanes, Cursor(s), Cursor(s));
      steps := [];
    } else {
      var s' := AfterPoll(s);
      var k := FirstLane(s.lanes, Cursor(s)).value;
      FirstLaneIs(s'.lanes, Cursor(s'), k);
      LookIsCloser(s, k);
      StepKeepsLanes(s, Poll);
      SameLanesSameOpen(s, s');
      var rest := AloneUntilFound(s', a, b);
      steps := [Poll] + rest;
      assert steps[1..] == rest && After(s, Poll) == s';
    }
  }

  lemma {:induction false} AboveAll(uuids: set<Uuid>) returns (u: Uuid)
    ensures forall v :: v in uuids ==> v < u
    decreases |uuids|
  {
    if uuids == {} {
      u := 0;
    } else {
      var x :| x in uuids;
      var y := AboveAll(uuids - {x});
      u := if x < y then y else x + 1;
      assert forall v :: v in uuids ==> v == x || v in uuids - {x};
    }
  }

  /** A message sent to an empty lane at the cursor is found next. */
  lemma {:induction false} SendInBetween(s: State, a: nat, b: nat) returns (steps: seq<Step>)
    requires LaneInv(s) && s.input.Idle? && s.consumer.Polling? && !Takes(s) && Waiting(s, a) && Waiting(s, b) && a != b
    requires a < |s.log.accepted| && b < |s.log.accepted| && Before(s.log, b, a)
    ensures PlainPath(s, steps) && SameMarks(s, End(s, steps)) && LaneInv(End(s, steps))
    ensures Open(End(s, steps), a) && Open(End(s, steps), b) && Sure(End(s, steps), b, a)
  {
    hide LaneInv, Waiting, FirstLane, After, Open, Sure;
    var u := AboveAll(s.queued + s.cancelled);
    var lane := s.consumer.lane;
    var user := if 2 <= lane <= 4 then Some(u) else None;
    var s1 := After(s, Register(user, lane));
    RegisterFresh(s, user, lane);
    StepKeepsLanes(s, Register(user, lane));
    StepKeepsLanes(s1, Send);
    SendFresh(s1, a, b);
    steps := [Register(user, lane), Send];
    assert steps[1..] == [Send] && [Send][1..] == [];
    assert End(s1, [Send]) == End(After(s1, Send), []);
  }

  lemma RegisterFresh(s: State, user: Option<Uuid>, lane: LaneIndex)
    requires s.lanes[lane] == [] && (user.Some? ==> user.value !in s.queued)
    ensures After(s, Register(user, lane)) == s.(queued := if user.Some? then s.queued + {user.value} else s.queued, input := Sending(user, lane))
    ensures forall t :: Waiting(s, t) ==> Waiting(After(s, Register(user, lane)), t)
  {
    SameLanesSameOpen(s, AfterRegister(s, user, lane));
  }

  lemma {:induction false} SendFresh(s: State, a: nat, b: nat)
    requires LaneInv(s) && LaneInv(After(s, Send)) && s.input.Sending? && s.consumer == Polling(s.input.lane) && !Takes(s)
    requires Waiting(s, a) && Waiting(s, b) && a != b
    requires a < |s.log.accepted| && b < |s.log.accepted| && Before(s.log, b, a)
    ensures var s' := After(s, Send); SameMarks(s, s') && Open(s', a) && Open(s', b) && Sure(s', b, a)
  {
    hide LaneInv, Waiting, FirstLane;
    var s' := AfterSend(s);
    SendWaiting(s, a);
    SendWaiting(s, b);
    FirstLaneIs(s'.lanes, s.consumer.lane, s.consumer.lane);
    assert !HeadOf(s', s.consumer.lane, a);
  }

  /** If `a` is not sure to come before `b`, the two threads can go on so that `b` is. */
  lemma {:induction false} CanOvertake(s: State, a: nat, b: nat) returns (steps: seq<Step>)
    requires LaneInv(s) && s.input.Idle? && Open(s, a) && Open(s, b) && a != b && !Sure(s, a, b)
    ensures PlainPath(s, steps) && SameMarks(s, End(s, steps)) && LaneInv(End(s, steps))
    ensures Open(End(s, steps), a) && Open(End(s, steps), b) && Sure(End(s, steps), b, a)
  {
    hide LaneInv, Waiting, FirstLane;
    OpenIsAccepted(s, a);
    OpenIsAccepted(s, b);
    if Sure(s, b, a) {
      steps := [];
    } else if FoundNext(s, b) {
      steps := AloneUntilFound(s, a, b);
    } else {
      FoundBehindEmpty(s, a);
      steps := SendInBetween(s, a, b);
    }
  }

  lemma FoundBehindEmpty(s: State, t: nat)
    requires s.consumer.Polling? && FoundNext(s, t) && !HeadOf(s, Cursor(s), t)
    ensures !Takes(s)
  {
  }

  /** What the order of the lanes guarantees, exactly: as long as nothing is being submitted or
      cancelled, `a` is sure to come first if and only if no continuation deals with `b` before it. */
  lemma {:induction false} SureExactly(s: State, a: nat, b: nat)
    requires LaneInv(s) && s.input.Idle? && Open(s, a) && Open(s, b) && a != b
    ensures Sure(s, a, b) <==>
            !exists steps :: PlainPath(s, steps) && Open(End(s, steps), a) && !Open(End(s, steps), b)
  {
    hide LaneInv, Open, Sure;
    if Sure(s, a, b) {
      forall steps | PlainPath(s, steps) && Open(End(s, steps), a) ensures Open(End(s, steps), b) {
        PathKeepsSure(s, steps, a, b);
      }
    } else {
      var first := CanOvertake(s, a, b);
      var second := AloneUntilClosed(End(s, first), b, a);
      JoinPaths(s, first, second);
    }
  }

  lemma {:induction false} PathKeepsSure(s: State, steps: seq<Step>, a: nat, b: nat)
    requires LaneInv(s) && Open(s, a) && Open(s, b) && a != b && Sure(s, a, b) && PlainPath(s, steps)
    ensures Open(End(s, steps), a) ==> Open(End(s, steps), b)
    decreases |steps|
  {
    hide LaneInv, Open, Sure, After;
    if steps != [] {
      StepKeepsSure(s, steps[0], a, b);
      StepKeepsLanes(s, steps[0]);
      if Open(After(s, steps[0]), a) {
        PathKeepsSure(After(s, steps[0]), steps[1..], a, b);
      } else {
        OpenInRange(s, a);
        StepInRange(s, steps[0], a);
        PathKeepsClosed(After(s, steps[0]), steps[1..], a);
      }
    }
  }

  /** What is dealt with stays dealt with. */
  lemma {:induction false} PathKeepsClosed(s: State, steps: seq<Step>, t: nat)
    requires LaneInv(s) && t < |s.log.accepted| && !Open(s, t) && PlainPath(s, steps)
    ensures !Open(End(s, steps), t)
    decreases |steps|
  {
    hide LaneInv, Open, After;
    if steps != [] {
      StepKeepsLanes(s, steps[0]);
      StepKeepsClosed(s, steps[0], t);
      PathKeepsClosed(After(s, steps[0]), steps[1..], t);
    }
  }

  lemma {:induction false} StepKeepsClosed(s: State, step: Step, t: nat)
    requires LaneInv(s) && Enabled(s, step) && t < |s.log.accepted| && !Open(s, t)
    ensures t < |After(s, step).log.accepted| && !Open(After(s, step), t)
  {
    hide LaneInv, Waiting;
    var s' := After(s, step);
    match step {
      case Send => SendWaiting(s, t);
      case Poll => PollKeepsOpen(s);
      case Check => CheckCloses(s);
      case Register(_, _) => SameLanesSameOpen(s, s');
      case CancelRemove(_) => SameLanesSameOpen(s, s');
      case CancelInsert => SameLanesSameOpen(s, s');
      case Unqueue => SameLanesSameOpen(s, s');
    }
  }

  /** In every run, whatever is sent and cancelled meanwhile: if at some time `a` was sure to come
      before `b`, then `b` is delivered only after `a` has been dealt with. */
  lemma {:induction false} DeliveryRespectsPriority(steps: seq<Step>, states: seq<State>, m: nat, n: nat, a: nat, b: nat)
    requires IsRun(steps, states) && m <= n <= |steps|
    requires Open(states[m], a) && Open(states[m], b) && a != b && Sure(states[m], a, b)
    ensures Open(states[n], a) ==> Open(states[n], b) && Sure(states[n], a, b)
    ensures b in states[n].log.delivered ==> !Open(states[n], a)
    decreases n - m
  {
    hide LaneInv, Open, Sure, After, Enabled;
    RunsKeepLanes(steps, states, m);
    RunsKeepLanes(steps, states, n);
    if m < n {
      StepKeepsSure(states[m], steps[m], a, b);
      assert states[m + 1] == After(states[m], steps[m]);
      if Open(states[m + 1], a) {
        DeliveryRespectsPriority(steps, states, m + 1, n, a, b);
      } else {
        OpenInRange(states[m], a);
        StepInRange(states[m], steps[m], a);
        RunKeepsClosed(steps, states, m + 1, n, a);
      }
    }
    if Open(states[n], b) { OpenInRange(states[n], b); }
  }

  lemma OpenInRange(s: State, t: nat)
    requires LaneInv(s) && Open(s, t)
    ensures t < |s.log.accepted| && t !in s.log.delivered
  {
    OpenIsAccepted(s, t);
  }

  lemma StepInRange(s: State, step: Step, t: nat)
    requires t < |s.log.accepted|
    ensures t < |After(s, step).log.accepted|
  {
  }

  lemma {:induction false} RunKeepsClosed(steps: seq<Step>, states: seq<State>, m: nat, n: nat, t: nat)
    requires IsRun(steps, states) && m <= n <= |steps| && t < |states[m].log.accepted| && !Open(states[m], t)
    ensures !Open(states[n], t)
    decreases n - m
  {
    hide LaneInv, Open, After, Enabled;
    if m < n {
      RunsKeepLanes(steps, states, m);
      assert states[m + 1] == After(states[m], steps[m]) && Enabled(states[m], steps[m]);
      StepKeepsClosed(states[m], steps[m], t);
      RunKeepsClosed(steps, states, m + 1, n, t);
    }
  }

  /** When a pass over the lanes begins, what precedes is sure to come first. */
  lemma FirstInThePass(s: State, a: nat, b: nat)
    requires LaneInv(s) && Cursor(s) == 0 && Waiting(s, a) && Waiting(s, b) && a != b
    ensures a < |s.log.accepted| && b < |s.log.accepted|
    ensures Sure(s, a, b) <==> Before(s.log, a, b)
  {
    OpenIsAccepted(s, a);
    OpenIsAccepted(s, b);
    if HeadOf(s, 0, a) { HeadIsOldest(s, 0, a, b); }
  }

  /* ---------- the session object ---------- */

  /** The consumer alone, for some turns. */
  ghost function Alone(s: State, turns: nat): State {
    if turns == 0 then s else After(Alone(s, turns - 1), Turn(Alone(s, turns - 1)))
  }

  lemma AloneStarts(s: State)
    ensures Alone(s, 0) == s
  {
  }

  lemma AloneGoesOn(s: State, turns: nat)
    ensures Alone(s, turns + 1) == After(Alone(s, turns), Turn(Alone(s, turns)))
  {
  }

  lemma {:induction false} AloneJoins(s: State, a: nat, b: nat)
    ensures Alone(Alone(s, a), b) == Alone(s, a + b)
  {
    hide After;
    if b > 0 { AloneJoins(s, a, b - 1); }
  }

  /** What the consumer does alone continues any run. */
  lemma {:induction false} AloneIsRun(steps: seq<Step>, states: seq<State>, turns: nat) returns (more: seq<Step>, reached: seq<State>)
    requires IsRun(steps, states)
    ensures |more| == turns && |reached| == |states| + turns && IsRun(steps + more, reached)
    ensures reached[|reached| - 1] == Alone(states[|steps|], turns)
  {
    hide After;
    if turns == 0 {
      more, reached := [], states;
      assert steps + more == steps;
    } else {
      more, reached := AloneIsRun(steps, states, turns - 1);
      var last := reached[|reached| - 1];
      var longer := reached + [After(last, Turn(last))];
      assert (steps + (more + [Turn(last)]))[..|steps + more|] == steps + more;
      more, reached := more + [Turn(last)], longer;
    }
  }

  /** The queues shared by the input thread and the consumer. A method that stands for one
      section under one lock, or for one look at one lane, is one step; `input` and `consumer`
      are where the two threads are. */
  class Session {
    var lanes: Lanes
    var queuedUsers: set<Uuid>
    var cancelledUsers: set<Uuid>
    ghost var input: Input
    ghost var consumer: Consumer
    ghost var log: Log

    ghost function View(): State
      reads this
    {
      State(lanes, queuedUsers, cancelledUsers, input, consumer, log)
    }

    constructor ()
      ensures View() == INITIAL
    {
      lanes, queuedUsers, cancelledUsers := [[], [], [], [], [], []], {}, {};
      input, consumer, log := Idle, Polling(0), Log([], map[], [], []);
    }

    /** Reserves room first, then refuses a UUID that is still queued. */
    method Reserve(user: Option<Uuid>, lane: LaneIndex) returns (outcome: Outcome)
      requires Enabled(View(), Register(user, lane))
      modifies this
      ensures View() == After(old(View()), Register(user, lane))
      ensures outcome == Full <==> |old(lanes)[lane]| >= CAPACITIES[lane]
      ensures outcome == Duplicate <==> |old(lanes)[lane]| < CAPACITIES[lane] && user.Some? && user.value in old(queuedUsers)
      ensures lanes == old(lanes) && cancelledUsers == old(cancelledUsers)
      ensures queuedUsers == old(queuedUsers) + (if outcome == Reserved && user.Some? then {user.value} else {})
    {
      if |lanes[lane]| >= CAPACITIES[lane] {
        return Full;
      }
      if user.Some? {
        if user.value in queuedUsers {
          return Duplicate;
        }
        queuedUsers := queuedUsers + {user.value};
      }
      input := Sending(user, lane);
      outcome := Reserved;
    }

    /** Sends into the reserved room. */
    method SendReserved(message: Message, lane: LaneIndex)
      requires input == Sending(message.user, lane) && message.ticket == |log.accepted|
      modifies this
      ensures View() == After(old(View()), Send)
    {
      lanes := lanes[lane := lanes[lane] + [message]];
      input := Idle;
      log := log.(accepted := log.accepted + [Accepted(message.user, lane)],
                  holder := if message.user.Some? then log.holder[message.user.value := message.ticket] else log.holder);
    }

    /** First half of a cancellation, under the lock of the queued set. */
    method RemoveQueued(uuid: Uuid) returns (found: bool)
      requires Enabled(View(), CancelRemove(uuid))
      modifies this
      ensures View() == After(old(View()), CancelRemove(uuid)) && found == (uuid in old(queuedUsers))
    {
      found := uuid in queuedUsers;
      if found {
        queuedUsers := queuedUsers - {uuid};
        input := Cancelling(uuid);
      }
    }

    /** Second half, under the lock of the cancelled set. */
    method InsertCancelled(uuid: Uuid)
      requires input == Cancelling(uuid)
      modifies this
      ensures View() == After(old(View()), CancelInsert)
    {
      cancelledUsers := cancelledUsers + {uuid};
      input := Idle;
      if uuid in log.holder {
        log := log.(reported := log.reported + [log.holder[uuid]]);
      }
    }

    /** Looks at one lane and takes its oldest message. */
    method TryLane(lane: LaneIndex) returns (message: Option<Message>)
      requires consumer == Polling(lane)
      modifies this
      ensures View() == After(old(View()), Poll)
      ensures message == if old(lanes)[lane] == [] then None else Some(old(lanes)[lane][0])
      ensures message.Some? ==> consumer == Popped(message.value)
    {
      if lanes[lane] == [] {
        consumer := Polling(if lane == 5 then 0 else lane + 1);
        return None;
      }
      message := Some(lanes[lane][0]);
      lanes := lanes[lane := lanes[lane][1..]];
      consumer := Popped(message.value);
    }

    /** The message is no longer queued, under the lock of the queued set. */
    method Forget(message: Message)
      requires consumer == Popped(message)
      modifies this
      ensures View() == After(old(View()), Unqueue)
    {
      if message.user.Some? {
        queuedUsers := queuedUsers - {message.user.value};
      }
      consumer := Unqueued(message);
    }

    /** Whether the message was cancelled, under the lock of the cancelled set. */
    method TakeCancelled(message: Message) returns (cancelled: bool)
      requires consumer == Unqueued(message)
      modifies this
      ensures View() == After(old(View()), Check)
      ensures cancelled == (message.user.Some? && message.user.value in old(cancelledUsers))
    {
      cancelled := message.user.Some? && message.user.value in cancelledUsers;
      if cancelled {
        cancelledUsers := cancelledUsers - {message.user.value};
      } else {
        log := log.(delivered := log.delivered + [message.ticket]);
      }
      consumer := Polling(0);
    }

    /** One pass over the lanes: the first message found is taken. */
    method Select() returns (message: Option<Message>, ghost turns: nat)
      requires consumer == Polling(0)
      modifies this
      ensures View() == Alone(old(View()), turns) && log == old(log)
      ensures message.None? ==> consumer == Polling(0) && lanes == old(lanes) && Total(lanes) == 0
      ensures message.Some? ==> consumer == Popped(message.value) && Total(lanes) < old(Total(lanes))
    {
      message, turns := None, 0;
      var lane := 0;
      while lane < 6
        invariant 0 <= lane <= 6 && View() == Alone(old(View()), turns) && log == old(log) && lanes == old(lanes)
        invariant message.None? && consumer == Polling(if lane == 6 then 0 else lane)
        invariant forall l :: 0 <= l < lane ==> lanes[l] == []
      {
        ghost var before := View();
        message := TryLane(lane);
        turns := turns + 1;
        if message.Some? {
          TotalAfterTake(before);
          return;
        }
        lane := lane + 1;
      }
    }

    /** Receives the next message, dropping cancelled ones on the way; it gives up when a pass
        over the lanes found every one empty. */
    method Receive() returns (received: Option<Message>, ghost turns: nat)
      requires consumer == Polling(0)
      modifies this
      ensures View() == Alone(old(View()), turns) && consumer == Polling(0)
      ensures received.None? ==> Total(lanes) == 0 && log.delivered == old(log.delivered)
      ensures received.Some? ==> log.delivered == old(log.delivered) + [received.value.ticket]
    {
      hide Alone, Total;
      turns := 0;
      AloneStarts(View());
      while true
        invariant View() == Alone(old(View()), turns) && consumer == Polling(0)
        invariant log.delivered == old(log.delivered)
        decreases Total(lanes)
      {
        ghost var before := View();
        ghost var passed;
        received, passed := Select();
        AloneJoins(old(View()), turns, passed);
        turns := turns + passed;
        if received.None? {
          return;
        }
        AloneGoesOn(old(View()), turns);
        Forget(received.value);
        AloneGoesOn(old(View()), turns + 1);
        var cancelled := TakeCancelled(received.value);
        turns := turns + 2;
        if !cancelled {
          return;
        }
      }
    }
  }
}
