/** What becomes of queued user messages (src/control.rs). Every accepted message is either
    delivered or reported cancelled, never both, as long as two conditions hold, one on the second
    half of a cancellation and one on sending under a UUID that is marked as cancelled. Both can be
    checked before the step, and both are exact: a step breaks its condition if and only if the two
    threads can then go on so that a message reported cancelled is delivered.
 */
module ControlFates {
  import opened Wrappers
  import opened ControlQueues

  /* ---------- the conditions ---------- */

  ghost predicate HeldBy(s: State, u: Uuid, ticket: nat) {
    ticket < |s.log.accepted| && s.log.accepted[ticket].user == Some(u)
  }

  /** Of the open messages of `u`, the one that is sure to be dealt with first. */
  ghost predicate FirstOf(s: State, u: Uuid, ticket: nat) {
    && Open(s, ticket) && HeldBy(s, u, ticket)
    && (forall other: nat :: Open(s, other) && HeldBy(s, u, other) && other != ticket ==> Sure(s, ticket, other))
  }

  /** The present pass over the lanes finds a message before it gets to the end of `lane`. */
  predicate PassStops(s: State, lane: LaneIndex) {
    var l := FirstLane(s.lanes, Cursor(s));
    l.Some? && l.value <= lane
  }

  /** A message sent to `lane` now is sure to come after `ticket`: that one is being dealt with or
      about to be taken, or its lane comes no later, and the present pass has not gone past it
      or will not get to the new message. */
  predicate SentBehind(s: State, ticket: nat, lane: LaneIndex)
    requires ticket < |s.log.accepted|
  {
    var own := s.log.accepted[ticket].lane;
    || InFlight(s, ticket)
    || HeadOf(s, Cursor(s), ticket)
    || (own <= lane && (Cursor(s) <= own || lane < Cursor(s) || PassStops(s, lane)))
  }

  /** The second half of a cancellation is in order if the UUID is not marked already and the
      message being cancelled is still open, and sure to be the next of its UUID to be dealt with.
      A message may be sent under a marked UUID only behind the one that was reported. */
  ghost predicate Orderly(s: State, step: Step) {
    match step
    case CancelInsert =>
      s.input.Cancelling? ==>
        var u := s.input.uuid;
        u !in s.cancelled && u in s.log.holder && FirstOf(s, u, s.log.holder[u])
    case Send =>
      s.input.Sending? && s.input.user.Some? && s.input.user.value in s.cancelled ==>
        forall t: nat :: Open(s, t) && HeldBy(s, s.input.user.value, t) && t in s.log.reported ==>
          SentBehind(s, t, s.input.lane)
    case _ => true
  }

  ghost predicate IsOrderlyRun(steps: seq<Step>, states: seq<State>) {
    IsRun(steps, states) && forall i :: 0 <= i < |steps| ==> Orderly(states[i], steps[i])
  }

  /* ---------- the invariant ---------- */

  /** The latest message of a queued UUID is still to be unqueued, unless a newer one is being
      sent, and was not reported cancelled. */
  ghost predicate QueuedOk(s: State, u: Uuid) {
    || (s.input.Sending? && s.input.user == Some(u))
    || (&& u in s.log.holder && s.log.holder[u] !in s.log.reported && Open(s, s.log.holder[u])
        && (s.consumer.Unqueued? ==> s.consumer.message.ticket != s.log.holder[u]))
  }

  /** The message being cancelled is not queued, and was not reported before. */
  ghost predicate CancellingOk(s: State, u: Uuid) {
    u !in s.queued && u in s.log.holder && s.log.holder[u] !in s.log.reported
  }

  ghost predicate CancelledOk(s: State, u: Uuid) {
    exists t :: FirstOf(s, u, t)
  }

  ghost predicate UuidsTracked(s: State) {
    && (forall u :: u in s.log.holder ==> HeldBy(s, u, s.log.holder[u]))
    && (forall u :: u in s.queued ==> QueuedOk(s, u))
    && (forall u :: u in s.cancelled ==> CancelledOk(s, u))
    && (s.input.Cancelling? ==> CancellingOk(s, s.input.uuid))
  }

  /** The message that the cancelled set marks: the next one of its UUID. */
  ghost predicate Marked(s: State, ticket: nat) {
    exists u :: u in s.cancelled && FirstOf(s, u, ticket)
  }

  /** Each accepted message has one fate. */
  ghost predicate OneFate(s: State) {
    && Distinct(s.log.reported)
    && (forall t :: t in s.log.reported ==> t < |s.log.accepted| && t !in s.log.delivered)
    && (forall t :: 0 <= t < |s.log.accepted| && !Open(s, t) ==> t in s.log.delivered || t in s.log.reported)
    && (forall t :: Open(s, t) ==> (t in s.log.reported <==> Marked(s, t)))
  }

  ghost predicate Inv(s: State) {
    LaneInv(s) && UuidsTracked(s) && OneFate(s)
  }

  lemma FirstIsUnique(s: State, u: Uuid, a: nat, b: nat)
    requires LaneInv(s) && FirstOf(s, u, a) && FirstOf(s, u, b)
    ensures a == b
  {
    if a != b {
      assert Sure(s, a, b) && Sure(s, b, a);
      SureOneWay(s, a, b);
    }
  }

  lemma SureOneWay(s: State, a: nat, b: nat)
    requires LaneInv(s) && Open(s, a) && Open(s, b) && a != b && Sure(s, a, b)
    ensures !Sure(s, b, a)
  {
    hide Waiting, LanesInOrder, InFlightOk, DeliveredOnce, GoneBeforeWaiting, DeliveriesInOrder, KindsFit;
    OpenIsAccepted(s, a);
    OpenIsAccepted(s, b);
    if Sure(s, b, a) {
      if HeadOf(s, Cursor(s), a) { HeadIsOldest(s, Cursor(s), a, b); FirstLaneIs(s.lanes, Cursor(s), Cursor(s)); }
      if HeadOf(s, Cursor(s), b) { HeadIsOldest(s, Cursor(s), b, a); FirstLaneIs(s.lanes, Cursor(s), Cursor(s)); }
    }
  }

  /** What a message was accepted as does not change. */
  lemma HeldStays(s: State, s': State, u: Uuid, t: nat)
    requires s.log.accepted <= s'.log.accepted && t < |s.log.accepted|
    ensures HeldBy(s', u, t) <==> HeldBy(s, u, t)
  {
  }

  /* ---------- what is first stays first ---------- */

  /** A step that opens and closes no message of `u` keeps its first one. */
  lemma {:induction false} StepKeepsFirst(s: State, step: Step, u: Uuid, t: nat)
    requires LaneInv(s) && Enabled(s, step) && FirstOf(s, u, t) && Open(After(s, step), t)
    requires s.log.accepted <= After(s, step).log.accepted
    requires forall x: nat :: Open(After(s, step), x) && HeldBy(After(s, step), u, x) ==> x < |s.log.accepted| && Open(s, x)
    ensures FirstOf(After(s, step), u, t)
  {
    hide LaneInv, Open, Sure, After;
    var s' := After(s, step);
    HeldStays(s, s', u, t);
    forall other: nat | Open(s', other) && HeldBy(s', u, other) && other != t ensures Sure(s', t, other) {
      HeldStays(s, s', u, other);
      StepKeepsSure(s, step, t, other);
    }
  }

  /** ... and then the first one is the same. */
  lemma {:induction false} FirstIsSame(s: State, step: Step, u: Uuid)
    requires LaneInv(s) && Enabled(s, step) && CancelledOk(s, u)
    requires s.log.accepted == After(s, step).log.accepted
    requires forall x: nat :: HeldBy(s, u, x) ==> (Open(After(s, step), x) <==> Open(s, x))
    ensures forall t: nat :: FirstOf(After(s, step), u, t) <==> FirstOf(s, u, t)
  {
    hide LaneInv, Open, Sure, After, FirstOf;
    var t0 :| FirstOf(s, u, t0);
    FirstIsOpen(s, u, t0);
    var s' := After(s, step);
    forall x: nat | Open(s', x) && HeldBy(s', u, x) ensures x < |s.log.accepted| && Open(s, x) { }
    StepKeepsFirst(s, step, u, t0);
    StepKeepsLanes(s, step);
    forall t: nat ensures FirstOf(s', u, t) <==> FirstOf(s, u, t) {
      if FirstOf(s, u, t) { FirstIsUnique(s, u, t, t0); }
      if FirstOf(s', u, t) { FirstIsUnique(s', u, t, t0); }
    }
  }

  lemma FirstIsOpen(s: State, u: Uuid, t: nat)
    requires FirstOf(s, u, t)
    ensures HeldBy(s, u, t) && Open(s, t) && t < |s.log.accepted|
  {
  }

  /** If every marked UUID keeps its first message, the same messages are marked. */
  lemma SameMarked(s: State, s': State)
    requires s'.cancelled == s.cancelled
    requires forall u, t: nat :: u in s.cancelled ==> (FirstOf(s', u, t) <==> FirstOf(s, u, t))
    ensures forall t: nat :: Marked(s', t) <==> Marked(s, t)
    ensures (forall u :: u in s.cancelled ==> CancelledOk(s, u)) ==> forall u :: u in s'.cancelled ==> CancelledOk(s', u)
  {
    hide FirstOf;
    forall u | u in s.cancelled && CancelledOk(s, u) ensures CancelledOk(s', u) {
      var t :| FirstOf(s, u, t);
      assert FirstOf(s', u, t);
    }
  }

  /** A step that neither accepts, closes nor reports a message and marks none. */
  lemma {:induction false} QuietKeepsFates(s: State, step: Step)
    requires Inv(s) && Enabled(s, step)
    requires var s' := After(s, step);
             && s'.log == s.log && s'.cancelled == s.cancelled
             && (forall x: nat :: Open(s', x) <==> Open(s, x))
    ensures OneFate(After(s, step)) && forall u :: u in s.cancelled ==> CancelledOk(After(s, step), u)
  {
    hide LaneInv, Open, After, FirstOf, QueuedOk, CancellingOk, Marked;
    var s' := After(s, step);
    forall u, t: nat | u in s.cancelled ensures FirstOf(s', u, t) <==> FirstOf(s, u, t) {
      assert CancelledOk(s, u);
      FirstIsSame(s, step, u);
    }
    SameMarked(s, s');
  }

  /** Steps that only move a thread on. */
  lemma {:induction false} QuietKeepsInv(s: State, step: Step)
    requires Inv(s) && Enabled(s, step) && !step.Send? && !step.CancelInsert? && !step.Check?
    ensures Inv(After(s, step))
  {
    hide LaneInv, OneFate, FirstOf, Waiting, HeldBy, CancelledOk;
    StepKeepsLanes(s, step);
    var s' := After(s, step);
    match step {
      case Register(user, lane) => SameLanesSameOpen(s, s');
      case CancelRemove(uuid) => SameLanesSameOpen(s, s');
      case Poll => PollKeepsOpen(s);
      case Unqueue => SameLanesSameOpen(s, s');
    }
    assert forall x: nat :: Open(s', x) <==> Open(s, x);
    QuietKeepsFates(s, step);
    HolderStays(s, s');
    forall u | u in s'.queued ensures QueuedOk(s', u) { QuietKeepsQueued(s, step, u); }
  }

  lemma {:induction false} QuietKeepsQueued(s: State, step: Step, u: Uuid)
    requires Inv(s) && Enabled(s, step) && !step.Send? && !step.CancelInsert? && !step.Check?
    requires forall x: nat :: Open(After(s, step), x) <==> Open(s, x)
    requires u in After(s, step).queued
    ensures QueuedOk(After(s, step), u)
  {
    hide OneFate, FirstOf, CancelledOk, Open, LanesInOrder, DeliveredOnce, GoneBeforeWaiting, DeliveriesInOrder, KindsFit, Waiting;
    if u in s.queued {
      assert QueuedOk(s, u);
      if step.Unqueue? && u in s.log.holder {
        assert HeldBy(s, u, s.log.holder[u]);
      }
    }
  }

  lemma HolderStays(s: State, s': State)
    requires UuidsTracked(s) && s'.log.accepted == s.log.accepted && s'.log.holder == s.log.holder
    ensures forall u :: u in s'.log.holder ==> HeldBy(s', u, s'.log.holder[u])
  {
    hide QueuedOk, CancelledOk, CancellingOk;
  }

  /* ---------- sending ---------- */

  /** What sending changes. */
  lemma SendAdds(s: State, t: nat)
    requires LaneInv(s) && s.input.Sending?
    ensures var s' := AfterSend(s);
            && (Open(s', t) <==> Open(s, t) || t == |s.log.accepted|)
            && s'.log.accepted == s.log.accepted + [Accepted(s.input.user, s.input.lane)]
            && s'.log.delivered == s.log.delivered && s'.log.reported == s.log.reported
            && s'.cancelled == s.cancelled && s'.queued == s.queued && s'.consumer == s.consumer && s'.input.Idle?
            && s'.log.holder == (if s.input.user.Some? then s.log.holder[s.input.user.value := |s.log.accepted|] else s.log.holder)
            && (forall u: Uuid :: HeldBy(s', u, t) <==> HeldBy(s, u, t) || (t == |s.log.accepted| && s.input.user == Some(u)))
  {
    SendWaiting(s, t);
  }

  /** The condition on sending, in terms of the state after it. */
  lemma {:induction false} BehindIsSure(s: State, t: nat)
    requires LaneInv(s) && s.input.Sending? && Open(s, t)
    ensures t < |s.log.accepted|
    ensures SentBehind(s, t, s.input.lane) <==> Sure(AfterSend(s), t, |s.log.accepted|)
  {
    hide LaneInv, Waiting;
    OpenIsAccepted(s, t);
    var s', lane := AfterSend(s), s.input.lane;
    SendWaiting(s, t);
    SendWaiting(s, |s.log.accepted|);
    SentIsFresh(s);
    if s.lanes[lane] == [] && Cursor(s) <= lane && !PassStops(s, lane) {
      FirstLaneIs(s'.lanes, Cursor(s), lane);
    } else {
      SentIsNotFound(s);
    }
    if Waiting(s, t) { SentHeads(s, t); }
  }

  lemma SentIsFresh(s: State)
    requires LaneInv(s)
    ensures !Open(s, |s.log.accepted|)
  {
    if Open(s, |s.log.accepted|) { OpenIsAccepted(s, |s.log.accepted|); }
  }

  lemma SentHeads(s: State, t: nat)
    requires LaneInv(s) && s.input.Sending? && Waiting(s, t)
    ensures HeadOf(AfterSend(s), Cursor(s), t) <==> HeadOf(s, Cursor(s), t)
  {
    OpenIsAccepted(s, t);
  }

  lemma SentIsNotFound(s: State)
    requires LaneInv(s) && s.input.Sending?
    requires !(s.lanes[s.input.lane] == [] && Cursor(s) <= s.input.lane && !PassStops(s, s.input.lane))
    ensures !FoundNext(AfterSend(s), |s.log.accepted|)
  {
    var s' := AfterSend(s);
    if FoundNext(s', |s.log.accepted|) {
      var k := FirstLane(s'.lanes, Cursor(s)).value;
      HeadWaits(s', k, |s.log.accepted|);
      if k != s.input.lane || s.lanes[k] != [] {
        HeadWaits(s, k, |s.log.accepted|);
        SentIsFresh(s);
      }
    }
  }

  /** A message sent in order does not come before a marked one. */
  lemma {:induction false} SendKeepsFirst(s: State, u: Uuid)
    requires Inv(s) && s.input.Sending? && Orderly(s, Send) && u in s.cancelled
    ensures forall t: nat :: FirstOf(AfterSend(s), u, t) <==> FirstOf(s, u, t)
  {
    hide LaneInv, Open, Sure, AfterSend, FirstOf, SentBehind, HeldBy;
    assert CancelledOk(s, u);
    var s' := AfterSend(s);
    var t0 :| FirstOf(s, u, t0);
    FirstIsOpen(s, u, t0);
    assert Marked(s, t0);
    StepKeepsLanes(s, Send);
    FirstAfterSend(s, u, t0);
    forall t: nat ensures FirstOf(s', u, t) <==> FirstOf(s, u, t) {
      if FirstOf(s, u, t) { FirstIsUnique(s, u, t, t0); }
      if FirstOf(s', u, t) { FirstIsUnique(s', u, t, t0); }
    }
  }

  lemma {:induction false} FirstAfterSend(s: State, u: Uuid, t: nat)
    requires LaneInv(s) && s.input.Sending? && FirstOf(s, u, t) && t < |s.log.accepted|
    requires s.input.user == Some(u) ==> SentBehind(s, t, s.input.lane)
    ensures FirstOf(AfterSend(s), u, t)
  {
    hide LaneInv, Open, Sure, AfterSend, SentBehind;
    var s' := AfterSend(s);
    SendAdds(s, t);
    BehindIsSure(s, t);
    forall other: nat | Open(s', other) && HeldBy(s', u, other) && other != t ensures Sure(s', t, other) {
      SendAdds(s, other);
      if Open(s, other) {
        OpenInRange(s, other);
        SendKeepsSure(s, t, other);
      }
    }
  }

  lemma {:induction false} SendKeepsInv(s: State)
    requires Inv(s) && s.input.Sending? && Orderly(s, Send)
    ensures Inv(AfterSend(s))
  {
    hide LaneInv, Open, AfterSend, FirstOf, SentBehind, HeldBy, Marked;
    var s', sent := AfterSend(s), |s.log.accepted|;
    StepKeepsLanes(s, Send);
    SendAdds(s, sent);
    SentIsFresh(s);
    forall u, t: nat | u in s.cancelled ensures FirstOf(s', u, t) <==> FirstOf(s, u, t) { SendKeepsFirst(s, u); }
    SameMarked(s, s');
    forall t: nat ensures Open(s', t) <==> Open(s, t) || t == sent { SendAdds(s, t); }
    NewIsUnmarked(s);
    SendKeepsUuids(s);
  }

  lemma NewIsUnmarked(s: State)
    requires LaneInv(s)
    ensures !Marked(s, |s.log.accepted|)
  {
    SentIsFresh(s);
  }

  lemma {:induction false} SendKeepsUuids(s: State)
    requires Inv(s) && s.input.Sending?
    ensures var s' := AfterSend(s);
            && (forall u :: u in s'.log.holder ==> HeldBy(s', u, s'.log.holder[u]))
            && (forall u :: u in s'.queued ==> QueuedOk(s', u))
  {
    hide LaneInv, Open, AfterSend, FirstOf, HeldBy, Marked, CancelledOk;
    var s', sent := AfterSend(s), |s.log.accepted|;
    SendAdds(s, sent);
    FlightIsAccepted(s);
    forall u | u in s'.log.holder ensures HeldBy(s', u, s'.log.holder[u]) { SendAdds(s, s'.log.holder[u]); }
    forall u | u in s'.queued ensures QueuedOk(s', u) {
      assert QueuedOk(s, u);
      SendAdds(s, s'.log.holder[u]);
    }
  }

  lemma FlightIsAccepted(s: State)
    requires LaneInv(s)
    ensures !s.consumer.Polling? ==> s.consumer.message.ticket < |s.log.accepted| && Open(s, s.consumer.message.ticket)
    ensures !s.consumer.Polling? ==> s.consumer.message.ticket !in s.log.delivered
    ensures !s.consumer.Polling? ==> forall u: Uuid :: HeldBy(s, u, s.consumer.message.ticket) <==> s.consumer.message.user == Some(u)
  {
  }

  /* ---------- cancelling ---------- */

  lemma {:induction false} CancelKeepsFirst(s: State, v: Uuid, t: nat)
    requires s.input.Cancelling?
    ensures FirstOf(AfterCancelInsert(s), v, t) <==> FirstOf(s, v, t)
    ensures Open(AfterCancelInsert(s), t) <==> Open(s, t)
  {
    hide Sure, Open, InFlight;
    var s' := AfterCancelInsert(s);
    forall a: nat, b: nat ensures Sure(s', a, b) <==> Sure(s, a, b) { SameLanesKeepSure(s, s', a, b); }
    SameLanesKeepSure(s, s', t, t);
  }

  lemma {:induction false} CancelInsertKeepsInv(s: State)
    requires Inv(s) && s.input.Cancelling? && Orderly(s, CancelInsert)
    ensures Inv(AfterCancelInsert(s))
  {
    hide LaneInv, Open, FirstOf, HeldBy;
    var s', u := AfterCancelInsert(s), s.input.uuid;
    var r := s.log.holder[u];
    StepKeepsLanes(s, CancelInsert);
    forall v, t: nat ensures FirstOf(s', v, t) <==> FirstOf(s, v, t) { CancelKeepsFirst(s, v, t); }
    forall t: nat ensures Open(s', t) <==> Open(s, t) { CancelKeepsFirst(s, u, t); }
    HolderStays(s, s');
    FirstIsOpen(s, u, r);
    OpenInRange(s, r);
    forall v | v in s'.queued ensures QueuedOk(s', v) {
      assert QueuedOk(s, v);
      if v in s.log.holder { HoldersDiffer(s, v, u); }
    }
    forall v | v in s'.cancelled ensures CancelledOk(s', v) {
      if v == u {
        assert FirstOf(s', u, r);
      } else {
        assert CancelledOk(s, v);
        var t :| FirstOf(s, v, t);
        assert FirstOf(s', v, t);
      }
    }
    forall t: nat | Open(s', t) ensures t in s'.log.reported <==> Marked(s', t) { MarksAfterCancel(s, t); }
  }

  lemma {:induction false} MarksAfterCancel(s: State, t: nat)
    requires Inv(s) && s.input.Cancelling? && Orderly(s, CancelInsert) && Open(s, t)
    ensures t in AfterCancelInsert(s).log.reported <==> Marked(AfterCancelInsert(s), t)
  {
    hide LaneInv, UuidsTracked, Open, FirstOf, HeldBy;
    var s', u := AfterCancelInsert(s), s.input.uuid;
    assert t in s.log.reported <==> Marked(s, t);
    forall v, t: nat ensures FirstOf(s', v, t) <==> FirstOf(s, v, t) { CancelKeepsFirst(s, v, t); }
    if Marked(s, t) {
      var v :| v in s.cancelled && FirstOf(s, v, t);
      assert FirstOf(s', v, t);
    }
    if t == s.log.holder[u] { assert FirstOf(s', u, t); }
    if Marked(s', t) {
      var v :| v in s'.cancelled && FirstOf(s', v, t);
      if v == u { FirstIsUnique(s, u, t, s.log.holder[u]); } else { assert FirstOf(s, v, t); }
    }
  }

  /** Different UUIDs have different latest messages. */
  lemma HoldersDiffer(s: State, u: Uuid, v: Uuid)
    requires UuidsTracked(s) && u in s.log.holder && v in s.log.holder && u != v
    ensures s.log.holder[u] != s.log.holder[v]
  {
    hide QueuedOk, CancelledOk, CancellingOk;
    assert HeldBy(s, u, s.log.holder[u]) && HeldBy(s, v, s.log.holder[v]);
  }

  /* ---------- dealing with a message ---------- */

  /** A message in flight is the first of its UUID, and marked exactly if that is cancelled. */
  lemma {:induction false} FlightIsFirst(s: State)
    requires LaneInv(s) && !s.consumer.Polling? && s.consumer.message.user.Some?
    ensures var m := s.consumer.message; FirstOf(s, m.user.value, m.ticket)
  {
    var m := s.consumer.message;
    FlightIsAccepted(s);
    forall other: nat | Open(s, other) && HeldBy(s, m.user.value, other) && other != m.ticket ensures Sure(s, m.ticket, other) {
      OpenInRange(s, other);
    }
  }

  lemma {:induction false} FlightMarked(s: State)
    requires LaneInv(s) && !s.consumer.Polling?
    ensures var m := s.consumer.message; Marked(s, m.ticket) <==> m.user.Some? && m.user.value in s.cancelled
  {
    hide LaneInv, Open, Sure;
    var m := s.consumer.message;
    FlightIsAccepted(s);
    if m.user.Some? { FlightIsFirst(s); }
  }

  lemma {:induction false} CheckKeepsInv(s: State)
    requires Inv(s) && s.consumer.Unqueued?
    ensures Inv(AfterCheck(s))
  {
    hide LaneInv, Open, FirstOf, HeldBy, Waiting;
    var s', m := AfterCheck(s), s.consumer.message;
    StepKeepsLanes(s, Check);
    CheckCloses(s);
    FlightIsAccepted(s);
    FlightMarked(s);
    HolderStays(s, s');
    forall u | u in s'.queued ensures QueuedOk(s', u) { assert QueuedOk(s, u); }
    forall u | u in s'.cancelled ensures CancelledOk(s', u) && forall t: nat :: FirstOf(s', u, t) <==> FirstOf(s, u, t) {
      assert CancelledOk(s, u);
      CheckKeepsFirst(s, u);
    }
    forall t: nat | Open(s', t) ensures t in s'.log.reported <==> Marked(s', t) {
      assert t in s.log.reported <==> Marked(s, t);
      MarksAfterCheck(s, t);
    }
  }

  lemma {:induction false} CheckKeepsFirst(s: State, u: Uuid)
    requires LaneInv(s) && s.consumer.Unqueued? && u in AfterCheck(s).cancelled && CancelledOk(s, u)
    ensures CancelledOk(AfterCheck(s), u) && forall t: nat :: FirstOf(AfterCheck(s), u, t) <==> FirstOf(s, u, t)
  {
    hide LaneInv, Open, FirstOf, HeldBy, Waiting;
    CheckCloses(s);
    FlightIsAccepted(s);
    FirstIsSame(s, Check, u);
    var t :| FirstOf(s, u, t);
    assert FirstOf(AfterCheck(s), u, t);
  }

  lemma {:induction false} MarksAfterCheck(s: State, t: nat)
    requires LaneInv(s) && s.consumer.Unqueued? && Open(AfterCheck(s), t) && forall u :: u in s.cancelled ==> CancelledOk(s, u)
    ensures Marked(AfterCheck(s), t) <==> Marked(s, t)
  {
    hide LaneInv, Open, FirstOf, HeldBy, Waiting, CancelledOk;
    var s', m := AfterCheck(s), s.consumer.message;
    CheckCloses(s);
    if Marked(s, t) {
      var u :| u in s.cancelled && FirstOf(s, u, t);
      if m.user == Some(u) {
        FlightIsFirst(s);
        FirstIsUnique(s, u, t, m.ticket);
        assert false;
      }
      CheckKeepsFirst(s, u);
      assert u in s'.cancelled && FirstOf(s', u, t);
    }
    if Marked(s', t) {
      var u :| u in s'.cancelled && FirstOf(s', u, t);
      CheckKeepsFirst(s, u);
    }
  }

  /** Every step that meets its condition keeps the invariant. */
  lemma {:induction false} OrderlyStepKeepsInv(s: State, step: Step)
    requires Inv(s) && Enabled(s, step) && Orderly(s, step)
    ensures Inv(After(s, step))
  {
    hide LaneInv, UuidsTracked, OneFate, AfterSend, AfterCancelInsert, AfterCheck, Orderly;
    match step {
      case Send => SendKeepsInv(s);
      case CancelInsert => CancelInsertKeepsInv(s);
      case Check => CheckKeepsInv(s);
      case _ => QuietKeepsInv(s, step);
    }
  }

  /* ---------- main results over orderly runs ---------- */

  lemma {:induction false} RunsKeepInv(steps: seq<Step>, states: seq<State>, n: nat)
    requires IsOrderlyRun(steps, states) && n <= |steps|
    ensures Inv(states[n])
  {
    hide Inv, After, Orderly, Enabled;
    if n == 0 {
      InitialInv();
    } else {
      RunsKeepInv(steps, states, n - 1);
      assert states[n - 1 + 1] == After(states[n - 1], steps[n - 1]);
      OrderlyStepKeepsInv(states[n - 1], steps[n - 1]);
    }
  }

  lemma InitialInv()
    ensures Inv(INITIAL)
  {
    LanesStartInOrder();
  }

  /** In every orderly run each accepted message is at any time still open, or delivered exactly
      once, or reported cancelled exactly once and never delivered. */
  lemma {:induction false} EachMessageHasOneFate(steps: seq<Step>, states: seq<State>, n: nat, ticket: nat)
    requires IsOrderlyRun(steps, states) && n <= |steps| && ticket < |states[n].log.accepted|
    ensures var log := states[n].log;
            && Distinct(log.delivered) && Distinct(log.reported)
            && !(ticket in log.delivered && ticket in log.reported)
            && (Open(states[n], ticket) ==> ticket !in log.delivered)
            && (!Open(states[n], ticket) ==> ticket in log.delivered || ticket in log.reported)
  {
    hide IsOrderlyRun, UuidsTracked, LanesInOrder, Waiting, GoneBeforeWaiting, DeliveriesInOrder, Marked;
    RunsKeepInv(steps, states, n);
  }

  /** A message is refused as a duplicate only while the latest one under its UUID is still to be
      dealt with, and was not cancelled; with room in its lane any other message is accepted. */
  lemma {:induction false} DuplicateIsStillOpen(s: State, u: Uuid, lane: LaneIndex)
    requires Inv(s) && Enabled(s, Register(Some(u), lane)) && |s.lanes[lane]| < CAPACITIES[lane]
    ensures After(s, Register(Some(u), lane)) == s ==>
              u in s.log.holder && Open(s, s.log.holder[u]) && s.log.holder[u] !in s.log.reported
    ensures After(s, Register(Some(u), lane)) != s ==> After(s, Register(Some(u), lane)).input == Sending(Some(u), lane)
  {
    hide LaneInv, OneFate, Open, CancelledOk;
    if u in s.queued { assert QueuedOk(s, u); }
  }

  /** The log only grows, so a message reported cancelled is never delivered later. */
  lemma {:induction false} CancelledStaysUndelivered(steps: seq<Step>, states: seq<State>, m: nat, n: nat, ticket: nat)
    requires IsOrderlyRun(steps, states) && m <= n <= |steps| && ticket in states[m].log.reported
    ensures ticket in states[n].log.reported && ticket !in states[n].log.delivered
  {
    if m < n {
      CancelledStaysUndelivered(steps, states, m, n - 1, ticket);
      ReportsStay(states[n - 1], steps[n - 1], ticket);
    }
    hide IsOrderlyRun, UuidsTracked, LaneInv, Open;
    RunsKeepInv(steps, states, n);
  }

  lemma ReportsStay(s: State, step: Step, ticket: nat)
    requires ticket in s.log.reported
    ensures ticket in After(s, step).log.reported
  {
  }

  /* ---------- the conditions are exact ---------- */

  /** No message reported cancelled was delivered. */
  ghost predicate Clear(s: State) {
    forall t :: t in s.log.delivered ==> t !in s.log.reported
  }

  ghost predicate OrderlyPath(s: State, steps: seq<Step>)
    decreases |steps|
  {
    steps != [] ==> Enabled(s, steps[0]) && Orderly(s, steps[0]) && OrderlyPath(After(s, steps[0]), steps[1..])
  }

  lemma {:induction false} PlainIsOrderly(s: State, steps: seq<Step>)
    requires PlainPath(s, steps)
    ensures OrderlyPath(s, steps) && End(s, steps).log.reported == s.log.reported
    decreases |steps|
  {
    if steps != [] { PlainIsOrderly(After(s, steps[0]), steps[1..]); }
  }

  lemma {:induction false} OrderlyPathKeepsInv(s: State, steps: seq<Step>)
    requires Inv(s) && OrderlyPath(s, steps)
    ensures Inv(End(s, steps))
    decreases |steps|
  {
    hide Inv, Orderly, Enabled, After;
    if steps != [] {
      OrderlyStepKeepsInv(s, steps[0]);
      OrderlyPathKeepsInv(After(s, steps[0]), steps[1..]);
    }
  }

  /** The consumer alone delivers an open message whose UUID is not marked. */
  lemma {:induction false} DeliveredAlone(s: State, u: Uuid, r: nat) returns (steps: seq<Step>)
    requires LaneInv(s) && u !in s.cancelled && Open(s, r) && HeldBy(s, u, r)
    ensures PlainPath(s, steps) && r in End(s, steps).log.delivered
    decreases Effort(s)
  {
    hide LaneInv, Open, After, Effort, HeldBy;
    var s' := After(s, Turn(s));
    TurnDecreases(s, r);
    StepKeepsLanes(s, Turn(s));
    TurnEffects(s, u, r);
    if Open(s', r) {
      var rest := DeliveredAlone(s', u, r);
      steps := [Turn(s)] + rest;
      assert steps[1..] == rest;
    } else {
      steps := [Turn(s)];
      assert End(s, steps) == s';
    }
  }

  /** What a turn of the consumer does to an open message. */
  lemma {:induction false} TurnEffects(s: State, u: Uuid, r: nat)
    requires LaneInv(s) && Open(s, r) && HeldBy(s, u, r)
    ensures var s' := After(s, Turn(s));
            && HeldBy(s', u, r) && (u !in s.cancelled ==> u !in s'.cancelled)
            && (!Open(s', r) && u !in s.cancelled ==> r in s'.log.delivered)
            && (forall t: nat :: HeldBy(s, u, t) && Open(s, t) && Open(s', t) && u in s.cancelled ==> HeldBy(s', u, t))
  {
    hide LaneInv, Waiting;
    match s.consumer {
      case Polling(_) => PollKeepsOpen(s);
      case Popped(_) => SameLanesSameOpen(s, AfterUnqueue(s));
      case Unqueued(m) =>
        CheckCloses(s);
        FlightIsAccepted(s);
    }
  }

  /** If another message of a marked UUID is sure to come first, it is dropped instead, and the
      consumer alone delivers this one. */
  lemma {:induction false} SecondIsDelivered(s: State, u: Uuid, t: nat, r: nat) returns (steps: seq<Step>)
    requires LaneInv(s) && u in s.cancelled && Open(s, r) && HeldBy(s, u, r)
    requires Open(s, t) && HeldBy(s, u, t) && t != r && Sure(s, t, r)
    ensures PlainPath(s, steps) && r in End(s, steps).log.delivered
    decreases Effort(s)
  {
    hide LaneInv, Open, After, Effort, HeldBy, Sure;
    var s' := After(s, Turn(s));
    TurnDecreases(s, r);
    StepKeepsLanes(s, Turn(s));
    TurnEffects(s, u, r);
    TurnEffects(s, u, t);
    StepKeepsSure(s, Turn(s), t, r);
    TurnDrops(s, u, t);
    var rest;
    if u in s'.cancelled {
      rest := SecondIsDelivered(s', u, t, r);
    } else {
      rest := DeliveredAlone(s', u, r);
    }
    steps := [Turn(s)] + rest;
    assert steps[1..] == rest;
  }

  /** The mark of a UUID goes when a message of it is dropped. */
  lemma {:induction false} TurnDrops(s: State, u: Uuid, t: nat)
    requires LaneInv(s) && u in s.cancelled && Open(s, t) && HeldBy(s, u, t)
    ensures u in After(s, Turn(s)).cancelled ==> Open(After(s, Turn(s)), t)
  {
    hide LaneInv, Waiting;
    match s.consumer {
      case Polling(_) => PollKeepsOpen(s);
      case Popped(_) => SameLanesSameOpen(s, AfterUnqueue(s));
      case Unqueued(m) =>
        CheckCloses(s);
        FlightIsAccepted(s);
    }
  }

  /** If an open message that was reported is not sure to come before another one of its marked
      UUID, it can be delivered. */
  lemma {:induction false} NotFirstIsDelivered(s: State, u: Uuid, r: nat, other: nat) returns (steps: seq<Step>)
    requires LaneInv(s) && s.input.Idle? && u in s.cancelled && Open(s, r) && HeldBy(s, u, r) && r in s.log.reported
    requires Open(s, other) && HeldBy(s, u, other) && other != r && !Sure(s, r, other)
    ensures OrderlyPath(s, steps) && r in End(s, steps).log.delivered && r in End(s, steps).log.reported
  {
    hide LaneInv, Open, Sure, After, Enabled, Orderly, Plain;
    var first := CanOvertake(s, r, other);
    var s1 := End(s, first);
    PathKeepsHeld(s, first, u, r);
    PathKeepsHeld(s, first, u, other);
    var second := SecondIsDelivered(s1, u, other, r);
    JoinPaths(s, first, second);
    steps := first + second;
    PlainIsOrderly(s, steps);
  }

  lemma {:induction false} PathKeepsHeld(s: State, steps: seq<Step>, u: Uuid, t: nat)
    requires HeldBy(s, u, t) && PlainPath(s, steps)
    ensures HeldBy(End(s, steps), u, t)
    decreases |steps|
  {
    if steps != [] {
      AcceptedGrows(s, steps[0]);
      HeldStays(s, After(s, steps[0]), u, t);
      PathKeepsHeld(After(s, steps[0]), steps[1..], u, t);
    }
  }

  lemma AcceptedGrows(s: State, step: Step)
    ensures s.log.accepted <= After(s, step).log.accepted
  {
  }

  /** A second half of a cancellation that is not in order can deliver what it reports. */
  lemma {:induction false} CancelOutOfOrder(s: State) returns (steps: seq<Step>)
    requires Inv(s) && s.input.Cancelling? && !Orderly(s, CancelInsert)
    ensures OrderlyPath(AfterCancelInsert(s), steps) && s.input.uuid in s.log.holder
    ensures var r, end := s.log.holder[s.input.uuid], End(AfterCancelInsert(s), steps); r in end.log.delivered && r in end.log.reported
  {
    hide LaneInv, Open, Sure, HeldBy, QueuedOk, Marked;
    var u := s.input.uuid;
    var s', r := AfterCancelInsert(s), s.log.holder[u];
    assert CancellingOk(s, u);
    StepKeepsLanes(s, CancelInsert);
    assert HeldBy(s, u, r);
    CancelReports(s);
    forall t: nat ensures HeldBy(s, u, t) ==> HeldBy(s', u, t) { CancelKeepsHeld(s, u, t); }
    forall a: nat, b: nat ensures Sure(s', a, b) <==> Sure(s, a, b) { SameLanesKeepSure(s, s', a, b); }
    forall t: nat ensures Open(s', t) <==> Open(s, t) { CancelKeepsFirst(s, u, t); }
    if !Open(s, r) {
      HeldInRange(s, u, r);
      steps := [];
    } else if u in s.cancelled {
      assert CancelledOk(s, u);
      var t :| FirstOf(s, u, t);
      FirstIsReported(s, u, t);
      steps := SecondIsDelivered(s', u, t, r);
      PlainIsOrderly(s', steps);
    } else {
      assert !FirstOf(s, u, r);
      var other: nat :| Open(s, other) && HeldBy(s, u, other) && other != r && !Sure(s, r, other);
      steps := NotFirstIsDelivered(s', u, r, other);
    }
  }

  lemma CancelReports(s: State)
    requires s.input.Cancelling? && s.input.uuid in s.log.holder
    ensures var s' := AfterCancelInsert(s);
            && s'.log.reported == s.log.reported + [s.log.holder[s.input.uuid]] && s.log.holder[s.input.uuid] in s'.log.reported
            && s'.log.delivered == s.log.delivered && s'.input.Idle? && s.input.uuid in s'.cancelled
  {
    var r := s.log.holder[s.input.uuid];
    assert AfterCancelInsert(s).log.reported[|s.log.reported|] == r;
  }

  lemma CancelKeepsHeld(s: State, u: Uuid, t: nat)
    ensures HeldBy(AfterCancelInsert(s), u, t) <==> HeldBy(s, u, t)
  {
  }

  lemma HeldInRange(s: State, u: Uuid, t: nat)
    requires HeldBy(s, u, t)
    ensures t < |s.log.accepted|
  {
  }

  lemma FirstIsReported(s: State, u: Uuid, t: nat)
    requires Inv(s) && u in s.cancelled && FirstOf(s, u, t)
    ensures t in s.log.reported
  {
    hide LaneInv, UuidsTracked, Open, FirstOf;
    FirstIsOpen(s, u, t);
    assert Marked(s, t);
  }

  /** Sending in front of a message that was reported can deliver it. */
  lemma {:induction false} SendOutOfOrder(s: State, u: Uuid, t: nat) returns (steps: seq<Step>)
    requires Inv(s) && s.input.Sending? && s.input.user == Some(u) && u in s.cancelled
    requires Open(s, t) && HeldBy(s, u, t) && t in s.log.reported && !SentBehind(s, t, s.input.lane)
    ensures OrderlyPath(AfterSend(s), steps) && t in End(AfterSend(s), steps).log.delivered && t in End(AfterSend(s), steps).log.reported
  {
    hide LaneInv, OneFate, UuidsTracked, Open, Sure, AfterSend, SentBehind;
    var s', sent := AfterSend(s), |s.log.accepted|;
    SendAdds(s, t);
    SendAdds(s, sent);
    BehindIsSure(s, t);
    StepKeepsLanes(s, Send);
    steps := NotFirstIsDelivered(s', u, t, sent);
  }

  /** Both conditions are exact: a step meets its condition if and only if, however the two threads
      go on in order, no message that was reported cancelled is ever delivered. */
  lemma {:induction false} OrderlyExactly(s: State, step: Step)
    requires Inv(s) && Enabled(s, step)
    ensures Orderly(s, step) <==> forall steps :: OrderlyPath(After(s, step), steps) ==> Clear(End(After(s, step), steps))
  {
    hide LaneInv, UuidsTracked, Open;
    if Orderly(s, step) {
      hide Orderly, After;
      OrderlyStepKeepsInv(s, step);
      forall steps | OrderlyPath(After(s, step), steps) ensures Clear(End(After(s, step), steps)) {
        OrderlyPathKeepsInv(After(s, step), steps);
      }
    } else if step.Send? {
      var s' := After(s, step);
      hide AfterSend;
      var u := s.input.user.value;
      var t: nat :| Open(s, t) && HeldBy(s, u, t) && t in s.log.reported && !SentBehind(s, t, s.input.lane);
      var steps := SendOutOfOrder(s, u, t);
      assert OrderlyPath(s', steps) && !Clear(End(s', steps));
    } else {
      assert step.CancelInsert?;
      var s' := After(s, step);
      hide Orderly, AfterCancelInsert;
      var steps := CancelOutOfOrder(s);
      assert OrderlyPath(s', steps) && !Clear(End(s', steps));
    }
  }

  lemma {:induction false} PathKeepsReports(s: State, steps: seq<Step>, t: nat)
    requires t in s.log.reported
    ensures t in End(s, steps).log.reported
    decreases |steps|
  {
    hide After;
    if steps != [] {
      ReportsStay(s, steps[0], t);
      PathKeepsReports(After(s, steps[0]), steps[1..], t);
    }
  }

  /** A message is reported cancelled and can be delivered all the same exactly if the second half
      of its cancellation comes out of order. */
  lemma {:induction false} CancellationFailsExactly(s: State)
    requires Inv(s) && s.input.Cancelling?
    ensures s.input.uuid in s.log.holder && s.log.holder[s.input.uuid] in AfterCancelInsert(s).log.reported
    ensures (exists steps :: OrderlyPath(AfterCancelInsert(s), steps)
                             && s.log.holder[s.input.uuid] in End(AfterCancelInsert(s), steps).log.delivered)
            <==> !Orderly(s, CancelInsert)
  {
    hide LaneInv, OneFate, Open, AfterCancelInsert, QueuedOk, CancelledOk;
    CancelReports(s);
    var s', r := AfterCancelInsert(s), s.log.holder[s.input.uuid];
    if Orderly(s, CancelInsert) {
      hide Orderly;
      OrderlyStepKeepsInv(s, CancelInsert);
      forall steps | OrderlyPath(s', steps) ensures r !in End(s', steps).log.delivered {
        ReportedStaysUndelivered(s', steps, r);
      }
    } else {
      var steps := CancelOutOfOrder(s);
    }
  }

  /** For a message that is still to be dealt with: its cancellation fails exactly if its UUID is
      marked already, or if another message of its UUID may be dealt with before it. */
  lemma {:induction false} SecondCancellationFails(s: State)
    requires Inv(s) && s.input.Cancelling? && s.input.uuid in s.log.holder && Open(s, s.log.holder[s.input.uuid])
    ensures var u, r := s.input.uuid, s.log.holder[s.input.uuid];
            (exists steps :: OrderlyPath(AfterCancelInsert(s), steps) && r in End(AfterCancelInsert(s), steps).log.delivered)
            <==> u in s.cancelled || exists other: nat :: Open(s, other) && HeldBy(s, u, other) && other != r && !Sure(s, r, other)
  {
    hide LaneInv, OneFate, Open, AfterCancelInsert, QueuedOk, CancelledOk, Sure;
    CancellationFailsExactly(s);
    assert HeldBy(s, s.input.uuid, s.log.holder[s.input.uuid]);
  }

  lemma {:induction false} ReportedStaysUndelivered(s: State, steps: seq<Step>, r: nat)
    requires Inv(s) && OrderlyPath(s, steps) && r in s.log.reported
    ensures r !in End(s, steps).log.delivered
  {
    OrderlyPathKeepsInv(s, steps);
    PathKeepsReports(s, steps, r);
    hide LaneInv, UuidsTracked, Open, Marked;
  }

  /** Sending under a marked UUID lets its reported message be delivered exactly if the new message
      is not sure to come after it. */
  lemma {:induction false} ResubmissionRevives(s: State, u: Uuid, r: nat)
    requires Inv(s) && s.input.Sending? && s.input.user == Some(u) && u in s.cancelled
    requires Open(s, r) && HeldBy(s, u, r) && r in s.log.reported
    ensures (exists steps :: OrderlyPath(AfterSend(s), steps) && r in End(AfterSend(s), steps).log.delivered)
            <==> !SentBehind(s, r, s.input.lane)
  {
    hide LaneInv, UuidsTracked, Open, AfterSend, SentBehind;
    if SentBehind(s, r, s.input.lane) {
      forall t: nat | Open(s, t) && HeldBy(s, u, t) && t in s.log.reported ensures t == r {
        OneReported(s, u, r, t);
      }
      assert Orderly(s, Send);
      hide Orderly;
      OrderlyStepKeepsInv(s, Send);
      SendAdds(s, r);
      forall steps | OrderlyPath(AfterSend(s), steps) ensures r !in End(AfterSend(s), steps).log.delivered {
        ReportedStaysUndelivered(AfterSend(s), steps, r);
      }
    } else {
      var steps := SendOutOfOrder(s, u, r);
    }
  }

  /** Of the open messages of a UUID at most one was reported. */
  lemma {:induction false} OneReported(s: State, u: Uuid, a: nat, b: nat)
    requires Inv(s) && Open(s, a) && HeldBy(s, u, a) && a in s.log.reported
    requires Open(s, b) && HeldBy(s, u, b) && b in s.log.reported
    ensures a == b && u in s.cancelled
  {
    hide LaneInv, UuidsTracked, Open, Sure;
    assert Marked(s, a) && Marked(s, b);
    FirstIsUnique(s, u, a, b);
  }

  /** While the consumer has a message of a UUID, the second half of a cancellation of that UUID is
      harmless exactly if this is the message being cancelled. */
  lemma {:induction false} InFlightCancellation(s: State)
    requires Inv(s) && s.input.Cancelling? && !s.consumer.Polling? && s.consumer.message.user == Some(s.input.uuid)
    ensures s.input.uuid in s.log.holder
    ensures (forall steps :: OrderlyPath(AfterCancelInsert(s), steps) ==> Clear(End(AfterCancelInsert(s), steps)))
            <==> s.log.holder[s.input.uuid] == s.consumer.message.ticket
  {
    hide LaneInv, Open, AfterCancelInsert, QueuedOk, CancelledOk, Marked, HeldBy, FirstOf, OrderlyPath, Clear;
    var u, m := s.input.uuid, s.consumer.message;
    assert CancellingOk(s, u);
    OrderlyExactly(s, CancelInsert);
    assert After(s, CancelInsert) == AfterCancelInsert(s);
    FlightIsFirst(s);
    FlightIsReported(s);
    if Orderly(s, CancelInsert) { FirstIsUnique(s, u, m.ticket, s.log.holder[u]); }
  }

  /** If the consumer deals with a message between the two halves of a cancellation, a message is at
      once both delivered and reported exactly if it was the one being cancelled, or if that one had
      been delivered between the halves before. */
  lemma {:induction false} CancellationWindow(s: State)
    requires Inv(s) && s.input.Cancelling? && s.consumer.Unqueued?
    ensures s.input.uuid in s.log.holder
    ensures Clear(AfterCancelInsert(AfterCheck(s))) <==>
            s.log.holder[s.input.uuid] != s.consumer.message.ticket && s.log.holder[s.input.uuid] !in s.log.delivered
  {
    hide LaneInv, Open, CancelledOk, QueuedOk, Marked, FirstOf, AfterCancelInsert, OneFate;
    var u, m := s.input.uuid, s.consumer.message;
    var s1, r := AfterCheck(s), s.log.holder[s.input.uuid];
    ClearOfInv(s);
    FlightIsReported(s);
    CancelReports(s1);
    if r == m.ticket { assert s1.log.delivered[|s.log.delivered|] == r; }
  }

  lemma ClearOfInv(s: State)
    requires Inv(s)
    ensures Clear(s)
  {
    hide LaneInv, UuidsTracked, Open, Marked;
  }

  lemma FlightIsReported(s: State)
    requires Inv(s) && !s.consumer.Polling?
    ensures var m := s.consumer.message; m.ticket in s.log.reported <==> m.user.Some? && m.user.value in s.cancelled
  {
    hide LaneInv, UuidsTracked, Open, Marked;
    FlightIsAccepted(s);
    FlightMarked(s);
  }
}
