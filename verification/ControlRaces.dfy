/** Runs of the control session's queues (src/control.rs) in which one message is reported cancelled
    and delivered all the same: one for each way of breaking a condition of ControlFates.
 */
module ControlRaces {
  import opened Wrappers
  import opened ControlQueues
  import opened ControlFates

  const NOW: LaneIndex := 2
  const NEXT: LaneIndex := 3

  ghost predicate Reachable(s: State) {
    exists steps, states :: IsRun(steps, states) && states[|steps|] == s
  }

  lemma Begin()
    ensures Reachable(INITIAL)
  {
    assert IsRun([], [INITIAL]);
  }

  lemma {:induction false} Go(s: State, step: Step) returns (s': State)
    requires Reachable(s) && Enabled(s, step)
    ensures s' == After(s, step) && Reachable(s')
  {
    s' := After(s, step);
    var steps, states :| IsRun(steps, states) && states[|steps|] == s;
    hide After, Enabled;
    assert IsRun(steps + [step], states + [s']);
  }

  /** A user message is accepted. */
  lemma Submit(s: State, u: Uuid, lane: LaneIndex) returns (s': State)
    requires Reachable(s) && s.input.Idle? && u !in s.queued && 2 <= lane <= 4 && |s.lanes[lane]| < CAPACITIES[lane]
    ensures Reachable(s')
    ensures var t := |s.log.accepted|;
            s' == s.(lanes := s.lanes[lane := s.lanes[lane] + [Message(t, Some(u))]], queued := s.queued + {u},
                     log := s.log.(accepted := s.log.accepted + [Accepted(Some(u), lane)], holder := s.log.holder[u := t]))
  {
    hide Reachable;
    s' := Go(s, Register(Some(u), lane));
    s' := Go(s', Send);
  }

  /** Its cancellation, both halves. */
  lemma Cancel(s: State, u: Uuid) returns (s': State)
    requires Reachable(s) && s.input.Idle? && u in s.queued && u in s.log.holder
    ensures Reachable(s')
    ensures s' == s.(queued := s.queued - {u}, cancelled := s.cancelled + {u},
                     log := s.log.(reported := s.log.reported + [s.log.holder[u]]))
  {
    hide Reachable;
    s' := Go(s, CancelRemove(u));
    s' := Go(s', CancelInsert);
  }

  /** The consumer passes over empty lanes up to `lane`. */
  lemma {:induction false} Pass(s: State, lane: LaneIndex) returns (s': State)
    requires Reachable(s) && s.consumer.Polling? && s.consumer.lane <= lane
    requires forall l :: s.consumer.lane <= l < lane ==> s.lanes[l] == []
    ensures Reachable(s') && s' == s.(consumer := Polling(lane))
    decreases lane - s.consumer.lane
  {
    hide Reachable;
    s' := s;
    if s.consumer.lane < lane {
      s' := Go(s, Poll);
      s' := Pass(s', lane);
    }
  }

  /** The consumer takes the next message from `lane`, and its UUID is no longer queued. */
  lemma Take(s: State, lane: LaneIndex) returns (s': State)
    requires Reachable(s) && s.consumer.Polling? && s.consumer.lane <= lane && s.lanes[lane] != []
    requires forall l :: s.consumer.lane <= l < lane ==> s.lanes[l] == []
    requires s.lanes[lane][0].user.Some?
    ensures Reachable(s')
    ensures s' == s.(lanes := s.lanes[lane := s.lanes[lane][1..]], queued := s.queued - {s.lanes[lane][0].user.value},
                     consumer := Unqueued(s.lanes[lane][0]))
  {
    hide Reachable;
    s' := Pass(s, lane);
    s' := Go(s', Poll);
    s' := Go(s', Unqueue);
  }

  /** The lanes with only user messages for now and next. */
  function Users(now: seq<Message>, next: seq<Message>): Lanes {
    [[], [], now, next, [], []]
  }

  lemma UsersChange(now: seq<Message>, next: seq<Message>)
    ensures forall x :: Users(now, next)[NOW := x] == Users(x, next)
    ensures forall x :: Users(now, next)[NEXT := x] == Users(now, x)
    ensures INITIAL.lanes == Users([], [])
  {
  }

  /** A message for now, as Submit and Take put it. */
  lemma SubmitNow(s: State, u: Uuid, now: seq<Message>, next: seq<Message>) returns (s': State)
    requires Reachable(s) && s.input.Idle? && u !in s.queued && s.lanes == Users(now, next) && |now| < 16
    ensures Reachable(s')
    ensures var t := |s.log.accepted|;
            s' == s.(lanes := Users(now + [Message(t, Some(u))], next), queued := s.queued + {u},
                     log := s.log.(accepted := s.log.accepted + [Accepted(Some(u), NOW)], holder := s.log.holder[u := t]))
  {
    UsersChange(now, next);
    s' := Submit(s, u, NOW);
  }

  lemma SubmitNext(s: State, u: Uuid, now: seq<Message>, next: seq<Message>) returns (s': State)
    requires Reachable(s) && s.input.Idle? && u !in s.queued && s.lanes == Users(now, next) && |next| < 24
    ensures Reachable(s')
    ensures var t := |s.log.accepted|;
            s' == s.(lanes := Users(now, next + [Message(t, Some(u))]), queued := s.queued + {u},
                     log := s.log.(accepted := s.log.accepted + [Accepted(Some(u), NEXT)], holder := s.log.holder[u := t]))
  {
    UsersChange(now, next);
    s' := Submit(s, u, NEXT);
  }

  lemma TakeNow(s: State, m: Message, now: seq<Message>, next: seq<Message>) returns (s': State)
    requires Reachable(s) && s.consumer.Polling? && s.consumer.lane <= NOW && s.lanes == Users([m] + now, next) && m.user.Some?
    ensures Reachable(s')
    ensures s' == s.(lanes := Users(now, next), queued := s.queued - {m.user.value}, consumer := Unqueued(m))
  {
    UsersChange([m] + now, next);
    s' := Take(s, NOW);
    assert ([m] + now)[1..] == now;
  }

  lemma TakeNext(s: State, m: Message, now: seq<Message>) returns (s': State)
    requires Reachable(s) && s.consumer.Polling? && s.lanes == Users(now, [m]) && m.user.Some?
    requires s.consumer == Polling(NEXT) || (s.consumer == Polling(0) && now == [])
    ensures Reachable(s')
    ensures s' == s.(lanes := Users(now, []), queued := s.queued - {m.user.value}, consumer := Unqueued(m))
  {
    UsersChange(now, [m]);
    s' := Take(s, NEXT);
    assert [m][1..] == [];
  }

  /** A message that the consumer has unqueued, but not yet looked up among the cancelled ones, is
      dropped in place of a newer one with its UUID that is accepted and cancelled meanwhile. That one
      is reported and delivered, and the first message is lost. */
  lemma {:induction false} InFlightIsLost(u: Uuid)
    ensures exists s :: Reachable(s) && |s.log.accepted| == 2 && s.log.reported == [1] && s.log.delivered == [1]
                        && s.consumer == Polling(0) && Total(s.lanes) == 0
  {
    hide Reachable, Users;
    var m0, m1 := Message(0, Some(u)), Message(1, Some(u));
    assert [] + [m0] == [m0] + [] && [] + [m1] == [m1] + [];
    Begin();
    UsersChange([], []);
    var s := SubmitNow(INITIAL, u, [], []);
    s := TakeNow(s, m0, [], []);
    s := SubmitNow(s, u, [], []);
    s := Cancel(s, u);
    s := Go(s, Check);
    s := TakeNow(s, m1, [], []);
    s := Go(s, Check);
    assert s.lanes == Users([], []);
    assert s.log.accepted == [Accepted(Some(u), NOW), Accepted(Some(u), NOW)];
    NothingLeft();
  }

  lemma NothingLeft()
    ensures Total(Users([], [])) == 0
  {
  }

  /** The consumer receives a message between the two halves of its cancellation. */
  lemma {:induction false} ReceivedInTheWindow(u: Uuid)
    ensures exists s :: Reachable(s) && s.log.reported == [0] && s.log.delivered == [0]
  {
    hide Reachable, Users;
    var m0 := Message(0, Some(u));
    assert [] + [m0] == [m0] + [];
    Begin();
    UsersChange([], []);
    var s := SubmitNow(INITIAL, u, [], []);
    s := Go(s, CancelRemove(u));
    s := TakeNow(s, m0, [], []);
    s := Go(s, Check);
    s := Go(s, CancelInsert);
  }

  /** A cancelled UUID is accepted again into a lane that comes first: the new message is dropped in
      place of the cancelled one. */
  lemma {:induction false} ResubmissionRevivesCancelled(u: Uuid)
    ensures exists s :: Reachable(s) && s.log.accepted == [Accepted(Some(u), NEXT), Accepted(Some(u), NOW)]
                        && s.log.reported == [0] && s.log.delivered == [0]
  {
    hide Reachable, Users;
    var m0, m1 := Message(0, Some(u)), Message(1, Some(u));
    assert [] + [m0] == [m0] + [] && [] + [m1] == [m1] + [] && [m0] + [] == [m0];
    Begin();
    UsersChange([], []);
    var s := SubmitNext(INITIAL, u, [], []);
    s := Cancel(s, u);
    s := SubmitNow(s, u, [], [m0]);
    s := TakeNow(s, m1, [], [m0]);
    s := Go(s, Check);
    s := TakeNext(s, m0, []);
    s := Go(s, Check);
    assert s.log.accepted == [Accepted(Some(u), NEXT), Accepted(Some(u), NOW)];
  }

  /** A cancelled UUID is accepted again into a lane that comes later, but the consumer has already
      found the first lane empty in its present pass. */
  lemma {:induction false} PassedLaneRevivesCancelled(u: Uuid)
    ensures exists s :: Reachable(s) && s.log.accepted == [Accepted(Some(u), NOW), Accepted(Some(u), NEXT)]
                        && s.log.reported == [0] && s.log.delivered == [0]
  {
    hide Reachable, Users;
    var m0, m1 := Message(0, Some(u)), Message(1, Some(u));
    assert [] + [m0] == [m0] + [] && [] + [m1] == [m1];
    Begin();
    UsersChange([], []);
    var s := Pass(INITIAL, NEXT);
    s := SubmitNow(s, u, [], []);
    s := Cancel(s, u);
    s := SubmitNext(s, u, [m0] + [], []);
    s := TakeNext(s, m1, [m0] + []);
    s := Go(s, Check);
    s := TakeNow(s, m0, [], []);
    s := Go(s, Check);
    assert s.log.accepted == [Accepted(Some(u), NOW), Accepted(Some(u), NEXT)];
  }

  /** A UUID is cancelled a second time while its first cancelled message waits: two messages are
      reported and one is dropped. */
  lemma {:induction false} TwiceCancelledIsDelivered(u: Uuid)
    ensures exists s :: Reachable(s) && s.log.reported == [0, 1] && s.log.delivered == [1]
  {
    hide Reachable, Users;
    var m0, m1 := Message(0, Some(u)), Message(1, Some(u));
    assert [] + [m0] == [m0] && [m0] + [m1] == [m0, m1] && [m1] + [] == [m1];
    Begin();
    UsersChange([], []);
    var s := SubmitNow(INITIAL, u, [], []);
    s := Cancel(s, u);
    s := SubmitNow(s, u, [m0], []);
    s := Cancel(s, u);
    s := TakeNow(s, m0, [m1], []);
    s := Go(s, Check);
    s := TakeNow(s, m1, [], []);
    s := Go(s, Check);
    assert s.log.reported == [0, 1];
  }
}
