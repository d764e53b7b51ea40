/** Model of the scheduler's ready queue and of its single dynamic wakeup (src/cron.rs). */
module CronQueue {
  import opened Wrappers
  import opened TextBasics
  import opened CronPrompts

  type DeliveryId = nat

  const MAX_READY_PROMPTS: nat := 64
  const RECURRING_MAX_AGE_MS: int := 7 * 24 * 60 * 60 * 1000
  const MIN_WAKEUP_MS: int := 60 * 1000
  const MAX_WAKEUP_MS: int := 3600 * 1000

  datatype Source = SessionCron | DurableCron(delivery: DeliveryId) | Wakeup(id: string)

  datatype Prompt = Prompt(content: string, source: Source)

  /* ---------- queue contents ---------- */

  ghost function TotalBytes(prompts: seq<Prompt>): nat {
    if prompts == [] then 0 else ByteLen(prompts[0].content) + TotalBytes(prompts[1..])
  }

  lemma {:induction false} TotalBytesConcat(a: seq<Prompt>, b: seq<Prompt>)
    ensures TotalBytes(a + b) == TotalBytes(a) + TotalBytes(b)
  {
    hide ByteLen;
    if a == [] {
      assert a + b == b;
    } else {
      assert (a + b)[1..] == a[1..] + b;
      TotalBytesConcat(a[1..], b);
    }
  }

  /** The prompts that are not wakeups, and those that are, in order. */
  function Scheduled(prompts: seq<Prompt>): seq<Prompt> {
    if prompts == [] then []
    else if prompts[0].source.Wakeup? then Scheduled(prompts[1..])
    else [prompts[0]] + Scheduled(prompts[1..])
  }

  function Wakeups(prompts: seq<Prompt>): seq<Prompt> {
    if prompts == [] then []
    else if prompts[0].source.Wakeup? then [prompts[0]] + Wakeups(prompts[1..])
    else Wakeups(prompts[1..])
  }

  function WakeupIds(prompts: seq<Prompt>): set<string> {
    if prompts == [] then {}
    else if prompts[0].source.Wakeup? then {prompts[0].source.id} + WakeupIds(prompts[1..])
    else WakeupIds(prompts[1..])
  }

  lemma {:induction false} WakeupIdsCounted(prompts: seq<Prompt>)
    requires |Wakeups(prompts)| <= 1
    ensures |WakeupIds(prompts)| == |Wakeups(prompts)|
    ensures Wakeups(prompts) == [] ==> WakeupIds(prompts) == {}
  {
    if prompts != [] { WakeupIdsCounted(prompts[1..]); }
  }

  lemma {:induction false} PartsAppend(prompts: seq<Prompt>, p: Prompt)
    ensures Scheduled(prompts + [p]) == Scheduled(prompts) + (if p.source.Wakeup? then [] else [p])
    ensures Wakeups(prompts + [p]) == Wakeups(prompts) + (if p.source.Wakeup? then [p] else [])
    ensures WakeupIds(prompts + [p]) == WakeupIds(prompts) + (if p.source.Wakeup? then {p.source.id} else {})
    ensures TotalBytes(prompts + [p]) == TotalBytes(prompts) + ByteLen(p.content)
  {
    hide ByteLen;
    if prompts == [] {
      assert prompts + [p] == [p] && [p][1..] == [];
    } else {
      assert (prompts + [p])[1..] == prompts[1..] + [p];
      PartsAppend(prompts[1..], p);
    }
  }

  lemma {:induction false} PartsSplit(prompts: seq<Prompt>)
    ensures |Scheduled(prompts)| + |Wakeups(prompts)| == |prompts|
    ensures TotalBytes(Scheduled(prompts)) + TotalBytes(Wakeups(prompts)) == TotalBytes(prompts)
    ensures Wakeups(prompts) == [] ==> Scheduled(prompts) == prompts
    ensures Scheduled(Scheduled(prompts)) == Scheduled(prompts) && Wakeups(Scheduled(prompts)) == []
  {
    hide ByteLen;
    if prompts != [] {
      PartsSplit(prompts[1..]);
      var head, tail := prompts[0], if prompts[0].source.Wakeup? then Wakeups(prompts[1..]) else Scheduled(prompts[1..]);
      assert ([head] + tail)[1..] == tail;
    }
  }

  /* ---------- the queue ---------- */

  /** The room scheduled prompts leave for one wakeup. */
  ghost predicate LeavesRoom(prompts: seq<Prompt>) {
    |Scheduled(prompts)| < MAX_READY_PROMPTS && TotalBytes(Scheduled(prompts)) <= CRON_BYTES
  }

  ghost predicate FitsReservation(p: Prompt) {
    p.source.Wakeup? && ByteLen(p.content) <= RESERVED_BYTES
  }

  class ReadyQueue {
    var prompts: seq<Prompt>
    var bytes: nat

    /** The byte counter is the sum of the prompt lengths. */
    ghost predicate Counted()
      reads this
    {
      bytes == TotalBytes(prompts)
    }

    constructor ()
      ensures Counted() && prompts == []
    {
      prompts, bytes := [], 0;
    }

    predicate CanPushCron(content: string)
      reads this
    {
      |prompts| < MAX_READY_PROMPTS - 1 && bytes + ByteLen(content) <= CRON_BYTES
    }

    predicate CanPushWakeup(content: string)
      reads this
    {
      |prompts| < MAX_READY_PROMPTS && bytes + ByteLen(content) <= MAX_READY_BYTES
    }

    /** Appends a scheduled prompt if that leaves the room reserved for a wakeup. */
    method PushCron(content: string, source: Source) returns (pushed: bool)
      requires Counted() && !source.Wakeup?
      modifies this
      ensures Counted()
      ensures pushed <==> old(|prompts|) < MAX_READY_PROMPTS - 1 && TotalBytes(old(prompts)) + ByteLen(content) <= CRON_BYTES
      ensures prompts == if pushed then old(prompts) + [Prompt(content, source)] else old(prompts)
      ensures old(LeavesRoom(prompts)) ==> LeavesRoom(prompts)
      ensures Wakeups(prompts) == Wakeups(old(prompts))
    {
      hide ByteLen;
      pushed := CanPushCron(content);
      if pushed {
        PartsAppend(prompts, Prompt(content, source));
        PartsSplit(prompts);
        TotalBytesConcat(Scheduled(prompts), [Prompt(content, source)]);
        assert TotalBytes([Prompt(content, source)]) == ByteLen(content);
        bytes := bytes + ByteLen(content);
        prompts := prompts + [Prompt(content, source)];
      }
    }

    method PushWakeup(id: string, content: string) returns (pushed: bool)
      requires Counted()
      modifies this
      ensures Counted()
      ensures pushed <==> old(|prompts|) < MAX_READY_PROMPTS && TotalBytes(old(prompts)) + ByteLen(content) <= MAX_READY_BYTES
      ensures prompts == if pushed then old(prompts) + [Prompt(content, Wakeup(id))] else old(prompts)
      ensures Scheduled(prompts) == Scheduled(old(prompts))
    {
      hide ByteLen;
      pushed := CanPushWakeup(content);
      if pushed {
        PartsAppend(prompts, Prompt(content, Wakeup(id)));
        bytes := bytes + ByteLen(content);
        prompts := prompts + [Prompt(content, Wakeup(id))];
      }
    }

    method Pop() returns (p: Option<Prompt>)
      requires Counted()
      modifies this
      ensures Counted()
      ensures if old(prompts) == [] then p.None? && prompts == [] else p == Some(old(prompts)[0]) && prompts == old(prompts)[1..]
      ensures old(LeavesRoom(prompts)) ==> LeavesRoom(prompts)
    {
      hide ByteLen;
      if prompts == [] {
        return None;
      }
      p := Some(prompts[0]);
      bytes := bytes - ByteLen(prompts[0].content);
      prompts := prompts[1..];
    }

    /** Takes every wakeup out, keeping the rest in order. */
    method RemoveWakeups() returns (removed: set<string>)
      requires Counted()
      modifies this
      ensures Counted() && prompts == Scheduled(old(prompts))
      ensures removed == WakeupIds(old(prompts))
    {
      hide ByteLen, Scheduled, Wakeups, WakeupIds;
      removed := {};
      var retained: seq<Prompt> := [];
      var rest := prompts;
      ghost var done: seq<Prompt> := [];
      PartsOfNone();
      while rest != []
        invariant done + rest == prompts == old(prompts) && retained == Scheduled(done)
        invariant removed == WakeupIds(done)
        invariant bytes == TotalBytes(retained) + TotalBytes(rest)
        decreases |rest|
      {
        var p := rest[0];
        PartsAppend(done, p);
        assert (done + [p]) + rest[1..] == done + rest;
        if p.source.Wakeup? {
          bytes := bytes - ByteLen(p.content);
          removed := removed + {p.source.id};
        } else {
          PartsAppend(retained, p);
          retained := retained + [p];
        }
        done := done + [p];
        rest := rest[1..];
      }
      assert done == prompts;
      prompts := retained;
    }
  }

  lemma PartsOfNone()
    ensures Scheduled([]) == [] && Wakeups([]) == [] && WakeupIds([]) == {}
  {
  }

  /* ---------- the dynamic wakeup ---------- */

  datatype WakeupTask = WakeupTask(id: string, reason: string, prompt: string, createdAt: int, scheduledFor: int)

  datatype WakeupState = WakeupState(
    pending: Option<WakeupTask>,
    chainPrompt: Option<string>,
    chainStartedAt: Option<int>,
    lastScheduledFor: Option<int>,
    agedOut: bool)

  const NO_WAKEUP: WakeupState := WakeupState(None, None, None, None, false)

  datatype WakeupCheckpoint = Checkpoint(state: WakeupState, ready: seq<Prompt>)

  datatype ScheduleError = InvalidReason | InvalidPrompt | InvalidTime | ChainAgedOut

  datatype ScheduleOutcome = Accepted(replaced: nat) | Rejected(error: ScheduleError)

  predicate ValidText(text: string, limit: nat) {
    !IsBlank(text) && ByteLen(text) <= limit && '\0' !in text
  }

  ghost predicate ValidTask(t: WakeupTask) {
    |t.id| == 8 && ValidText(t.reason, MAX_REASON_BYTES) && ValidText(t.prompt, MAX_PROMPT_BYTES)
  }

  /** At most one wakeup across slot and queue, and whichever it is fits the reservation. */
  ghost predicate SingleWakeup(state: WakeupState, wakeups: seq<Prompt>) {
    && |wakeups| + (if state.pending.Some? then 1 else 0) <= 1
    && (state.pending.Some? ==> ValidTask(state.pending.value))
    && (forall i :: 0 <= i < |wakeups| ==> FitsReservation(wakeups[i]))
  }

  /** A checkpoint that can be restored at any later time. */
  ghost predicate Restorable(c: WakeupCheckpoint) {
    SingleWakeup(c.state, c.ready)
  }

  predicate AgedOut(since: int, now: int) { since + RECURRING_MAX_AGE_MS <= now }

  /** The chain of wakeups a request belongs to: a stale chain or another prompt starts anew. */
  function Chained(s: WakeupState, prompt: string, now: int): WakeupState {
    if s.chainStartedAt.None? || (s.lastScheduledFor.Some? && now > s.lastScheduledFor.value + MAX_WAKEUP_MS)
       || s.chainPrompt != Some(prompt)
    then s.(chainPrompt := Some(prompt), chainStartedAt := Some(now), agedOut := false)
    else s
  }

  lemma ChainedKeepsPending(s: WakeupState, prompt: string, now: int)
    ensures Chained(s, prompt, now).pending == s.pending
  {
  }

  /** A chain ends for good seven days after it started. */
  predicate ChainEnded(s: WakeupState, now: int) {
    s.agedOut || (s.chainStartedAt.Some? && AgedOut(s.chainStartedAt.value, now))
  }

  lemma ValidTextIs(text: string, limit: nat)
    ensures ValidText(text, limit) <==> !(IsBlank(text) || ByteLen(text) > limit || '\0' in text)
  {
  }

  lemma ChainIs(s: WakeupState, prompt: string, now: int)
    ensures var anew := s.chainStartedAt.None? || s.chainPrompt != Some(prompt)
                        || (s.lastScheduledFor.Some? && s.lastScheduledFor.value + MAX_WAKEUP_MS < now);
            && Chained(s, prompt, now) == (if anew then s.(chainPrompt := Some(prompt), chainStartedAt := Some(now), agedOut := false) else s)
            && (ChainEnded(Chained(s, prompt, now), now) <==>
                  !anew && (s.agedOut || now - s.chainStartedAt.value >= RECURRING_MAX_AGE_MS))
  {
  }

  class WakeupSlot {
    const ready: ReadyQueue
    var state: WakeupState

    ghost predicate Valid()
      reads this, ready
    {
      ready.Counted() && LeavesRoom(ready.prompts) && SingleWakeup(state, Wakeups(ready.prompts))
    }

    constructor ()
      ensures Valid() && fresh(ready) && ready.prompts == [] && state == NO_WAKEUP
    {
      ready := new ReadyQueue();
      state := NO_WAKEUP;
    }

    /** Replaces the wakeup, wherever the old one is; a chain older than seven days only ends. */
    method Schedule(id: string, reason: string, prompt: string, scheduledFor: int, now: int) returns (r: ScheduleOutcome)
      requires Valid() && |id| == 8
      modifies this, ready
      ensures Valid() && Scheduled(ready.prompts) == Scheduled(old(ready.prompts))
      ensures r == Rejected(InvalidReason) <==> IsBlank(reason) || ByteLen(reason) > MAX_REASON_BYTES || '\0' in reason
      ensures r == Rejected(InvalidPrompt) <==>
                && r != Rejected(InvalidReason) && (IsBlank(prompt) || ByteLen(prompt) > MAX_PROMPT_BYTES || '\0' in prompt)
      ensures r == Rejected(InvalidTime) <==>
                && r != Rejected(InvalidReason) && r != Rejected(InvalidPrompt)
                && (scheduledFor < now + MIN_WAKEUP_MS || scheduledFor > now + MAX_WAKEUP_MS)
      ensures r.Rejected? && r.error != ChainAgedOut ==> state == old(state) && ready.prompts == old(ready.prompts)
      ensures r.Rejected? && r.error == ChainAgedOut ==> state.pending.None? && state.agedOut && Wakeups(ready.prompts) == []
      ensures var s := old(state);
              var anew := s.chainStartedAt.None? || s.chainPrompt != Some(prompt)
                          || (s.lastScheduledFor.Some? && s.lastScheduledFor.value + MAX_WAKEUP_MS < now);
              && (r == Rejected(ChainAgedOut) <==>
                    && r != Rejected(InvalidReason) && r != Rejected(InvalidPrompt) && r != Rejected(InvalidTime)
                    && !anew && (s.agedOut || now - s.chainStartedAt.value >= RECURRING_MAX_AGE_MS))
              && (r.Accepted? ==>
                    state == WakeupState(Some(WakeupTask(id, reason, prompt, now, scheduledFor)), Some(prompt),
                                         if anew then Some(now) else s.chainStartedAt, Some(scheduledFor), false))
      ensures r.Accepted? ==>
                && Wakeups(ready.prompts) == []
                && r.replaced == |Wakeups(old(ready.prompts))| + (if old(state).pending.Some? then 1 else 0)
    {
      hide ValidText, ByteLen, Scheduled, Wakeups, WakeupIds, TotalBytes, Chained, ChainEnded, FitsReservation;
      ValidTextIs(reason, MAX_REASON_BYTES);
      ValidTextIs(prompt, MAX_PROMPT_BYTES);
      ChainIs(state, prompt, now);
      if !ValidText(reason, MAX_REASON_BYTES) {
        return Rejected(InvalidReason);
      }
      if !ValidText(prompt, MAX_PROMPT_BYTES) {
        return Rejected(InvalidPrompt);
      }
      if scheduledFor - now < MIN_WAKEUP_MS || scheduledFor - now > MAX_WAKEUP_MS {
        return Rejected(InvalidTime);
      }
      PartsSplit(ready.prompts);
      WakeupIdsCounted(ready.prompts);
      ChainedKeepsPending(state, prompt, now);
      state := Chained(state, prompt, now);
      if ChainEnded(state, now) {
        var removed := ready.RemoveWakeups();
        state := state.(pending := None, agedOut := true);
        return Rejected(ChainAgedOut);
      }
      var replaced := ready.RemoveWakeups();
      var count := |replaced|;
      if state.pending.Some? {
        replaced := replaced + {state.pending.value.id};
        count := |replaced|;
      }
      state := state.(lastScheduledFor := Some(scheduledFor),
                      pending := Some(WakeupTask(id, reason, prompt, now, scheduledFor)));
      return Accepted(count);
    }

    /** Ends the chain and cancels the wakeup; scheduled prompts stay. */
    method Stop() returns (cancelled: nat)
      requires Valid()
      modifies this, ready
      ensures Valid() && Scheduled(ready.prompts) == Scheduled(old(ready.prompts))
      ensures state == NO_WAKEUP && Wakeups(ready.prompts) == []
      ensures cancelled == |Wakeups(old(ready.prompts))| + (if old(state).pending.Some? then 1 else 0)
    {
      hide ValidText, ByteLen, Scheduled, Wakeups, WakeupIds, TotalBytes, Chained;
      PartsSplit(ready.prompts);
      WakeupIdsCounted(ready.prompts);
      var ids := ready.RemoveWakeups();
      if state.pending.Some? {
        ids := ids + {state.pending.value.id};
      }
      state := NO_WAKEUP;
      cancelled := |ids|;
    }

    method TakeCheckpoint() returns (c: WakeupCheckpoint)
      requires Valid()
      ensures Restorable(c) && c == Checkpoint(state, Wakeups(ready.prompts))
    {
      c := Checkpoint(state, Wakeups(ready.prompts));
    }

    /** Restores a checkpoint, whatever happened to the queue since. It never fails: the
        scheduled prompts always leave the wakeup of a checkpoint its room. */
    method Restore(c: WakeupCheckpoint) returns (ok: bool)
      requires Valid() && Restorable(c)
      modifies this, ready
      ensures Valid() && ok && state == c.state
      ensures Scheduled(ready.prompts) == Scheduled(old(ready.prompts)) && Wakeups(ready.prompts) == c.ready
      ensures ready.prompts == Scheduled(old(ready.prompts)) + c.ready
    {
      hide ValidText, ByteLen, TotalBytes, WakeupIds, Scheduled, Wakeups;
      PartsSplit(ready.prompts);
      var removed := ready.RemoveWakeups();
      ok := true;
      var i := 0;
      assert ready.prompts + [] == ready.prompts && c.ready[..0] == [];
      while i < |c.ready|
        invariant 0 <= i <= |c.ready| && ok && ready.Counted() && state == old(state)
        invariant ready.prompts == Scheduled(old(ready.prompts)) + c.ready[..i]
        invariant Scheduled(ready.prompts) == Scheduled(old(ready.prompts)) && Wakeups(ready.prompts) == c.ready[..i]
      {
        var p := c.ready[i];
        assert FitsReservation(p);
        RoomForWakeup(ready.prompts, p);
        PartsAppend(ready.prompts, p);
        ok := ready.PushWakeup(p.source.id, p.content);
        assert c.ready[..i] + [p] == c.ready[..i + 1];
        assert Scheduled(old(ready.prompts)) + c.ready[..i] + [p] == Scheduled(old(ready.prompts)) + c.ready[..i + 1];
        i := i + 1;
      }
      assert c.ready[..|c.ready|] == c.ready;
      state := c.state;
    }

    /** A due wakeup that has not aged out is always accepted by the queue. */
    method PollDue(now: int)
      requires Valid()
      modifies this, ready
      ensures Valid() && Scheduled(ready.prompts) == Scheduled(old(ready.prompts))
      ensures var due := old(state).pending;
              if due.None? then state == old(state) && ready.prompts == old(ready.prompts)
              else if AgedOut(due.value.createdAt, now) then
                state == old(state).(pending := None, agedOut := true) && ready.prompts == old(ready.prompts)
              else if due.value.scheduledFor > now then state == old(state) && ready.prompts == old(ready.prompts)
              else
                var t := due.value;
                && state == old(state).(pending := None)
                && ready.prompts == old(ready.prompts) + [Prompt(WakeupPrompt(t.id, t.reason, t.prompt), Wakeup(t.id))]
    {
      hide ByteLen, WakeupPrompt, IsBlank, Scheduled, Wakeups, WakeupIds, TotalBytes, AgedOut;
      if state.pending.None? {
        return;
      }
      var t := state.pending.value;
      if AgedOut(t.createdAt, now) {
        state := state.(pending := None, agedOut := true);
        return;
      }
      if t.scheduledFor > now {
        return;
      }
      var content := WakeupPrompt(t.id, t.reason, t.prompt);
      WakeupFitsReservation(t.id, t.reason, t.prompt);
      assert Wakeups(ready.prompts) == [];
      RoomForWakeup(ready.prompts, Prompt(content, Wakeup(t.id)));
      PartsAppend(ready.prompts, Prompt(content, Wakeup(t.id)));
      if !ready.CanPushWakeup(content) {
        return;
      }
      state := state.(pending := None);
      var pushed := ready.PushWakeup(t.id, content);
    }

    /** Scheduled prompts entering and leaving the queue never disturb the wakeup. */
    method Enqueue(content: string, source: Source) returns (pushed: bool)
      requires Valid() && !source.Wakeup?
      modifies ready
      ensures Valid() && pushed == old(ready.CanPushCron(content))
      ensures ready.prompts == if pushed then old(ready.prompts) + [Prompt(content, source)] else old(ready.prompts)
    {
      pushed := ready.PushCron(content, source);
    }

    method Dequeue() returns (p: Option<Prompt>)
      requires Valid()
      modifies ready
      ensures Valid()
      ensures if old(ready.prompts) == [] then p.None? && ready.prompts == []
              else p == Some(old(ready.prompts)[0]) && ready.prompts == old(ready.prompts)[1..]
    {
      hide ByteLen, ValidText;
      p := ready.Pop();
    }
  }

  /** With no wakeup queued, one within the reservation can be pushed. */
  lemma {:induction false} RoomForWakeup(prompts: seq<Prompt>, p: Prompt)
    requires LeavesRoom(prompts) && Wakeups(prompts) == [] && FitsReservation(p)
    ensures |prompts| < MAX_READY_PROMPTS && TotalBytes(prompts) + ByteLen(p.content) <= MAX_READY_BYTES
  {
    hide ByteLen;
    PartsSplit(prompts);
  }
}
