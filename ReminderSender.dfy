/** The reminder delivery loop (Mute.Moe/Services/Reminders/AsyncReminderSender.cs).
    The reminder store, the clock and the chat client are outside the model: each
    iteration receives the reminder the store returned as the next one, which of the
    three waits finished first, and whether the reminder's channel is a text channel. */
module ReminderSender {
  import opened Common

  datatype Reminder = Reminder(
    id: nat,
    triggerTime: int,
    channelId: nat,
    userId: nat,
    prelude: Option<string>,
    message: string)

  /** The wait that completed first in one iteration. `WaitFaulted` is a wait whose task
      faulted (the timeout wait's `Task.Delay` given a span below -1 ms): awaiting it throws. */
  datatype Wake = Created(reminder: Reminder) | Deleted(id: nat) | TimedOut | WaitFaulted

  /** How delivering a fired reminder went: it completed, or it threw after its first
      `sent` effects (the guild user lookup returning null, a refused send). */
  datatype Delivery = Delivered | Threw(sent: nat)

  /** What one iteration of the loop observes. */
  datatype Iteration = Iteration(fetched: Option<Reminder>, wake: Wake, channelIsText: bool, delivery: Delivery)

  /** The effects of delivering a reminder, in order. */
  datatype Effect =
    | SendPrelude(channelId: nat, text: string)
    | SendEmbed(channelId: nat, reminder: Reminder)
    | LogMissingChannel(channelId: nat)
    | DeleteReminder(id: nat)

  /** The result of running an iteration's action: the new `next`, the effects, and
      whether the action completed (an exception ends the loop through its `catch`). */
  datatype Outcome = Outcome(next: Option<Reminder>, effects: seq<Effect>, ok: bool)

  /** `EventCreatedAction.Run`: the created reminder becomes `next` when there is none or
      it triggers strictly earlier. */
  function OnCreated(next: Option<Reminder>, created: Reminder): (r: Option<Reminder>)
    ensures r.Some?
    ensures r == Some(created) || r == next
    ensures next.None? ==> r == Some(created)
    ensures next.Some? ==> r.value.triggerTime == Min(next.value.triggerTime, created.triggerTime)
    ensures next.Some? && next.value.triggerTime <= created.triggerTime ==> r == next
  {
    if next.None? || created.triggerTime < next.value.triggerTime then Some(created) else next
  }

  function Min(a: int, b: int): int
  {
    if a <= b then a else b
  }

  /** `EventDeletedAction.Run`: `next` is cleared exactly when it has the deleted id. */
  function OnDeleted(next: Option<Reminder>, id: nat): (r: Option<Reminder>)
    ensures r.None? <==> next.None? || next.value.id == id
    ensures r.Some? ==> r == next
  {
    if next.Some? && next.value.id == id then None else next
  }

  /** The delivery attempt of `EventTimeoutAction.Run`: the prelude when it is not blank,
      then the embed, in a text channel; only a log line otherwise. */
  function Attempt(fired: Reminder, channelIsText: bool): (a: seq<Effect>)
    ensures forall i :: 0 <= i < |a| ==> !a[i].DeleteReminder?
    ensures channelIsText ==> |a| >= 1 && a[|a| - 1] == SendEmbed(fired.channelId, fired)
    ensures !channelIsText ==> a == [LogMissingChannel(fired.channelId)]
    ensures SendPrelude(fired.channelId, if fired.prelude.Some? then fired.prelude.value else "") in a <==>
      channelIsText && !IsNullOrWhiteSpace(fired.prelude)
  {
    if !channelIsText then [LogMissingChannel(fired.channelId)]
    else if IsNullOrWhiteSpace(fired.prelude) then [SendEmbed(fired.channelId, fired)]
    else [SendPrelude(fired.channelId, fired.prelude.value), SendEmbed(fired.channelId, fired)]
  }

  /** `EventTimeoutAction.Run`: tries to deliver the fired reminder, then deletes it from
      the store; the `next` it is given is never assigned. A delivery that throws stops
      short of the deletion. The boolean says whether the action completed. */
  function OnTimeout(fired: Reminder, channelIsText: bool, delivery: Delivery): (r: (seq<Effect>, bool))
    ensures r.1 <==> delivery.Delivered?
    ensures delivery.Delivered? ==>
      |r.0| >= 1 && r.0[|r.0| - 1] == DeleteReminder(fired.id) && r.0[..|r.0| - 1] == Attempt(fired, channelIsText)
    ensures delivery.Threw? ==> r.0 <= Attempt(fired, channelIsText) && |r.0| <= delivery.sent
  {
    var a := Attempt(fired, channelIsText);
    match delivery
    case Delivered => (a + [DeleteReminder(fired.id)], true)
    case Threw(sent) => (if sent < |a| then a[..sent] else a, false)
  }

  /** Running the action of one iteration. A timeout only completes when the fetched
      `next` exists; a faulted wait runs no action and ends the loop. */
  function RunAction(it: Iteration): (r: Outcome)
    requires it.wake.TimedOut? ==> it.fetched.Some?
    ensures (it.wake.Created? || it.wake.Deleted?) ==> r.effects == [] && r.ok
    ensures it.wake.WaitFaulted? ==> r.effects == [] && !r.ok
    ensures it.wake.TimedOut? ==> r.next == it.fetched && (r.ok <==> it.delivery.Delivered?)
  {
    match it.wake
    case Created(rem) => Outcome(OnCreated(it.fetched, rem), [], true)
    case Deleted(id) => Outcome(OnDeleted(it.fetched, id), [], true)
    case TimedOut =>
      var t := OnTimeout(it.fetched.value, it.channelIsText, it.delivery);
      Outcome(it.fetched, t.0, t.1)
    case WaitFaulted => Outcome(it.fetched, [], false)
  }

  /** The schedule of the waits: a timeout never wins without a fetched reminder, since
      that wait ends only through cancellation. */
  predicate Feasible(schedule: seq<Iteration>)
  {
    forall i :: 0 <= i < |schedule| ==> schedule[i].wake.TimedOut? ==> schedule[i].fetched.Some?
  }

  /** An iteration whose action throws: a faulted wait, or a delivery that threw. */
  predicate Faults(it: Iteration)
  {
    it.wake.WaitFaulted? || (it.wake.TimedOut? && it.delivery.Threw?)
  }

  /** No iteration of the schedule throws. */
  predicate Alive(schedule: seq<Iteration>)
  {
    forall i :: 0 <= i < |schedule| ==> !Faults(schedule[i])
  }

  /** The loop over a schedule: the effects, and whether it is still running. After an
      action throws, the loop has ended and later iterations never happen. */
  function Run(schedule: seq<Iteration>): (seq<Effect>, bool)
    requires Feasible(schedule)
  {
    if schedule == [] then ([], true)
    else
      var before := Run(schedule[..|schedule| - 1]);
      if !before.1 then before
      else
        var o := RunAction(schedule[|schedule| - 1]);
        (before.0 + o.effects, o.ok)
  }

  /** The number of reminders delivered: timeouts that completed before the loop ended. */
  function Timeouts(schedule: seq<Iteration>): nat
  {
    if schedule == [] then 0
    else
      var init := schedule[..|schedule| - 1];
      var last := schedule[|schedule| - 1];
      Timeouts(init) + (if Alive(init) && last.wake.TimedOut? && last.delivery.Delivered? then 1 else 0)
  }

  function Deletions(effects: seq<Effect>): nat
  {
    if effects == [] then 0
    else Deletions(effects[..|effects| - 1]) + (if effects[|effects| - 1].DeleteReminder? then 1 else 0)
  }

  lemma {:induction false} DeletionsAppend(a: seq<Effect>, b: seq<Effect>)
    ensures Deletions(a + b) == Deletions(a) + Deletions(b)
    decreases |b|
  {
    if b == [] {
      assert a + b == a;
    } else {
      assert (a + b)[..|a + b| - 1] == a + b[..|b| - 1];
      DeletionsAppend(a, b[..|b| - 1]);
    }
  }

  lemma {:induction false} DeletionsNone(e: seq<Effect>, k: nat)
    requires k <= |e|
    requires forall i :: 0 <= i < |e| ==> !e[i].DeleteReminder?
    ensures Deletions(e[..k]) == 0
  {
    if k > 0 {
      assert e[..k][..k - 1] == e[..k - 1];
      DeletionsNone(e, k - 1);
    }
  }

  /** A completed timeout deletes exactly one reminder; one whose delivery threw deletes
      none. */
  lemma TimeoutDeletes(fired: Reminder, channelIsText: bool, delivery: Delivery)
    ensures Deletions(OnTimeout(fired, channelIsText, delivery).0) == if delivery.Delivered? then 1 else 0
  {
    var a := Attempt(fired, channelIsText);
    if delivery.Delivered? {
      DeliveredDeletesOnce(a, fired.id);
    } else {
      var e := OnTimeout(fired, channelIsText, delivery).0;
      DeletionsNone(a, |e|);
      assert a[..|e|] == e;
    }
  }

  /** An attempt without deletions, followed by one deletion, deletes once. */
  lemma DeliveredDeletesOnce(a: seq<Effect>, id: nat)
    requires forall i :: 0 <= i < |a| ==> !a[i].DeleteReminder?
    ensures Deletions(a + [DeleteReminder(id)]) == 1
  {
    DeletionsNone(a, |a|);
    assert a[..|a|] == a;
    DeletionsAppend(a, [DeleteReminder(id)]);
    assert [DeleteReminder(id)][..0] == [];
  }

  /** The loop keeps running exactly as long as no action has thrown. */
  lemma {:induction false} RunAlive(schedule: seq<Iteration>)
    requires Feasible(schedule)
    ensures Run(schedule).1 <==> Alive(schedule)
  {
    if schedule != [] {
      var init := schedule[..|schedule| - 1];
      RunAlive(init);
      assert forall i :: 0 <= i < |init| ==> init[i] == schedule[i];
    }
  }

  /** Once an action has thrown, later iterations change nothing: the loop is over. */
  lemma {:induction false} LoopEndsAtFault(s: seq<Iteration>, t: seq<Iteration>)
    requires Feasible(s) && Feasible(t) && !Run(s).1
    ensures Feasible(s + t) && Run(s + t) == Run(s)
    decreases |t|
  {
    if t != [] {
      assert (s + t)[..|s + t| - 1] == s + t[..|t| - 1];
      LoopEndsAtFault(s, t[..|t| - 1]);
    } else {
      assert s + t == s;
    }
  }

  /** The loop deletes exactly one reminder per delivered timeout, and none for a timeout
      whose delivery threw. */
  lemma {:induction false} DeletionsMatchTimeouts(schedule: seq<Iteration>)
    requires Feasible(schedule)
    ensures Deletions(Run(schedule).0) == Timeouts(schedule)
  {
    if schedule != [] {
      var init := schedule[..|schedule| - 1];
      var last := schedule[|schedule| - 1];
      DeletionsMatchTimeouts(init);
      RunAlive(init);
      if Run(init).1 {
        DeletionsAppend(Run(init).0, RunAction(last).effects);
        if last.wake.TimedOut? {
          TimeoutDeletes(last.fetched.value, last.channelIsText, last.delivery);
        }
      }
    }
  }

  /** One more iteration of a loop that is still running. */
  lemma RunStep(schedule: seq<Iteration>, i: nat)
    requires Feasible(schedule) && i < |schedule| && Run(schedule[..i]).1
    ensures Feasible(schedule[..i]) && Feasible(schedule[..i + 1])
    ensures Run(schedule[..i + 1]) ==
      (Run(schedule[..i]).0 + RunAction(schedule[i]).effects, RunAction(schedule[i]).ok)
  {
    assert schedule[..i + 1][..i] == schedule[..i];
  }

  /** The loop over the whole schedule ends where the iteration `i` throws. */
  lemma StopsAt(schedule: seq<Iteration>, i: nat)
    requires Feasible(schedule) && i < |schedule| && !Run(schedule[..i + 1]).1
    ensures Run(schedule) == Run(schedule[..i + 1]) && !Alive(schedule)
    ensures Deletions(Run(schedule).0) == Timeouts(schedule)
  {
    var t := schedule[i + 1..];
    assert forall k :: 0 <= k < |t| ==> t[k] == schedule[i + 1 + k];
    LoopEndsAtFault(schedule[..i + 1], t);
    assert schedule[..i + 1] + t == schedule;
    RunAlive(schedule);
    DeletionsMatchTimeouts(schedule);
  }

  /** `ThreadEntry`: every iteration fetches a fresh `next`, runs exactly the action of
      the wait that finished first and cancels the others; the first action that throws
      ends the loop in its `catch`. The `next` the action computes is overwritten by the
      fetch of the following iteration. */
  method ThreadEntry(schedule: seq<Iteration>) returns (effects: seq<Effect>, running: bool, lastNext: Option<Reminder>)
    requires Feasible(schedule)
    ensures (effects, running) == Run(schedule)
    ensures running <==> Alive(schedule)
    ensures running && schedule != [] ==> lastNext == RunAction(schedule[|schedule| - 1]).next
    ensures Deletions(effects) == Timeouts(schedule)
  {
    effects := [];
    running := true;
    lastNext := None;
    var i := 0;
    while i < |schedule|
      invariant 0 <= i <= |schedule|
      invariant (effects, true) == Run(schedule[..i])
      invariant i > 0 ==> lastNext == RunAction(schedule[i - 1]).next
    {
      RunStep(schedule, i);
      var next := schedule[i].fetched;
      var step := RunAction(schedule[i]);
      next := step.next;
      effects := effects + step.effects;
      lastNext := next;
      if !step.ok {
        running := false;
        StopsAt(schedule, i);
        return;
      }
      i := i + 1;
    }
    assert schedule[..i] == schedule;
    RunAlive(schedule);
    DeletionsMatchTimeouts(schedule);
  }
}
