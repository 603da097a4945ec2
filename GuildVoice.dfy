/** Per-guild voice presence (Mute.Moe/Services/Audio/ThreadedGuildVoice.cs).
    The Discord transport, the mixer and the clock are outside the model: the pump loop
    receives, per iteration, whether cancellation was observed at each of its two checks,
    what the mixer reported as playing and what its reads return; transport calls,
    from the connection and the PCM stream opened before the loop to the teardown, are
    recorded as effects, in order. A failure of any of them is one of the exceptions
    that end the loop (`AudioPump.LoopThrew`). A pump records whether its loop ended with an
    exception; its `Task` keeps that exception, so every await of it rethrows. */
module GuildVoice {
  import opened Common

  type byte = b: int | 0 <= b < 256

  datatype VoiceChannel = VoiceChannel(id: nat)

  /** How awaiting a pump's task ended: normally, or by rethrowing the loop's exception. */
  datatype StopOutcome = Completed | Rethrown

  /** `Channel?.Id == channel?.Id`: two absent channels also compare equal. */
  predicate SameChannel(a: Option<VoiceChannel>, b: Option<VoiceChannel>)
  {
    (a.None? && b.None?) || (a.Some? && b.Some? && a.value.id == b.value.id)
  }

  // ---------------------------------------------------------------- copying audio

  /** The chunks `WriteOutput` reads, starting with the `k`-th read of the mixer, while
      `count` bytes remain: it stops when the count is used up or a read returns nothing. */
  function Copy(count: int, read: nat -> seq<byte>, k: nat): seq<seq<byte>>
    decreases if count > 0 then count else 0
  {
    if count <= 0 then []
    else
      var mixed := read(k);
      if |mixed| == 0 then [mixed] else [mixed] + Copy(count - |mixed|, read, k + 1)
  }

  /** The number of bytes in a list of chunks. */
  function Total(w: seq<seq<byte>>): nat
  {
    if w == [] then 0 else |w[0]| + Total(w[1..])
  }

  /** The chunks are the mixer's reads in order, nothing is read once the count is used
      up, and every read but the last returned data. */
  lemma {:induction false} CopyReads(count: int, read: nat -> seq<byte>, k: nat)
    ensures var w := Copy(count, read, k);
      && (w == [] <==> count <= 0)
      && (forall j :: 0 <= j < |w| ==> w[j] == read(k + j))
      && (forall j :: 0 <= j < |w| - 1 ==> |w[j]| > 0)
    decreases if count > 0 then count else 0
  {
    if count > 0 {
      var mixed := read(k);
      if |mixed| > 0 {
        var rest := Copy(count - |mixed|, read, k + 1);
        CopyReads(count - |mixed|, read, k + 1);
        var w := [mixed] + rest;
        forall j | 0 < j < |w|
          ensures w[j] == read(k + j)
        {
          assert w[j] == rest[j - 1];
        }
      }
    }
  }

  /** The copy ends either on a read that came back empty while bytes were still owed, or
      on the read that used the count up; since a read never exceeds the buffer, it then
      overshoots by less than a buffer. */
  lemma {:induction false} CopyEnds(count: int, read: nat -> seq<byte>, k: nat, bufferLength: nat)
    requires forall j :: |read(j)| <= bufferLength
    requires count > 0
    ensures var w := Copy(count, read, k);
      && w != []
      && ((|w[|w| - 1]| == 0 && Total(w) < count) ||
          (Total(w) >= count && Total(w) - |w[|w| - 1]| < count))
      && Total(w) < count + bufferLength
    decreases count
  {
    var mixed := read(k);
    if |mixed| > 0 {
      var rest := Copy(count - |mixed|, read, k + 1);
      var w := [mixed] + rest;
      assert w[1..] == rest;
      if count - |mixed| > 0 {
        CopyEnds(count - |mixed|, read, k + 1, bufferLength);
        assert w[|w| - 1] == rest[|rest| - 1];
      } else {
        assert rest == [];
      }
    }
  }

  /** The total without the last chunk. */
  lemma TotalLast(w: seq<seq<byte>>)
    requires w != []
    ensures Total(w) == Total(w[..|w| - 1]) + |w[|w| - 1]|
    decreases |w|
  {
    if |w| > 1 {
      TotalLast(w[1..]);
      assert w[1..][..|w[1..]| - 1] == w[..|w| - 1][1..];
    }
  }

  /** `WriteOutput`: reads from the mixer into the buffer and writes what was read, until
      the count is used up or a read returns nothing; `k` is the number of earlier reads. */
  method WriteOutput(sampleCount: int, read: nat -> seq<byte>, k: nat) returns (written: seq<seq<byte>>)
    ensures written == Copy(sampleCount, read, k)
  {
    written := [];
    var count := sampleCount;
    var i := k;
    while count > 0
      invariant written + Copy(count, read, i) == Copy(sampleCount, read, k)
      decreases count
    {
      var mixed := read(i);
      count := count - |mixed|;
      written := written + [mixed];
      if |mixed| == 0 {
        return;
      }
      i := i + 1;
    }
  }

  // ---------------------------------------------------------------- the pump loop

  /** A transport call made by a pump: connecting to the channel and opening the PCM
      stream at the channel's bitrate happen once, before the loop. */
  datatype Effect =
    | Connect
    | OpenStream(bitrate: nat)
    | SetSpeaking(speaking: bool)
    | Write(chunk: seq<byte>)
    | StopTransport

  /** How the loop ended: still running when the observations ran out, the early `return`
      after the second cancellation check, or the exit through the `while` condition. */
  datatype Exit = Running | Returned | Finished

  /** One iteration as the loop observes it: cancellation at the loop head, cancellation
      after the wait, the mixer's `IsPlaying`, and the mixer's reads. */
  datatype Observation = Observation(cancelledAtHead: bool, cancelledAfterWait: bool, playing: bool, read: nat -> seq<byte>)

  function Writes(w: seq<seq<byte>>): (r: seq<Effect>)
    ensures |r| == |w| && forall j :: 0 <= j < |r| ==> r[j] == Write(w[j])
  {
    if w == [] then [] else [Write(w[0])] + Writes(w[1..])
  }

  /** The body of one iteration that passed both cancellation checks: the new speaking
      state and the effects. */
  function Iteration(o: Observation, speaking: bool, bufferLength: nat): (seq<Effect>, bool)
  {
    var toggle := if o.playing != speaking then [SetSpeaking(speaking)] else [];
    var copied := if o.playing then Writes(Copy(bufferLength, o.read, 0)) else [];
    (toggle + copied, o.playing)
  }

  /** After an iteration the speaking state is what the mixer reported. The iteration
      reports a change of state first, passing the state held before the change, and then
      only writes, which happen only when the mixer is playing. */
  lemma IterationFacts(o: Observation, speaking: bool, bufferLength: nat)
    ensures var r := Iteration(o, speaking, bufferLength);
      && r.1 == o.playing
      && (|r.0| > 0 && r.0[0].SetSpeaking? <==> o.playing != speaking)
      && (o.playing != speaking ==> r.0[0] == SetSpeaking(speaking))
      && (!o.playing ==> r.0 == [] || r.0 == [SetSpeaking(speaking)])
      && (forall j :: 0 <= j < |r.0| ==> r.0[j] != StopTransport)
      && (forall j :: 0 < j < |r.0| ==> r.0[j].Write?)
  {
  }

  /** The loop over a sequence of observations, from a given speaking state. */
  function Pump(obs: seq<Observation>, speaking: bool, bufferLength: nat): (seq<Effect>, Exit)
    decreases |obs|
  {
    if obs == [] then ([], Running)
    else if obs[0].cancelledAtHead then ([SetSpeaking(false), StopTransport], Finished)
    else if obs[0].cancelledAfterWait then ([], Returned)
    else
      var step := Iteration(obs[0], speaking, bufferLength);
      var rest := Pump(obs[1..], step.1, bufferLength);
      (step.0 + rest.0, rest.1)
  }

  /** The transport is stopped iff the loop finished, and then by its last two calls,
      after speaking is switched off. */
  predicate TearsDownAtEnd(r: (seq<Effect>, Exit))
  {
    && (StopTransport in r.0 <==> r.1 == Finished)
    && (r.1 == Finished ==> |r.0| >= 2 && r.0[|r.0| - 2..] == [SetSpeaking(false), StopTransport])
  }

  /** Effects without a teardown put in front keep the teardown where it was. */
  lemma TearsDownAfterPrefix(a: seq<Effect>, rest: (seq<Effect>, Exit))
    requires StopTransport !in a && TearsDownAtEnd(rest)
    ensures TearsDownAtEnd((a + rest.0, rest.1))
  {
    var all := a + rest.0;
    if rest.1 == Finished {
      assert all[|all| - 2..] == rest.0[|rest.0| - 2..];
    }
  }

  /** The transport is stopped exactly when the loop leaves through its `while` condition,
      and then as the last two calls, after speaking is switched off; the early return
      skips both. */
  lemma {:induction false} TeardownOnlyOnNormalExit(obs: seq<Observation>, speaking: bool, bufferLength: nat)
    ensures TearsDownAtEnd(Pump(obs, speaking, bufferLength))
    decreases |obs|
  {
    if obs != [] && !obs[0].cancelledAtHead && !obs[0].cancelledAfterWait {
      var step := Iteration(obs[0], speaking, bufferLength);
      TeardownOnlyOnNormalExit(obs[1..], step.1, bufferLength);
      IterationFacts(obs[0], speaking, bufferLength);
      assert StopTransport !in step.0;
      TearsDownAfterPrefix(step.0, Pump(obs[1..], step.1, bufferLength));
    }
  }

  /** The loop ends as soon as it observes cancellation, and the speaking state it carries
      into each iteration is what the mixer reported in the previous one. */
  lemma {:induction false} PumpStopsAtCancellation(obs: seq<Observation>, speaking: bool, bufferLength: nat, i: nat)
    requires i < |obs|
    requires obs[i].cancelledAtHead || obs[i].cancelledAfterWait
    requires forall j :: 0 <= j < i ==> !obs[j].cancelledAtHead && !obs[j].cancelledAfterWait
    ensures Pump(obs, speaking, bufferLength).1 == (if obs[i].cancelledAtHead then Finished else Returned)
    ensures Pump(obs, speaking, bufferLength) == Pump(obs[..i + 1], speaking, bufferLength)
    decreases i
  {
    if i > 0 {
      var step := Iteration(obs[0], speaking, bufferLength);
      assert obs[1..][i - 1] == obs[i];
      PumpStopsAtCancellation(obs[1..], step.1, bufferLength, i - 1);
      assert obs[1..][..i] == obs[..i + 1][1..];
    }
  }

  /** How the loop over the observations from `i` on begins. */
  lemma PumpAt(obs: seq<Observation>, i: nat, speaking: bool, bufferLength: nat)
    requires i < |obs|
    ensures obs[i].cancelledAtHead ==> Pump(obs[i..], speaking, bufferLength) == ([SetSpeaking(false), StopTransport], Finished)
    ensures !obs[i].cancelledAtHead && obs[i].cancelledAfterWait ==> Pump(obs[i..], speaking, bufferLength) == ([], Returned)
    ensures !obs[i].cancelledAtHead && !obs[i].cancelledAfterWait ==>
      var step := Iteration(obs[i], speaking, bufferLength);
      var rest := Pump(obs[i + 1..], step.1, bufferLength);
      Pump(obs[i..], speaking, bufferLength) == (step.0 + rest.0, rest.1)
  {
    assert obs[i..][0] == obs[i];
    assert obs[i..][1..] == obs[i + 1..];
  }

  /** What the loop has emitted so far, followed by the loop over the rest, is the whole
      loop. */
  ghost predicate SoFar(effects: seq<Effect>, obs: seq<Observation>, i: nat, speaking: bool, bufferLength: nat,
                        whole: (seq<Effect>, Exit))
    requires i <= |obs|
  {
    var rest := Pump(obs[i..], speaking, bufferLength);
    effects + rest.0 == whole.0 && rest.1 == whole.1
  }

  /** Cancellation seen at the head of iteration `i` ends the loop after the teardown. */
  lemma EndAtHead(effects: seq<Effect>, obs: seq<Observation>, i: nat, speaking: bool, bufferLength: nat,
                  whole: (seq<Effect>, Exit))
    requires i < |obs| && obs[i].cancelledAtHead
    requires SoFar(effects, obs, i, speaking, bufferLength, whole)
    ensures (effects + [SetSpeaking(false), StopTransport], Finished) == whole
  {
    PumpAt(obs, i, speaking, bufferLength);
  }

  /** Cancellation seen after the wait of iteration `i` returns at once. */
  lemma EndAfterWait(effects: seq<Effect>, obs: seq<Observation>, i: nat, speaking: bool, bufferLength: nat,
                     whole: (seq<Effect>, Exit))
    requires i < |obs| && !obs[i].cancelledAtHead && obs[i].cancelledAfterWait
    requires SoFar(effects, obs, i, speaking, bufferLength, whole)
    ensures (effects, Returned) == whole
  {
    PumpAt(obs, i, speaking, bufferLength);
    assert effects + [] == effects;
  }

  /** A full iteration `i` moves its effects into what the loop has emitted. */
  lemma NextIteration(effects: seq<Effect>, obs: seq<Observation>, i: nat, speaking: bool, bufferLength: nat,
                      whole: (seq<Effect>, Exit))
    requires i < |obs| && !obs[i].cancelledAtHead && !obs[i].cancelledAfterWait
    requires SoFar(effects, obs, i, speaking, bufferLength, whole)
    ensures var step := Iteration(obs[i], speaking, bufferLength);
      SoFar(effects + step.0, obs, i + 1, step.1, bufferLength, whole)
  {
    PumpAt(obs, i, speaking, bufferLength);
    var step := Iteration(obs[i], speaking, bufferLength);
    var rest := Pump(obs[i + 1..], step.1, bufferLength);
    assert effects + (step.0 + rest.0) == (effects + step.0) + rest.0;
  }

  /** `AudioPump.ThreadEntry` over a finite run of observations. The copy buffer holds a
      tenth of a second of audio. */
  method ThreadEntry(obs: seq<Observation>, averageBytesPerSecond: nat, bitrate: nat) returns (effects: seq<Effect>, exit: Exit)
    ensures effects == [Connect, OpenStream(bitrate)] + Pump(obs, false, averageBytesPerSecond / 10).0
    ensures exit == Pump(obs, false, averageBytesPerSecond / 10).1
  {
    var bufferLength := averageBytesPerSecond / 10;
    ghost var loop := Pump(obs, false, bufferLength);
    ghost var whole := ([Connect, OpenStream(bitrate)] + loop.0, loop.1);
    var speakingState := false;
    effects := [Connect, OpenStream(bitrate)];
    var i := 0;
    assert obs[0..] == obs;
    while i < |obs|
      invariant 0 <= i <= |obs|
      invariant SoFar(effects, obs, i, speakingState, bufferLength, whole)
    {
      var o := obs[i];
      if o.cancelledAtHead {
        EndAtHead(effects, obs, i, speakingState, bufferLength, whole);
        effects := effects + [SetSpeaking(false), StopTransport];
        return effects, Finished;
      }
      if o.cancelledAfterWait {
        EndAfterWait(effects, obs, i, speakingState, bufferLength, whole);
        return effects, Returned;
      }
      NextIteration(effects, obs, i, speakingState, bufferLength, whole);
      var step;
      step, speakingState := RunIteration(o, speakingState, bufferLength);
      effects := effects + step;
      i := i + 1;
    }
    assert obs[i..] == [];
    assert effects + [] == effects;
    exit := Running;
  }

  /** The body of the loop after both cancellation checks: the speaking state is reported
      (with its old value) and updated when the mixer's state differs, and a buffer's worth
      of audio is copied while speaking. */
  method RunIteration(o: Observation, speaking: bool, bufferLength: nat) returns (step: seq<Effect>, speakingState: bool)
    ensures (step, speakingState) == Iteration(o, speaking, bufferLength)
  {
    speakingState := speaking;
    var playing := o.playing;
    var toggle: seq<Effect> := [];
    if playing != speakingState {
      toggle := [SetSpeaking(speakingState)];
      speakingState := playing;
    }
    var copied: seq<Effect> := [];
    if speakingState {
      var written := WriteOutput(bufferLength, o.read, 0);
      copied := Writes(written);
    }
    step := toggle + copied;
  }

  // ---------------------------------------------------------------- pumps and presence

  class AudioPump {
    const channel: VoiceChannel
    /** The cancellation flag the loop checks. */
    var cancelled: bool
    /** Whether the loop's task ended with an exception. */
    var faulted: bool

    /** A pump starts its loop in the given channel, not cancelled and not faulted. */
    constructor (c: VoiceChannel)
      ensures channel == c && !cancelled && !faulted
    {
      channel := c;
      cancelled := false;
      faulted := false;
    }

    /** The loop throws: its task is faulted from now on. */
    method LoopThrew()
      modifies this
      ensures faulted && cancelled == old(cancelled)
    {
      faulted := true;
    }

    /** `Stop`: requests cancellation, then awaits the loop, rethrowing its exception when
        it ended with one; the `Task` stays faulted, so a later await rethrows again. */
    method Stop() returns (r: StopOutcome)
      modifies this
      ensures cancelled && faulted == old(faulted)
      ensures r.Rethrown? <==> faulted
    {
      cancelled := true;
      r := if faulted then Rethrown else Completed;
    }
  }

  class ThreadedGuildVoice {
    const guildId: nat
    /** The id of the bot's own user. */
    const botId: nat
    var pump: AudioPump?
    /** The mixer's inputs, in the order they were opened. */
    var mixerChannels: seq<nat>
    /** Every pump this object has created. */
    ghost var created: set<AudioPump>

    /** At most one pump is still running: every pump created before the current one has
        been told to stop. */
    ghost predicate Valid()
      reads this, created
    {
      && (pump != null ==> pump in created)
      && forall p :: p in created && p != pump ==> p.cancelled
    }

    /** `Channel`: the current pump's channel, if any. */
    function Channel(): (r: Option<VoiceChannel>)
      reads this
      ensures r.Some? <==> pump != null
    {
      if pump == null then None else Some(pump.channel)
    }

    /** Whether there is a current pump whose loop has thrown. */
    predicate PumpFaulted()
      reads this, pump
    {
      pump != null && pump.faulted
    }

    constructor (guild: nat, bot: nat)
      ensures Valid() && guildId == guild && botId == bot
      ensures pump == null && mixerChannels == [] && created == {}
    {
      guildId := guild;
      botId := bot;
      pump := null;
      mixerChannels := [];
      created := {};
    }

    /** `Move`: nothing happens when the channel id is unchanged. Otherwise the old pump is
        stopped first; if that rethrows, the old pump stays, and so does the channel it
        reports, and a later move rethrows again. Otherwise a new pump is created exactly
        when a channel is given. */
    method Move(c: Option<VoiceChannel>) returns (r: StopOutcome)
      requires Valid()
      modifies this, pump
      ensures Valid()
      ensures mixerChannels == old(mixerChannels)
      ensures SameChannel(old(Channel()), c) ==>
        r == Completed && pump == old(pump) && created == old(created) && (pump != null ==> unchanged(pump))
      ensures !SameChannel(old(Channel()), c) && old(pump) != null ==> old(pump).cancelled && old(pump).faulted == old(PumpFaulted())
      ensures r.Rethrown? <==> !SameChannel(old(Channel()), c) && old(PumpFaulted())
      ensures r.Rethrown? ==> pump == old(pump) && Channel() == old(Channel()) && created == old(created) && PumpFaulted()
      ensures r.Completed? ==> SameChannel(Channel(), c)
      ensures r.Completed? && !SameChannel(old(Channel()), c) ==>
        Channel() == c && (pump != null ==> fresh(pump) && !pump.cancelled && !pump.faulted && created == old(created) + {pump})
    {
      if SameChannel(Channel(), c) {
        return Completed;
      }
      if pump != null {
        r := pump.Stop();
        if r.Rethrown? {
          return;
        }
      }
      r := Completed;
      pump := null;
      if c.Some? {
        pump := new AudioPump(c.value);
        created := created + {pump};
      }
    }

    /** `Stop`: `Move` to no channel. */
    method Stop() returns (r: StopOutcome)
      requires Valid()
      modifies this, pump
      ensures Valid()
      ensures mixerChannels == old(mixerChannels)
      ensures old(pump) == null ==> r == Completed && pump == null && created == old(created)
      ensures old(pump) != null ==> old(pump).cancelled
      ensures r.Rethrown? <==> old(PumpFaulted())
      ensures r.Rethrown? ==> pump == old(pump) && created == old(created) && PumpFaulted()
      ensures r.Completed? ==> pump == null && Channel() == None
    {
      r := Move(None);
    }

    /** `Open`: adds an input to the mixer. */
    method Open(channel: nat)
      modifies this
      ensures mixerChannels == old(mixerChannels) + [channel]
      ensures pump == old(pump) && created == old(created)
    {
      mixerChannels := mixerChannels + [channel];
    }

    /** The voice-state handler leaves only when the bot is in a channel, the event is not
        about the bot itself, the user left the bot's channel and at most one user is
        still in it. `userCount` is the sum `GetUsersAsync` produces. */
    predicate ShouldLeave(userId: nat, before: Option<VoiceChannel>, userCount: nat)
      reads this
    {
      Channel().Some? && userId != botId && before == Channel() && userCount <= 1
    }

    /** `OnUserVoiceStateUpdated`: stops exactly when `ShouldLeave` holds, and otherwise
        changes nothing; the mixer's inputs are never touched. */
    method OnUserVoiceStateUpdated(userId: nat, before: Option<VoiceChannel>, userCount: nat)
      returns (stopped: bool, r: StopOutcome)
      requires Valid()
      modifies this, pump
      ensures Valid()
      ensures mixerChannels == old(mixerChannels)
      ensures stopped <==> old(ShouldLeave(userId, before, userCount))
      ensures !stopped ==> r == Completed && pump == old(pump) && created == old(created)
      ensures !stopped && pump != null ==> unchanged(pump)
      ensures stopped ==> old(pump).cancelled && (r.Rethrown? <==> old(PumpFaulted()))
      ensures stopped && r.Rethrown? ==> pump == old(pump) && created == old(created) && PumpFaulted()
      ensures stopped && r.Completed? ==> pump == null && Channel() == None
    {
      if !ShouldLeave(userId, before, userCount) {
        return false, Completed;
      }
      stopped := true;
      r := Stop();
    }
  }
}
