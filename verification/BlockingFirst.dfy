/** The `First` strategy of the blocking resolver: one provider after the other, each on a channel of its own. */
module BlockingFirst {
  import opened Types
  import opened Tally
  import opened Workers
  import opened WorkerRuns
  import opened Progress
  import opened Conservation
  import opened BlockingWorld
  import opened BlockingSlots

  /** Slots before `next` are settled in order of configuration, the others were not tried. */
  ghost predicate Trying(s: State, next: nat) {
    && |s.workers| == |s.providers| && next <= |s.workers|
    && (forall id: nat | id < |s.workers| :: s.workers[id].Idle? <==> next <= id)
    && s.pending == map[] && |s.settled| == next
    && forall i | 0 <= i < next :: s.settled[i].id == i
  }

  /** Slot `id` alone is pending, on a channel of its own. */
  ghost predicate Waiting(s: State, id: nat, chan: nat) {
    Launching(s, id, chan) && !s.channels[chan].callerSends
  }

  /** The same before the resolver has given up its own sender. */
  ghost predicate Launching(s: State, id: nat, chan: nat) {
    && id < |s.workers| == |s.providers|
    && (forall other: nat | other < |s.workers| :: s.workers[other].Idle? <==> id < other)
    && s.pending == map[id := s.providers[id].name] && |s.settled| == id
    && (forall i | 0 <= i < id :: s.settled[i].id == i)
    && WorksOn(s, id, chan) && s.channels[chan].open
  }

  lemma StillTrying(s: State, mid: State, next: nat)
    requires Trying(s, next) && Quiet(s, mid)
    ensures Trying(mid, next)
  {
    forall id: nat | id < |mid.workers| ensures mid.workers[id].Idle? <==> next <= id {
      QuietKeepsTried(s, mid, id);
    }
  }

  lemma StillWaiting(s: State, mid: State, id: nat, chan: nat)
    requires Launching(s, id, chan) && Quiet(s, mid)
    ensures Launching(mid, id, chan) && (Waiting(s, id, chan) ==> Waiting(mid, id, chan))
  {
    assert SameWork(s.workers[id], mid.workers[id], s.now);
    forall other: nat | other < |mid.workers| ensures mid.workers[other].Idle? <==> id < other {
      QuietKeepsTried(s, mid, other);
    }
  }

  // ---------------------------------------------------------------------------
  // Waiting for a slot
  // ---------------------------------------------------------------------------

  /**
   * Wait `w`, with no sender left but the worker's own, is what the slot's
   * outcome rests on: it brought the worker's own message, or it lasted for all
   * of the timeout and the worker had sent nothing by then, or it ended early
   * because the worker had died.
   */
  ghost predicate Awaited(s: State, t: Settled, w: Wait, timeout: nat) {
    && IsHeardOn(s, t.id, w.chan) && w.requested == timeout && w.until <= s.now
    && match w.received
       case Got(m) => Told(s, t) && s.workers[t.id].message == m
       case TimedOut =>
         && t.outcome == Failure(ProviderError(s.providers[t.id].name, "timeout"))
         && w.until == w.from + timeout && Unsent(s, t.id, w.until)
       case Disconnected =>
         && t.outcome == Failure(ProviderError(s.providers[t.id].name, "provider worker disconnected"))
         && s.workers[t.id].Died?
  }

  /** The slot's worker was started on this channel, and the caller has no sender of it. */
  ghost predicate IsHeardOn(s: State, id: nat, chan: nat) {
    id < |s.providers| == |s.workers| && WorksOn(s, id, chan) && !s.channels[chan].callerSends
  }

  /**
   * Without any time the slot was passed over. Otherwise its thread was asked
   * for, and if the operating system did not refuse it, waited for.
   */
  ghost predicate Tended(s: State, t: Settled, a: Attempt, waits: seq<Wait>, timeout: nat) {
    a.id == t.id && (Refused(s, t) || exists w <- waits :: IsWaitFor(a, w) && Awaited(s, t, w, timeout))
  }

  /** The wait was for the thread that was asked for. */
  ghost predicate IsWaitFor(a: Attempt, w: Wait) {
    w.chan == a.chan && a.at <= w.from
  }

  /** The slot was passed over without asking for a thread. */
  ghost predicate PassedOver(s: State, t: Settled) {
    && t.id < |s.workers| == |s.providers| && s.workers[t.id].Skipped?
    && t.outcome == Failure(ProviderError(s.providers[t.id].name, "timeout"))
  }

  ghost predicate AllTended(s: State, spawns: seq<Attempt>, waits: seq<Wait>, timeout: nat) {
    if timeout == 0 then spawns == [] && waits == [] && forall t <- s.settled :: PassedOver(s, t)
    else
      && |spawns| == |s.settled|
      && forall i | 0 <= i < |spawns| :: Tended(s, s.settled[i], spawns[i], waits, timeout)
  }

  lemma AwaitedStays(a: State, b: State, t: Settled, w: Wait, timeout: nat)
    requires Onward(a, b) && Awaited(a, t, w, timeout)
    ensures Awaited(b, t, w, timeout)
  {
    assert LaterWork(a.workers[t.id], b.workers[t.id], a.now);
    assert LaterChannel(a.channels[w.chan], b.channels[w.chan]);
    match w.received {
      case Got(_) => HeardStays(a, b, t);
      case TimedOut => UnsentStays(a, b, t.id, w.until);
      case Disconnected =>
    }
  }

  lemma TendedStays(
      a: State, b: State, t: Settled, attempt: Attempt, before: seq<Wait>, after: seq<Wait>, timeout: nat)
    requires Onward(a, b) && Tended(a, t, attempt, before, timeout) && before <= after
    ensures Tended(b, t, attempt, after, timeout)
  {
    if w :| w in before && IsWaitFor(attempt, w) && Awaited(a, t, w, timeout) {
      AwaitedStays(a, b, t, w, timeout);
      assert w in after;
    } else {
      assert LaterWork(a.workers[t.id], b.workers[t.id], a.now);
    }
  }

  lemma OneMoreTended(
      a: State, b: State, t: Settled, spawns: seq<Attempt>, attempt: Attempt,
      before: seq<Wait>, after: seq<Wait>, timeout: nat)
    requires Onward(a, b) && AllTended(a, spawns, before, timeout) && before <= after && timeout > 0
    requires b.settled == a.settled + [t] && Tended(b, t, attempt, after, timeout)
    ensures AllTended(b, spawns + [attempt], after, timeout)
  {
    forall i | 0 <= i < |spawns| + 1 ensures Tended(b, b.settled[i], (spawns + [attempt])[i], after, timeout) {
      if i < |spawns| {
        TendedStays(a, b, a.settled[i], spawns[i], before, after, timeout);
      }
    }
  }

  lemma OneMorePassedOver(a: State, b: State, t: Settled)
    requires Onward(a, b) && AllTended(a, [], [], 0)
    requires b.settled == a.settled + [t] && PassedOver(b, t)
    ensures AllTended(b, [], [], 0)
  {
    forall x <- b.settled ensures PassedOver(b, x) {
      if x in a.settled {
        assert PassedOver(a, x);
        assert LaterWork(a.workers[x.id], b.workers[x.id], a.now);
      }
    }
  }

  // ---------------------------------------------------------------------------
  // One provider
  // ---------------------------------------------------------------------------

  lemma SpawnedOne(s: State, id: nat, chan: nat)
    requires Trying(s, id) && Enabled(s, Spawn(id, chan))
    ensures Launching(Apply(s, Spawn(id, chan)), id, chan)
  {
  }

  /** The worker that was started, or nothing but the slot's error. */
  method StartOne(world: World, id: nat) returns (started: Result<nat, ProviderError>, ghost attempt: Attempt)
    requires world.Valid() && Trying(world.state, id) && id < |world.state.providers|
    modifies world`state, world`trace, world`spawns
    ensures world.Valid() && world.state.providers == old(world.state.providers) && old(world.trace) <= world.trace
    ensures world.spawns == old(world.spawns) + [attempt] && attempt.id == id && attempt.at <= world.state.now
    ensures started.Success? ==> attempt.chan == started.value
    ensures started.Success? ==>
      Waiting(world.state, id, started.value) && world.state.settled == old(world.state.settled)
    ensures started.Failure? ==>
      && Trying(world.state, id + 1)
      && world.state.settled == old(world.state.settled) + [Settled(id, Failure(started.error))]
      && world.state.workers[id] == NotStarted(started.error)
  {
    hide Run, SameWork;
    ghost var before := world.state;
    ghost var mid := world.Act(Open);
    StillTrying(before, mid, id);
    var chan := |world.state.channels| - 1;
    before := world.state;
    var spawned;
    spawned, mid := world.SpawnWorker(id, chan);
    attempt := world.spawns[|world.spawns| - 1];
    StillTrying(before, mid, id);
    if spawned.Failure? {
      return Failure(spawned.error), attempt;
    }
    SpawnedOne(mid, id, chan);
    before := world.state;
    mid := world.Act(DropSender(chan));
    StillWaiting(before, mid, id, chan);
    started := Success(chan);
  }

  /** The message is the slot's own: nobody else's worker has this channel. */
  lemma HeardOne(mid: State, t: State, id: nat, w: Wait, m: Message, timeout: nat)
    requires Waiting(mid, id, w.chan) && Invariant(mid)
    requires Enabled(mid, Receive(w.chan)) && t == Apply(mid, Receive(w.chan))
    requires m == mid.channels[w.chan].log[mid.channels[w.chan].taken]
    requires w.requested == timeout && w.until == t.now && w.received == Got(m)
    ensures Trying(t, id + 1) && t.settled == mid.settled + [Settled(id, Judge(mid.version, m))]
    ensures Awaited(t, Settled(id, Judge(mid.version, m)), w, timeout)
  {
    ReceiveKeeps(mid, w.chan);
    assert LetterOk(mid, w.chan, mid.channels[w.chan].taken);
  }

  /** What a wait without a message says about the slot. */
  function WaitError(received: Received, name: string): ProviderError {
    if received.TimedOut? then TimeoutError(name) else DisconnectedError(name)
  }

  /** Without a message the slot's worker has not sent any, and has died if nobody is left to send. */
  lemma HeardNothing(s: State, id: nat, w: Wait, timeout: nat)
    requires Waiting(s, id, w.chan) && Invariant(s) && s.channels[w.chan].taken >= |s.channels[w.chan].log|
    requires w.requested == timeout && w.until == s.now && !w.received.Got?
    requires w.received.TimedOut? ==> w.until == w.from + timeout
    requires w.received.Disconnected? ==> SendersGone(s, w.chan)
    ensures w.received.Disconnected? ==> s.workers[id].Died?
    ensures Awaited(s, Settled(id, Failure(WaitError(w.received, s.providers[id].name))), w, timeout)
  {
    DrainedIsUnsent(s, id, w.chan);
    if w.received.Disconnected? {
      DisconnectedMeansDied(s, w.chan, id);
    }
  }

  /** The slot times out, and its receiver is dropped. */
  method GiveUpOn(world: World, id: nat, chan: nat)
    requires world.Valid() && Waiting(world.state, id, chan)
    modifies world`state, world`trace
    ensures world.Valid() && Trying(world.state, id + 1) && world.state.providers == old(world.state.providers)
    ensures old(world.trace) <= world.trace
    ensures world.state.settled == old(world.state.settled)
      + [Settled(id, Failure(TimeoutError(world.state.providers[id].name)))]
  {
    ghost var before := world.state;
    ghost var mid := world.Act(Close(chan));
    StillWaiting(before, mid, id, chan);
    before := world.state;
    mid := world.Act(TimeOut(id));
    forall other: nat | other < |mid.workers| ensures mid.workers[other].Idle? <==> id < other {
      QuietKeepsTried(before, mid, other);
    }
  }

  /** The slot's worker is gone without a message. */
  method WriteOff(world: World, id: nat, chan: nat)
    requires world.Valid() && Waiting(world.state, id, chan) && world.state.workers[id].Died?
    modifies world`state, world`trace
    ensures world.Valid() && Trying(world.state, id + 1) && world.state.providers == old(world.state.providers)
    ensures old(world.trace) <= world.trace
    ensures world.state.settled == old(world.state.settled)
      + [Settled(id, Failure(DisconnectedError(world.state.providers[id].name)))]
  {
    ghost var before := world.state;
    ghost var mid := world.Act(Disconnect(id));
    StillWaiting(before, mid, id, chan);
    assert Trying(world.state, id + 1);
    before := world.state;
    mid := world.Act(Close(chan));
    StillTrying(before, mid, id + 1);
  }

  /** What the message is worth, as the resolver works it out. */
  method Assess(version: IpVersion, m: Message) returns (outcome: Outcome)
    ensures outcome == Judge(version, m)
  {
    match m.outcome {
      case Success(ip) =>
        match ValidateIp(m.name, version, ip) {
          case Success(ip) =>
            outcome := Success(ProviderResult(ip, m.name, m.protocol, m.latency));
          case Failure(error) =>
            outcome := Failure(error);
        }
      case Failure(error) =>
        outcome := Failure(error);
    }
  }

  /** The wait for one provider: its message settles its slot. */
  method ReceiveOne(world: World, id: nat, chan: nat, timeout: nat) returns (r: Received)
    requires world.Valid() && Waiting(world.state, id, chan)
    modifies world`state, world`trace, world`waits, world`waited
    ensures world.Valid() && world.state.providers == old(world.state.providers) && old(world.trace) <= world.trace
    ensures |world.waits| == |old(world.waits)| + 1 && world.waits[..|old(world.waits)|] == old(world.waits)
    ensures r.Got? ==>
      var t := Settled(id, Judge(world.state.version, r.message));
      && Trying(world.state, id + 1) && world.state.settled == old(world.state.settled) + [t]
      && Awaited(world.state, t, world.waits[|old(world.waits)|], timeout)
    ensures !r.Got? ==>
      && Waiting(world.state, id, chan) && world.state.settled == old(world.state.settled)
      && (r.Disconnected? ==> world.state.workers[id].Died?)
      && Awaited(world.state, Settled(id, Failure(WaitError(r, world.state.providers[id].name))),
                 world.waits[|old(world.waits)|], timeout)
    ensures IsWaitFor(Attempt(id, chan, old(world.state.now)), world.waits[|old(world.waits)|])
    ensures world.waited - old(world.waited) <= timeout && chan < |world.state.channels|
  {
    ghost var before := world.state;
    ghost var mid;
    r, mid := world.RecvTimeout(chan, timeout);
    StillWaiting(before, mid, id, chan);
    ghost var w := world.waits[|world.waits| - 1];
    match r {
      case Got(m) => HeardOne(mid, world.state, id, w, m, timeout);
      case _ => HeardNothing(mid, id, w, timeout);
    }
  }

  /** Waits for one provider only, and settles its slot by what came of that wait. */
  method AwaitOne(world: World, id: nat, chan: nat, timeout: nat) returns (outcome: Outcome)
    requires world.Valid() && Waiting(world.state, id, chan)
    modifies world`state, world`trace, world`waits, world`waited
    ensures world.Valid() && Trying(world.state, id + 1) && world.state.providers == old(world.state.providers)
    ensures old(world.trace) <= world.trace
    ensures world.state.settled == old(world.state.settled) + [Settled(id, outcome)]
    ensures |world.waits| == |old(world.waits)| + 1 && world.waits[..|old(world.waits)|] == old(world.waits)
    ensures IsWaitFor(Attempt(id, chan, old(world.state.now)), world.waits[|old(world.waits)|])
    ensures Awaited(world.state, Settled(id, outcome), world.waits[|old(world.waits)|], timeout)
    ensures world.waited - old(world.waited) <= timeout
  {
    var received := ReceiveOne(world, id, chan, timeout);
    ghost var waitedFor, trace := world.state, world.trace;
    match received {
      case Got(m) =>
        outcome := Assess(world.state.version, m);
        ghost var mid := world.Act(Close(chan));
        StillTrying(waitedFor, mid, id + 1);
      case TimedOut =>
        GiveUpOn(world, id, chan);
        outcome := Failure(TimeoutError(world.state.providers[id].name));
      case Disconnected =>
        WriteOff(world, id, chan);
        outcome := Failure(DisconnectedError(world.state.providers[id].name));
    }
    world.WentOnward(trace, waitedFor);
    AwaitedStays(waitedFor, world.state, Settled(id, outcome), world.waits[|old(world.waits)|], timeout);
  }

  lemma OneMoreWait(timeout: nat, id: nat, n: nat)
    requires id < n
    ensures timeout * id + timeout == timeout * (id + 1) <= timeout * n
  {
  }

  /**
   * A success at slot `i` means that all earlier slots failed and no later one
   * was tried; a failure lists the error of slot `i` at index `i`.
   */
  ghost predicate FirstOutcome(s: State, r: Result<ProviderResult, Error>) {
    match r
    case Success(pr) =>
      exists i: nat ::
        && i < |s.providers| && Trying(s, i + 1) && s.settled[i] == Settled(i, Success(pr))
        && forall j | 0 <= j < i :: s.settled[j].outcome.Failure?
    case Failure(e) =>
      && e.AllProvidersFailed? && |e.errors| == |s.providers| && Trying(s, |s.providers|)
      && forall i | 0 <= i < |s.providers| :: s.settled[i] == Settled(i, Failure(e.errors[i]))
  }

  /** Tries one provider: the slot's outcome, recorded and accounted for. */
  method TryOne(world: World, id: nat, timeout: nat) returns (outcome: Outcome)
    requires world.Valid() && Trying(world.state, id) && id < |world.state.providers|
    requires AllTended(world.state, world.spawns, world.waits, timeout)
    modifies world`state, world`trace, world`spawns, world`waits, world`waited
    ensures world.Valid() && Trying(world.state, id + 1) && world.state.providers == old(world.state.providers)
    ensures world.state.settled == old(world.state.settled) + [Settled(id, outcome)]
    ensures AllTended(world.state, world.spawns, world.waits, timeout)
    ensures world.waited - old(world.waited) <= timeout
  {
    ghost var before, trace, spawns, waits := world.state, world.trace, world.spawns, world.waits;
    if timeout == 0 {
      ghost var mid := world.Act(Skip(id));
      StillTrying(before, mid, id);
      outcome := Failure(TimeoutError(world.state.providers[id].name));
      world.WentOnward(trace, before);
      OneMorePassedOver(before, world.state, Settled(id, outcome));
      return;
    }
    var started, attempt := StartOne(world, id);
    if started.Success? {
      outcome := AwaitOne(world, id, started.value, timeout);
      assert world.waits[|waits|] in world.waits;
      assert IsWaitFor(attempt, world.waits[|waits|]);
    } else {
      outcome := Failure(started.error);
    }
    world.WentOnward(trace, before);
    OneMoreTended(before, world.state, Settled(id, outcome), spawns, attempt, waits, world.waits, timeout);
  }

  /** No slot is passed over as long as there is any time. */
  lemma TendedIsNotSkipped(s: State, spawns: seq<Attempt>, waits: seq<Wait>, timeout: nat)
    requires Invariant(s) && AllTended(s, spawns, waits, timeout) && timeout > 0
    ensures NoneSkipped(s)
  {
    forall id: nat | id < |s.workers| ensures !s.workers[id].Skipped? {
      assert WorkerOk(s, id);
      if i: nat :| i < |s.settled| && s.settled[i].id == id {
        assert Tended(s, s.settled[i], spawns[i], waits, timeout);
      }
    }
  }

  /** Without any time every provider is listed with a timeout. */
  lemma NoTimeForAny(s: State, spawns: seq<Attempt>, waits: seq<Wait>, r: Result<ProviderResult, Error>)
    requires AllTended(s, spawns, waits, 0) && FirstOutcome(s, r)
    ensures r == Failure(AllProvidersFailed(AllTimeouts(s.providers)))
  {
    forall i | 0 <= i < |s.settled| ensures s.settled[i].outcome == Failure(TimeoutError(s.providers[i].name)) {
      assert PassedOver(s, s.settled[i]);
    }
    if r.Failure? {
      assert r.error.errors == AllTimeouts(s.providers);
    }
  }

  /** Providers are tried one at a time, in order of configuration. */
  method ResolveFirst(world: World, timeout: nat) returns (r: Result<ProviderResult, Error>)
    requires world.Fresh()
    modifies world
    ensures world.Valid()
    ensures FirstOutcome(world.state, r) && AllTended(world.state, world.spawns, world.waits, timeout)
    ensures timeout > 0 ==> NoneSkipped(world.state)
    ensures timeout == 0 ==> r == Failure(AllProvidersFailed(AllTimeouts(world.state.providers)))
    ensures world.waited - old(world.waited) <= timeout * |world.state.providers|
  {
    world.Reached();
    var errors: seq<ProviderError> := [];
    var id := 0;
    while id < |world.state.providers|
      invariant world.Valid() && world.state.providers == world.initial.providers
      invariant Trying(world.state, id) && |errors| == id
      invariant forall i | 0 <= i < id :: world.state.settled[i] == Settled(i, Failure(errors[i]))
      invariant AllTended(world.state, world.spawns, world.waits, timeout)
      invariant world.waited - old(world.waited) <= timeout * id
      decreases |world.initial.providers| - id
    {
      OneMoreWait(timeout, id, |world.state.providers|);
      var outcome := TryOne(world, id, timeout);
      match outcome {
        case Success(result) =>
          assert world.state.settled[id] == Settled(id, outcome);
          FirstIsTended(world, Success(result), timeout);
          return Success(result);
        case Failure(error) =>
          errors := errors + [error];
      }
      id := id + 1;
    }
    r := Failure(AllProvidersFailed(errors));
    FirstIsTended(world, r, timeout);
  }

  lemma FirstIsTended(world: World, r: Result<ProviderResult, Error>, timeout: nat)
    requires world.Valid() && AllTended(world.state, world.spawns, world.waits, timeout) && FirstOutcome(world.state, r)
    ensures timeout > 0 ==> NoneSkipped(world.state)
    ensures timeout == 0 ==> r == Failure(AllProvidersFailed(AllTimeouts(world.state.providers)))
  {
    world.Reached();
    if timeout > 0 {
      TendedIsNotSkipped(world.state, world.spawns, world.waits, timeout);
    } else {
      NoTimeForAny(world.state, world.spawns, world.waits, r);
    }
  }
}
