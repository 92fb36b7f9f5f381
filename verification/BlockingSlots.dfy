/** What the race and the consensus of the blocking resolver share: starting the workers, receiving, timing out. */
module BlockingSlots {
  import opened Types
  import opened Tally
  import opened Workers
  import opened WorkerRuns
  import opened Progress
  import opened Conservation
  import opened BlockingWorld

  // ---------------------------------------------------------------------------
  // What a strategy has recorded
  // ---------------------------------------------------------------------------

  ghost function Errors(s: State): seq<ProviderError> {
    Failures(Outcomes(s.settled))
  }

  ghost function Results(s: State): seq<ProviderResult> {
    Successes(Outcomes(s.settled))
  }

  ghost predicate AllTried(s: State) {
    forall id: nat | id < |s.workers| :: !s.workers[id].Idle?
  }

  /** The timeout errors of all providers, in order of configuration. */
  function AllTimeouts(providers: seq<Provider>): seq<ProviderError> {
    seq(|providers|, i requires 0 <= i < |providers| => ProviderError(providers[i].name, "timeout"))
  }

  /** No slot was passed over without asking for a thread. */
  ghost predicate NoneSkipped(s: State) {
    forall id: nat | id < |s.workers| :: !s.workers[id].Skipped?
  }

  /** Every slot has its outcome, once. */
  ghost predicate Complete(s: State) {
    && s.pending == map[] && SettledOnce(s.settled)
    && |Errors(s)| + |Results(s)| == |s.settled| == |s.providers|
  }

  lemma CompleteWhenSettled(s: State)
    requires Invariant(s) && s.pending == map[] && AllTried(s)
    ensures Complete(s)
  {
    AllAreSettled(s);
  }

  /** Every outcome so far is what was heard of its slot. */
  ghost predicate AllHeard(s: State) {
    forall t <- s.settled :: Heard(s, t)
  }

  lemma StillHeard(a: State, b: State)
    requires Onward(a, b) && AllHeard(a)
    requires forall t <- b.settled :: t in a.settled || Heard(b, t)
    ensures AllHeard(b)
  {
    forall t <- b.settled ensures Heard(b, t) {
      if t in a.settled {
        HeardStays(a, b, t);
      }
    }
  }

  /** One more outcome goes to the end of the errors or to the end of the results. */
  ghost predicate RecordedOne(s: State, t: State, outcome: Outcome) {
    if outcome.Failure? then Errors(t) == Errors(s) + [outcome.error] && Results(t) == Results(s)
    else Errors(t) == Errors(s) && Results(t) == Results(s) + [outcome.value]
  }

  lemma Recorded(s: State, t: State, id: nat, outcome: Outcome)
    requires t.settled == s.settled + [Settled(id, outcome)]
    ensures RecordedOne(s, t, outcome)
  {
    OutcomesAppend(s.settled, Settled(id, outcome));
    PartsAppend(Outcomes(s.settled), outcome);
  }

  // ---------------------------------------------------------------------------
  // Starting the workers
  // ---------------------------------------------------------------------------

  /** A thread was asked for for each of the first `n` slots, in order, on the one channel and by this time. */
  ghost predicate AllAttempted(spawns: seq<Attempt>, n: nat, time: nat) {
    |spawns| == n && forall i | 0 <= i < n :: spawns[i].id == i && spawns[i].chan == 0 && spawns[i].at <= time
  }

  /**
   * The one channel of a race or a consensus, while the resolver receives from
   * it: every slot was tried, and is settled only by what was heard of it.
   */
  ghost predicate Receiving(s: State) {
    && |s.channels| == 1 && s.channels[0].open && !s.channels[0].callerSends
    && AllTried(s) && AllHeard(s)
  }

  lemma QuietKeepsTried(a: State, b: State, id: nat)
    requires Quiet(a, b) && id < |a.workers|
    ensures a.workers[id].Idle? <==> b.workers[id].Idle?
  {
    assert SameWork(a.workers[id], b.workers[id], a.now);
  }

  /** The spawn loop: slots before `next` are tried, the others are not. */
  ghost predicate Starting(s: State, next: nat) {
    && |s.workers| == |s.providers| && next <= |s.workers|
    && (forall id: nat | id < |s.workers| :: s.workers[id].Idle? <==> next <= id)
    && |s.channels| == 1 && s.channels[0].open && s.channels[0].callerSends && s.channels[0].taken == 0
    && Results(s) == [] && AllHeard(s)
  }

  lemma StartingNone(s: State, mid: State, t: State)
    requires s == Init(s.providers, s.version, s.now) && Quiet(s, mid) && t == Apply(mid, Open)
    ensures Starting(t, 0) && t.pending == map[] && Errors(t) == []
  {
    forall id: nat | id < |t.workers| ensures t.workers[id].Idle? {
      QuietKeepsTried(s, mid, id);
    }
  }

  lemma StartingOne(s: State, mid: State, t: State, id: nat, ev: Event)
    requires Starting(s, id) && id < |s.workers| && Quiet(s, mid)
    requires ev == Spawn(id, 0) || (ev.SpawnFails? && ev.id == id)
    requires Enabled(mid, ev) && t == Apply(mid, ev)
    ensures Starting(t, id + 1)
    ensures ev.Spawn? ==> Errors(t) == Errors(s) && t.pending == s.pending[id := s.providers[id].name]
    ensures ev.SpawnFails? ==>
      Errors(t) == Errors(s) + [ProviderError(s.providers[id].name, ev.message)] && t.pending == s.pending - {id}
  {
    forall other: nat | other < |t.workers| ensures t.workers[other].Idle? <==> id + 1 <= other {
      QuietKeepsTried(s, mid, other);
    }
    if ev.SpawnFails? {
      Recorded(mid, t, id, Failure(ProviderError(s.providers[id].name, ev.message)));
    }
    StartingIsHeard(s, mid, t, id, ev);
  }

  lemma StartingIsHeard(s: State, mid: State, t: State, id: nat, ev: Event)
    requires AllHeard(s) && id < |s.workers| && Quiet(s, mid)
    requires ev == Spawn(id, 0) || (ev.SpawnFails? && ev.id == id)
    requires Enabled(mid, ev) && t == Apply(mid, ev)
    ensures AllHeard(t)
  {
    QuietIsOnward(s, mid);
    StepIsOnward(mid, ev);
    StillHeard(s, mid);
    StillHeard(mid, t);
  }

  /** The body of the spawn loop: the slot is pending, unless its thread is refused. */
  method SpawnNext(world: World, id: nat, before: map<nat, string>, early: seq<ProviderError>)
    returns (pending: map<nat, string>, errors: seq<ProviderError>)
    requires world.Valid() && Starting(world.state, id) && id < |world.state.providers|
    requires before == world.state.pending && early == Errors(world.state)
    requires AllAttempted(world.spawns, id, world.state.now)
    modifies world`state, world`trace, world`spawns
    ensures world.Valid() && Starting(world.state, id + 1)
    ensures pending == world.state.pending && errors == Errors(world.state)
    ensures AllAttempted(world.spawns, id + 1, world.state.now)
    ensures world.state.providers == old(world.state.providers) && world.state.now >= old(world.state.now)
  {
    hide Run, SameWork, AllHeard;
    pending, errors := before[id := world.state.providers[id].name], early;
    var spawned, mid := world.SpawnWorker(id, 0);
    match spawned {
      case Success(_) =>
        StartingOne(old(world.state), mid, world.state, id, Spawn(id, 0));
      case Failure(error) =>
        StartingOne(old(world.state), mid, world.state, id, SpawnFails(id, error.message));
        pending := pending - {id};
        errors := errors + [error];
    }
  }

  /** Every slot is given to the operating system, which starts its worker or refuses it. */
  method SpawnAll(world: World) returns (pending: map<nat, string>, errors: seq<ProviderError>)
    requires world.Fresh()
    modifies world`state, world`trace, world`spawns
    ensures world.Valid() && Receiving(world.state) && world.state.channels[0].taken == 0
    ensures AllAttempted(world.spawns, |world.state.providers|, world.state.now)
    ensures pending == world.state.pending && errors == Errors(world.state) && Results(world.state) == []
    ensures world.state.now >= old(world.state.now) && world.state.providers == old(world.state.providers)
  {
    hide Run, SameWork, Invariant, AllHeard;
    world.Reached();
    ghost var mid := world.Act(Open);
    StartingNone(old(world.state), mid, world.state);
    pending, errors := map[], [];
    var id := 0;
    while id < |world.state.providers|
      invariant world.Valid() && world.state.providers == world.initial.providers
      invariant Starting(world.state, id) && AllAttempted(world.spawns, id, world.state.now)
      invariant pending == world.state.pending && errors == Errors(world.state)
      invariant world.state.now >= old(world.state.now)
      decreases |world.initial.providers| - id
    {
      pending, errors := SpawnNext(world, id, pending, errors);
      id := id + 1;
    }
    ghost var started := world.state;
    mid := world.Act(DropSender(0));
    SenderDropped(started, mid, world.state);
  }

  lemma SenderDropped(s: State, mid: State, t: State)
    requires Starting(s, |s.workers|) && Quiet(s, mid) && Enabled(mid, DropSender(0)) && t == Apply(mid, DropSender(0))
    ensures Receiving(t)
  {
    forall id: nat | id < |t.workers| ensures !t.workers[id].Idle? {
      QuietKeepsTried(s, mid, id);
    }
    QuietIsOnward(s, mid);
    StepIsOnward(mid, DropSender(0));
    StillHeard(s, mid);
    StillHeard(mid, t);
  }

  // ---------------------------------------------------------------------------
  // Deadlines
  // ---------------------------------------------------------------------------

  /** What is left until a deadline; nothing if it could not be represented. */
  function Remaining(deadline: Option<nat>, now: nat): nat {
    if deadline.Some? && now <= deadline.value then deadline.value - now else 0
  }

  // ---------------------------------------------------------------------------
  // The receive loop
  // ---------------------------------------------------------------------------

  lemma StillReceiving(s: State, mid: State)
    requires Receiving(s) && Quiet(s, mid)
    ensures Receiving(mid)
  {
    forall id: nat | id < |mid.workers| ensures !mid.workers[id].Idle? {
      QuietKeepsTried(s, mid, id);
    }
    QuietIsOnward(s, mid);
    StillHeard(s, mid);
  }

  /** Message `m`, the oldest one queued at `mid`, has taken its slot out of the pending ones and recorded its outcome. */
  ghost predicate TookOne(before: State, mid: State, after: State, m: Message) {
    && Invariant(mid) && Enabled(mid, Receive(0)) && m == mid.channels[0].log[mid.channels[0].taken]
    && Receiving(after) && after.channels[0].log == mid.channels[0].log && after.version == mid.version
    && Results(mid) == Results(before)
    && m.id in before.pending && after.pending == before.pending - {m.id} && |after.pending| < |before.pending|
    && after.settled == before.settled + [Settled(m.id, Judge(mid.version, m))]
    && RecordedOne(before, after, Judge(mid.version, m))
  }

  /** Every message received takes exactly one slot out of the pending ones and records its outcome. */
  lemma ReceivedOne(s: State, mid: State, t: State, m: Message)
    requires Receiving(s) && Quiet(s, mid) && Invariant(mid)
    requires Enabled(mid, Receive(0)) && t == Apply(mid, Receive(0))
    requires m == mid.channels[0].log[mid.channels[0].taken]
    ensures TookOne(s, mid, t, m)
  {
    StillReceiving(s, mid);
    ReceiveKeeps(mid, 0);
    Recorded(mid, t, m.id, Judge(s.version, m));
    assert t.pending.Keys == s.pending.Keys - {m.id};
    ReceivedIsHeard(mid, t, m);
  }

  lemma ReceivedIsHeard(mid: State, t: State, m: Message)
    requires AllHeard(mid) && Invariant(mid) && Enabled(mid, Receive(0)) && t == Apply(mid, Receive(0))
    requires m == mid.channels[0].log[mid.channels[0].taken]
    ensures AllHeard(t)
  {
    assert LetterOk(mid, 0, mid.channels[0].taken);
    StepIsOnward(mid, Receive(0));
    assert Told(t, Settled(m.id, Judge(mid.version, m)));
    StillHeard(mid, t);
  }

  /** Nothing was taken or recorded. */
  ghost predicate TookNone(before: State, after: State) {
    && Receiving(before) && Receiving(after) && after.channels[0].taken == before.channels[0].taken
    && after.pending == before.pending && after.settled == before.settled
  }

  /**
   * `receive_with_timeout` on the one channel of a race or a consensus. A
   * message settles its slot by what it says. Without one, whoever is pending
   * has not sent any so far; and has died, if the channel is disconnected.
   */
  method ReceiveWithTimeout(world: World, wait: nat) returns (r: Received, ghost mid: State)
    requires world.Valid() && Receiving(world.state)
    modifies world`state, world`trace, world`waits, world`waited
    ensures world.Valid() && Receiving(world.state) && old(world.trace) <= world.trace
    ensures r.Got? ==> TookOne(old(world.state), mid, world.state, r.message)
    ensures !r.Got? ==> TookNone(old(world.state), world.state)
    ensures !r.Got? ==> forall id <- world.state.pending ::
      Unsent(world.state, id, world.state.now) && (r.Disconnected? ==> world.state.workers[id].Died?)
    ensures |world.waits| == |old(world.waits)| + 1 && world.waits[..|old(world.waits)|] == old(world.waits)
    ensures
      var w := world.waits[|old(world.waits)|];
      && w == Wait(0, wait, w.from, world.state.now, r) && old(world.state.now) <= w.from <= w.until
      && (r.TimedOut? ==> w.until == w.from + wait)
      && world.waited == old(world.waited) + (w.until - w.from) <= old(world.waited) + wait
  {
    ghost var before := world.state;
    r, mid := world.RecvTimeout(0, wait);
    StillReceiving(before, mid);
    match r {
      case Got(m) => ReceivedOne(before, mid, world.state, m);
      case _ => NothingSent(mid, r.Disconnected?);
    }
  }

  lemma NothingSent(s: State, gone: bool)
    requires Invariant(s) && Receiving(s) && s.channels[0].taken >= |s.channels[0].log|
    requires gone ==> SendersGone(s, 0)
    ensures forall id <- s.pending :: Unsent(s, id, s.now) && (gone ==> s.workers[id].Died?)
  {
    forall id <- s.pending ensures Unsent(s, id, s.now) && (gone ==> s.workers[id].Died?) {
      assert PendingOk(s, id);
      assert WorkerOk(s, id);
      DrainedIsUnsent(s, id, 0);
      if gone {
        DisconnectedMeansDied(s, 0, id);
      }
    }
  }

  // ---------------------------------------------------------------------------
  // Looking at the clock and waiting, in turns
  // ---------------------------------------------------------------------------

  /** A look that found time left, and then a wait for a worker's message, for exactly the time that was left. */
  ghost predicate IsTurn(look: nat, w: Wait, deadline: Option<nat>) {
    look <= w.from && w.chan == 0 && w.requested == Remaining(deadline, look) > 0
  }

  /**
   * The first look at the clock sets the deadline. After that every look that
   * found time left was followed by its wait, and that by the next look.
   */
  ghost predicate InTurns(looks: seq<nat>, waits: seq<Wait>, deadline: Option<nat>) {
    && |waits| + 1 <= |looks| <= |waits| + 2
    && (|looks| > 1 ==> looks[0] <= looks[1])
    && (forall k | 0 <= k < |waits| :: IsTurn(looks[k + 1], waits[k], deadline))
    && (forall k | 0 <= k < |looks| - 2 :: waits[k].until <= looks[k + 2])
  }

  /** All waits before the `n`th brought a message. */
  ghost predicate AllGot(waits: seq<Wait>, n: int) {
    forall k | 0 <= k < n && k < |waits| :: waits[k].received.Got?
  }

  /** Every turn brought a message, and nothing has happened since that is still to come. */
  ghost predicate UpToDate(now: nat, looks: seq<nat>, waits: seq<Wait>, deadline: Option<nat>) {
    && InTurns(looks, waits, deadline) && |looks| == |waits| + 1 && AllGot(waits, |waits|)
    && (if waits == [] then looks[0] <= now else waits[|waits| - 1].until <= now)
  }

  /** The last look at the clock found no time left. */
  ghost predicate TooLate(looks: seq<nat>, waits: seq<Wait>) {
    |looks| == |waits| + 2
  }

  /** The resolver has stopped receiving: for want of time, or because its last wait brought no message. */
  ghost predicate GaveUp(looks: seq<nat>, waits: seq<Wait>) {
    TooLate(looks, waits) || !AllGot(waits, |waits|)
  }

  /** Turns were taken up to the first wait without a message, or up to a look that found no time left. */
  ghost predicate TurnsTaken(now: nat, looks: seq<nat>, waits: seq<Wait>, deadline: Option<nat>) {
    && InTurns(looks, waits, deadline) && AllGot(waits, |waits| - 1)
    && (TooLate(looks, waits) ==>
          && AllGot(waits, |waits|)
          && looks[|looks| - 1] <= now && Remaining(deadline, looks[|looks| - 1]) == 0)
  }

  /** Before the deadline this pending slot's worker has not sent anything, or it died and never will. */
  ghost predicate Missing(s: State, id: nat, deadline: Option<nat>)
    requires id < |s.workers|
  {
    s.workers[id].Died? || (deadline.Some? && deadline.value <= s.now && Unsent(s, id, deadline.value))
  }

  /**
   * The resolver has stopped receiving, and rightly so: no slot was pending any
   * more; or it looked at the clock when no time was left; or none of the slots
   * still pending had sent anything before the deadline.
   */
  ghost predicate Stopped(s: State, looks: seq<nat>, waits: seq<Wait>, deadline: Option<nat>) {
    && TurnsTaken(s.now, looks, waits, deadline)
    && (GaveUp(looks, waits) <==> s.pending != map[])
    && (!TooLate(looks, waits) ==> forall id <- s.pending :: id < |s.workers| && Missing(s, id, deadline))
  }

  /** Of the time since `start` at most what was left until the deadline was spent waiting. */
  ghost predicate InTime(waited: nat, start: nat, now: nat, deadline: Option<nat>) {
    waited <= Remaining(deadline, start) && waited <= now - start
  }

  /** Nobody is pending any more, so there is no reason for another turn. */
  lemma StoppedWithNobodyPending(s: State, looks: seq<nat>, waits: seq<Wait>, deadline: Option<nat>)
    requires UpToDate(s.now, looks, waits, deadline) && s.pending == map[]
    ensures Stopped(s, looks, waits, deadline)
  {
  }

  datatype Turn = NoTimeLeft | Waited(received: Received)

  /** The body of the receive loop: a look at the clock and, if time is left, a wait for a message. */
  method TakeTurn(world: World, deadline: Option<nat>) returns (turn: Turn, ghost mid: State)
    requires world.Valid() && Receiving(world.state) && world.state.pending != map[]
    requires UpToDate(world.state.now, world.looks, world.waits, deadline)
    modifies world`state, world`trace, world`looks, world`waits, world`waited
    ensures world.Valid() && Receiving(world.state) && old(world.trace) <= world.trace
    ensures |world.looks| == |old(world.looks)| + 1 && world.looks[..|old(world.looks)|] == old(world.looks)
    ensures turn.Waited? && turn.received.Got? ==>
      && TookOne(old(world.state), mid, world.state, turn.received.message)
      && UpToDate(world.state.now, world.looks, world.waits, deadline)
    ensures turn.NoTimeLeft? || !turn.received.Got? ==>
      TookNone(old(world.state), world.state) && Stopped(world.state, world.looks, world.waits, deadline)
    ensures
      var now := world.looks[|old(world.looks)|];
      && now >= old(world.state.now)
      && (Remaining(deadline, now) == 0 ==> turn.NoTimeLeft?)
      && old(world.waited) <= world.waited
      && InTime(world.waited - old(world.waited), now, world.state.now, deadline)
  {
    hide Run, SameWork, Invariant, Missing, Unsent, AllHeard, AllTried;
    ghost var before := world.state;
    var now := world.Now();
    StillReceiving(before, world.state);
    mid := world.state;
    var remaining := Remaining(deadline, now);
    if remaining == 0 {
      return NoTimeLeft, mid;
    }
    var r;
    r, mid := ReceiveWithTimeout(world, remaining);
    turn := Waited(r);
    TurnTaken(before.now, old(world.looks), old(world.waits), now, world.waits, deadline);
    if !r.Got? {
      NoneMissing(world.state, r, deadline);
    }
  }

  /** One more look that found time left, and the wait that followed. */
  lemma TurnTaken(
      time: nat, looks: seq<nat>, before: seq<Wait>, now: nat, after: seq<Wait>, deadline: Option<nat>)
    requires UpToDate(time, looks, before, deadline) && time <= now
    requires |after| == |before| + 1 && after[..|before|] == before
    requires IsTurn(now, after[|before|], deadline)
    ensures
      var w := after[|before|];
      var turns := looks + [now];
      && InTurns(turns, after, deadline) && !TooLate(turns, after) && AllGot(after, |after| - 1)
      && (w.received.Got? <==> AllGot(after, |after|))
      && (w.received.Got? ==> UpToDate(w.until, turns, after, deadline))
  {
    assert forall k | 0 <= k < |before| :: after[k] == after[..|before|][k] == before[k];
  }

  lemma NoneMissing(s: State, r: Received, deadline: Option<nat>)
    requires !r.Got? && (r.TimedOut? ==> deadline.Some? && deadline.value <= s.now)
    requires forall id <- s.pending :: Unsent(s, id, s.now) && (r.Disconnected? ==> s.workers[id].Died?)
    ensures forall id <- s.pending :: id < |s.workers| && Missing(s, id, deadline)
  {
    forall id <- s.pending ensures id < |s.workers| && Missing(s, id, deadline) {
      assert Unsent(s, id, s.now);
    }
  }

  // ---------------------------------------------------------------------------
  // Giving up
  // ---------------------------------------------------------------------------

  lemma CanTimeOut(s: State, id: nat)
    requires Invariant(s) && |s.channels| == 1 && !s.channels[0].open && id in s.pending
    ensures Enabled(s, TimeOut(id)) && s.pending[id] == s.providers[id].name
  {
    assert PendingOk(s, id);
    assert WorkerOk(s, id);
  }

  lemma TimedOutOne(s: State, mid: State, t: State, id: nat)
    requires AllTried(s) && Quiet(s, mid) && Enabled(mid, TimeOut(id)) && t == Apply(mid, TimeOut(id))
    ensures AllTried(t)
    ensures Errors(t) == Errors(s) + [TimeoutError(s.pending[id])] && Results(t) == Results(s)
  {
    Recorded(mid, t, id, Failure(TimeoutError(s.pending[id])));
    forall other: nat | other < |t.workers| ensures !t.workers[other].Idle? {
      QuietKeepsTried(s, mid, other);
    }
  }

  /** The receiver is not asked any more: what arrives from here on is lost. */
  ghost predicate Closed(s: State) {
    |s.channels| == 1 && !s.channels[0].open
  }

  method StopReceiving(world: World)
    requires world.Valid() && Receiving(world.state)
    modifies world`state, world`trace
    ensures world.Valid() && Closed(world.state) && AllTried(world.state) && old(world.trace) <= world.trace
    ensures world.state.pending == old(world.state.pending) && world.state.settled == old(world.state.settled)
    ensures world.state.channels[0].taken == old(world.state.channels[0].taken)
  {
    ghost var start := world.state;
    ghost var mid := world.Act(Close(0));
    StillReceiving(start, mid);
  }

  /** Every outcome was there before, or is a timeout of a slot that was pending. */
  ghost predicate SettlesFrom(s: State, t: State) {
    forall x <- t.settled ::
      x in s.settled || (x.id in s.pending && x.outcome == Failure(TimeoutError(s.pending[x.id])))
  }

  lemma StillSettlesFrom(s: State, t: State, u: State, id: nat)
    requires SettlesFrom(s, t) && id in s.pending
    requires u.settled == t.settled + [Settled(id, Failure(TimeoutError(s.pending[id])))]
    ensures SettlesFrom(s, u)
  {
  }

  /** Whatever is still pending timed out; the map is emptied in any order. */
  method TimeOutRest(world: World, pending: map<nat, string>, errors: seq<ProviderError>)
    returns (all: seq<ProviderError>)
    requires world.Valid() && Receiving(world.state)
    requires pending == world.state.pending && errors == Errors(world.state)
    modifies world`state, world`trace
    ensures world.Valid() && Complete(world.state) && Closed(world.state) && old(world.trace) <= world.trace
    ensures all == Errors(world.state) && Results(world.state) == old(Results(world.state))
    ensures world.state.channels[0].taken == old(world.state.channels[0].taken)
    ensures SettlesFrom(old(world.state), world.state)
  {
    StopReceiving(world);
    ghost var start := world.state;
    all := errors;
    var rest := pending;
    while rest != map[]
      invariant world.Valid() && AllTried(world.state) && Closed(world.state) && old(world.trace) <= world.trace
      invariant world.state.channels[0].taken == start.channels[0].taken
      invariant rest == world.state.pending && forall id <- rest :: id in pending && rest[id] == pending[id]
      invariant all == Errors(world.state) && Results(world.state) == Results(start)
      invariant SettlesFrom(start, world.state)
      decreases |rest|
    {
      var id :| id in rest;
      world.Reached();
      CanTimeOut(world.state, id);
      ghost var before := world.state;
      ghost var mid := world.Act(TimeOut(id));
      TimedOutOne(before, mid, world.state, id);
      StillSettlesFrom(start, before, world.state, id);
      all := all + [TimeoutError(rest[id])];
      assert (rest - {id}).Keys == rest.Keys - {id};
      rest := rest - {id};
    }
    world.Reached();
    CompleteWhenSettled(world.state);
  }

  // ---------------------------------------------------------------------------
  // Nothing is missed
  // ---------------------------------------------------------------------------

  /** The slot was given up by the resolver although its thread was started. */
  ghost predicate IsTimeout(s: State, t: Settled) {
    && t.id < |s.workers| == |s.providers| && s.workers[t.id].Started()
    && t.outcome == Failure(ProviderError(s.providers[t.id].name, "timeout"))
  }

  /**
   * The outcome is what was heard of the slot. Or the slot was given up, which
   * takes that the clock was looked at too late, or that its worker had sent
   * nothing before the deadline, or died and never will.
   */
  ghost predicate AccountedFor(s: State, t: Settled, looks: seq<nat>, waits: seq<Wait>, deadline: Option<nat>) {
    || Heard(s, t)
    || (IsTimeout(s, t) && GaveUp(looks, waits) && (TooLate(looks, waits) || Missing(s, t.id, deadline)))
  }

  /**
   * The resolver listened to the workers, in turns of looking at the clock and
   * waiting; every outcome is accounted for; and it stopped listening only if
   * somebody was still pending.
   */
  ghost predicate NothingMissed(s: State, looks: seq<nat>, waits: seq<Wait>, deadline: Option<nat>) {
    && |s.channels| == 1 && !s.channels[0].callerSends
    && TurnsTaken(s.now, looks, waits, deadline)
    && (forall t <- s.settled :: AccountedFor(s, t, looks, waits, deadline))
    && (GaveUp(looks, waits) ==> exists t <- s.settled :: IsTimeout(s, t))
  }

  lemma MissingStays(a: State, b: State, id: nat, deadline: Option<nat>)
    requires Onward(a, b) && id < |a.workers| && Missing(a, id, deadline)
    ensures Missing(b, id, deadline)
  {
    assert LaterWork(a.workers[id], b.workers[id], a.now);
    if !a.workers[id].Died? {
      UnsentStays(a, b, id, deadline.value);
    }
  }

  lemma GivenUpIsTimeout(s: State, t: State, x: Settled)
    requires Invariant(s) && Onward(s, t) && x.id in s.pending
    requires x.outcome == Failure(TimeoutError(s.pending[x.id]))
    ensures IsTimeout(t, x)
  {
    assert PendingOk(s, x.id);
    assert LaterWork(s.workers[x.id], t.workers[x.id], s.now);
  }

  /** Whoever was pending has been given up. */
  lemma SomebodyTimedOut(s: State, t: State, id: nat)
    requires Invariant(s) && Invariant(t) && Onward(s, t) && SettlesFrom(s, t)
    requires id in s.pending && t.pending == map[]
    ensures exists x <- t.settled :: IsTimeout(t, x)
  {
    assert PendingOk(s, id);
    assert LaterWork(s.workers[id], t.workers[id], s.now);
    assert WorkerOk(t, id);
    var i: nat :| i < |t.settled| && t.settled[i].id == id;
    PendingIsNotSettled(s, id);
    GivenUpIsTimeout(s, t, t.settled[i]);
  }

  lemma LaterAccountedFor(
      s: State, t: State, looks: seq<nat>, waits: seq<Wait>, deadline: Option<nat>, x: Settled)
    requires Invariant(s) && Receiving(s) && Stopped(s, looks, waits, deadline)
    requires Onward(s, t) && SettlesFrom(s, t) && x in t.settled
    ensures AccountedFor(t, x, looks, waits, deadline)
  {
    if x in s.settled {
      HeardStays(s, t, x);
    } else {
      GivenUpIsTimeout(s, t, x);
      if !TooLate(looks, waits) {
        MissingStays(s, t, x.id, deadline);
      }
    }
  }

  lemma StoppedMissesNothing(s: State, t: State, looks: seq<nat>, waits: seq<Wait>, deadline: Option<nat>)
    requires Invariant(s) && Receiving(s) && Stopped(s, looks, waits, deadline)
    requires Invariant(t) && Onward(s, t) && SettlesFrom(s, t) && t.pending == map[] && |t.channels| == 1
    ensures NothingMissed(t, looks, waits, deadline)
  {
    forall x <- t.settled ensures AccountedFor(t, x, looks, waits, deadline) {
      LaterAccountedFor(s, t, looks, waits, deadline, x);
    }
    if id :| id in s.pending {
      SomebodyTimedOut(s, t, id);
    }
    assert LaterChannel(s.channels[0], t.channels[0]);
  }

  /** A slot timed out although its message was sent in time: the clock was looked at too late. */
  lemma MissedOnlyIfLate(s: State, looks: seq<nat>, waits: seq<Wait>, deadline: Option<nat>, t: Settled)
    requires NothingMissed(s, looks, waits, deadline)
    requires t in s.settled && t.id < |s.workers| && s.workers[t.id].Finished?
    requires !Heard(s, t) && (deadline.Some? ==> s.workers[t.id].sentAt < deadline.value)
    ensures TooLate(looks, waits) && AllGot(waits, |waits|) && looks[|looks| - 1] <= s.now
    ensures deadline.Some? ==> looks[|looks| - 1] >= deadline.value
  {
    assert AccountedFor(s, t, looks, waits, deadline);
  }

  /** Before the deadline there is no early exit: every slot was heard of, but for workers that died. */
  lemma NoEarlyExit(s: State, looks: seq<nat>, waits: seq<Wait>, deadline: nat, t: Settled)
    requires NothingMissed(s, looks, waits, Some(deadline)) && s.now < deadline && t in s.settled
    ensures Heard(s, t) || (t.id < |s.workers| && s.workers[t.id].Died?)
  {
    assert !TooLate(looks, waits);
    assert AccountedFor(s, t, looks, waits, Some(deadline));
  }

  /** No slot was passed over: each was heard of, or was at least started. */
  lemma NobodySkipped(s: State, looks: seq<nat>, waits: seq<Wait>, deadline: Option<nat>)
    requires Invariant(s) && NothingMissed(s, looks, waits, deadline)
    ensures NoneSkipped(s)
  {
    forall id: nat | id < |s.workers| ensures !s.workers[id].Skipped? {
      assert WorkerOk(s, id);
      if i: nat :| i < |s.settled| && s.settled[i].id == id {
        assert AccountedFor(s, s.settled[i], looks, waits, deadline);
      }
    }
  }
}
