/** The threads, channels and clock that the blocking resolver runs against. */
module BlockingWorld {
  import opened Types
  import opened Workers
  import opened WorkerRuns
  import opened Progress

  datatype Received = Got(message: Message) | TimedOut | Disconnected

  /** A thread asked for, on which channel and when; whether the operating system grants it or not. */
  datatype Attempt = Attempt(id: nat, chan: nat, at: nat)

  /** One call of `recv_timeout`: what it was asked to wait, when it began and ended, and how. */
  datatype Wait = Wait(chan: nat, requested: nat, from: nat, until: nat, received: Received)

  // ---------------------------------------------------------------------------
  // What the environment leaves alone
  // ---------------------------------------------------------------------------

  /** From `a` to `b` only workers and the clock have moved. */
  ghost predicate Quiet(a: State, b: State) {
    && b == a.(now := b.now, workers := b.workers, channels := b.channels)
    && a.now <= b.now
    && |b.workers| == |a.workers|
    && (forall id: nat | id < |a.workers| :: SameWork(a.workers[id], b.workers[id], a.now))
    && |b.channels| == |a.channels|
    && (forall c: nat | c < |a.channels| ::
          && b.channels[c] == a.channels[c].(log := b.channels[c].log) && a.channels[c].log <= b.channels[c].log
          && (!a.channels[c].open ==> b.channels[c].log == a.channels[c].log))
  }

  lemma QuietTransitive(a: State, b: State, c: State)
    requires Quiet(a, b) && Quiet(b, c)
    ensures Quiet(a, c)
  {
    forall id: nat | id < |a.workers| ensures SameWork(a.workers[id], c.workers[id], a.now) {
      assert SameWork(a.workers[id], b.workers[id], a.now) && SameWork(b.workers[id], c.workers[id], b.now);
    }
  }

  lemma EnvironmentIsQuiet(s: State, ev: Event)
    requires Enabled(s, ev) && ev.FromEnvironment()
    ensures Quiet(s, Apply(s, ev))
  {
  }

  lemma QuietIsOnward(a: State, b: State)
    requires Quiet(a, b)
    ensures Onward(a, b)
  {
    forall id: nat | id < |a.workers| ensures LaterWork(a.workers[id], b.workers[id], a.now) {
      assert SameWork(a.workers[id], b.workers[id], a.now);
    }
  }

  lemma TickIsQuiet(s: State, trace: seq<Event>, t: State, end: nat)
    requires Run(s, trace) == Some(t) && t.now <= end && Invariant(t)
    ensures Run(s, trace + [Tick(end - t.now)]) == Some(t.(now := end))
    ensures Quiet(t, t.(now := end)) && Invariant(t.(now := end))
  {
    TickKeeps(t, end - t.now);
    EnvironmentIsQuiet(t, Tick(end - t.now));
    RunOneMore(s, trace, t, Tick(end - t.now));
  }

  /** What the caller can do now, it can still do after the environment moved. */
  lemma QuietKeepsEnabled(a: State, b: State, ev: Event)
    requires Quiet(a, b) && Enabled(a, ev) && (ev.Bookkeeping() || ev.Spawn?)
    ensures Enabled(b, ev)
  {
    match ev
    case Skip(id) => assert SameWork(a.workers[id], b.workers[id], a.now);
    case Spawn(id, _) => assert SameWork(a.workers[id], b.workers[id], a.now);
    case TimeOut(id) => assert SameWork(a.workers[id], b.workers[id], a.now);
    case Disconnect(id) => assert a.workers[id].Died?;
    case _ =>
  }

  /**
   * Before every step of the caller the environment may take any number of
   * steps. `state` is always the result of running `trace`; `spawns`, `looks`
   * and `waits` record every thread asked for, every reading of the clock and
   * every call of `recv_timeout`.
   */
  class World {
    ghost const initial: State
    ghost var trace: seq<Event>
    ghost var spawns: seq<Attempt>
    ghost var looks: seq<nat>
    ghost var waits: seq<Wait>
    ghost var waited: nat
    var state: State

    ghost predicate Valid()
      reads this
    {
      initial == Init(initial.providers, initial.version, initial.now) && Run(initial, trace) == Some(state)
    }

    /** Nothing has happened yet. */
    ghost predicate Fresh()
      reads this
    {
      Valid() && state == initial && spawns == [] && looks == [] && waits == []
    }

    lemma Reached()
      requires Valid()
      ensures Invariant(state) && state.providers == initial.providers && state.version == initial.version
    {
      InitKeeps(initial.providers, initial.version, initial.now);
      RunKeeps(initial, trace);
      RunIsSteady(initial, trace);
    }

    lemma WentOnward(early: seq<Event>, s: State)
      requires Valid() && early <= trace && Run(initial, early) == Some(s)
      ensures Onward(s, state)
    {
      RunIsOnward(initial, early, trace);
    }

    constructor (providers: seq<Provider>, version: IpVersion, now: nat)
      ensures Fresh() && state == Init(providers, version, now) && waited == 0
    {
      state := Init(providers, version, now);
      initial := Init(providers, version, now);
      trace, spawns, looks, waits, waited := [], [], [], [], 0;
    }

    /** Any environment steps, none of them after `limit`. */
    method Pause(limit: nat)
      requires Valid() && state.now <= limit
      modifies this`state, this`trace
      ensures Valid() && Quiet(old(state), state) && state.now <= limit && old(trace) <= trace
    {
      var steps: nat := *;
      while steps > 0
        invariant Valid() && Quiet(old(state), state) && state.now <= limit && old(trace) <= trace
      {
        var ev: Event := *;
        if ev.FromEnvironment() && Enabled(state, ev) && Apply(state, ev).now <= limit {
          EnvironmentIsQuiet(state, ev);
          QuietTransitive(old(state), state, Apply(state, ev));
          RunOneMore(initial, trace, state, ev);
          state := Apply(state, ev);
          trace := trace + [ev];
        }
        steps := steps - 1;
      }
    }

    /** Any environment steps, over any time. */
    method Interfere()
      requires Valid()
      modifies this`state, this`trace
      ensures Valid() && Quiet(old(state), state) && old(trace) <= trace
    {
      var limit: nat := *;
      if state.now <= limit {
        Pause(limit);
      }
    }

    /** A step of the caller's bookkeeping, some time after the environment moved to `mid`. */
    method Act(ev: Event) returns (ghost mid: State)
      requires Valid() && Enabled(state, ev) && ev.Bookkeeping()
      modifies this`state, this`trace
      ensures Valid() && Quiet(old(state), mid) && Enabled(mid, ev) && state == Apply(mid, ev)
      ensures old(trace) <= trace
    {
      Interfere();
      mid := state;
      QuietKeepsEnabled(old(state), state, ev);
      RunOneMore(initial, trace, state, ev);
      state, trace := Apply(state, ev), trace + [ev];
    }

    /** `spawn_provider_worker`: the operating system may refuse the thread, and nobody else does. */
    method SpawnWorker(id: nat, chan: nat) returns (r: Result<(), ProviderError>, ghost mid: State)
      requires Valid() && Enabled(state, Spawn(id, chan))
      modifies this`state, this`trace, this`spawns
      ensures Valid() && Quiet(old(state), mid) && Enabled(mid, Spawn(id, chan)) && old(trace) <= trace
      ensures spawns == old(spawns) + [Attempt(id, chan, state.now)]
      ensures r.Success? ==> state == Apply(mid, Spawn(id, chan))
      ensures r.Failure? ==>
        r.error.provider == old(state.providers)[id].name && state == Apply(mid, SpawnFails(id, r.error.message))
    {
      Interfere();
      mid := state;
      QuietKeepsEnabled(old(state), state, Spawn(id, chan));
      var refused: Option<string> := *;
      var ev;
      match refused {
        case None =>
          ev, r := Spawn(id, chan), Success(());
        case Some(message) =>
          ev, r := SpawnFails(id, message), Failure(ProviderError(state.providers[id].name, message));
      }
      RunOneMore(initial, trace, state, ev);
      state, trace := Apply(state, ev), trace + [ev];
      spawns := spawns + [Attempt(id, chan, state.now)];
    }

    /** `Instant::now` */
    method Now() returns (now: nat)
      requires Valid()
      modifies this`state, this`trace, this`looks
      ensures Valid() && Quiet(old(state), state) && now == state.now && old(trace) <= trace
      ensures looks == old(looks) + [now]
    {
      Interfere();
      now := state.now;
      looks := looks + [now];
    }

    /**
     * `recv_timeout`: waits at most `wait` for a message, and gives up early
     * only if no sender is left. `waited` adds up the time spent waiting.
     */
    method RecvTimeout(chan: nat, wait: nat) returns (r: Received, ghost mid: State)
      requires Valid() && chan < |state.channels| && state.channels[chan].open
      modifies this`state, this`trace, this`waits, this`waited
      ensures Valid() && Quiet(old(state), mid) && Invariant(mid) && old(trace) <= trace
      ensures r.Got? ==>
        && Enabled(mid, Receive(chan)) && state == Apply(mid, Receive(chan))
        && r.message == mid.channels[chan].log[mid.channels[chan].taken]
      ensures !r.Got? ==> state == mid && state.channels[chan].taken >= |state.channels[chan].log|
      ensures r.Disconnected? ==> SendersGone(state, chan)
      ensures |waits| == |old(waits)| + 1 && waits[..|old(waits)|] == old(waits)
      ensures
        var w := waits[|old(waits)|];
        && w == Wait(chan, wait, w.from, state.now, r)
        && old(state.now) <= w.from <= w.until <= w.from + wait
        && (r.TimedOut? ==> w.until == w.from + wait)
        && waited == old(waited) + (w.until - w.from)
    {
      hide Run, Invariant, SameWork;
      Interfere();
      ghost var start := state;
      var end := state.now + wait;
      Pause(end);
      QuietTransitive(old(state), start, state);
      mid := state;
      Reached();
      var c := state.channels[chan];
      if c.taken < |c.log| {
        r := Got(c.log[c.taken]);
        RunOneMore(initial, trace, state, Receive(chan));
        state, trace := Apply(state, Receive(chan)), trace + [Receive(chan)];
      } else if SendersGone(state, chan) {
        r := Disconnected;
      } else {
        r := TimedOut;
        TickIsQuiet(initial, trace, state, end);
        trace, state := trace + [Tick(end - state.now)], state.(now := end);
        QuietTransitive(old(state), mid, state);
        mid := state;
      }
      waited := waited + (state.now - start.now);
      waits := waits + [Wait(chan, wait, start.now, state.now, r)];
    }
  }
}
