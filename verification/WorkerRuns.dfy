/** What every run of workers and caller keeps, under every schedule. */
module WorkerRuns {
  import opened Types
  import opened Tally
  import opened Workers

  // ---------------------------------------------------------------------------
  // Every step keeps the invariant
  // ---------------------------------------------------------------------------

  lemma InitKeeps(providers: seq<Provider>, version: IpVersion, now: nat)
    ensures Invariant(Init(providers, version, now))
  {
  }

  lemma SettleExtends(s: State, t: State, id: nat, outcome: Outcome)
    requires t.settled == s.settled + [Settled(id, outcome)]
    requires SettledOnce(s.settled) && !IsSettled(s, id)
    ensures SettledOnce(t.settled)
    ensures IsSettled(t, id)
    ensures forall other: nat :: IsSettled(t, other) <==> other == id || IsSettled(s, other)
  {
    assert t.settled[|s.settled|].id == id;
    forall other: nat ensures IsSettled(t, other) <==> other == id || IsSettled(s, other) {
      if IsSettled(s, other) {
        var i :| 0 <= i < |s.settled| && s.settled[i].id == other;
        assert t.settled[i].id == other;
      }
    }
  }

  lemma PendingIsNotSettled(s: State, id: nat)
    requires Invariant(s) && id in s.pending
    ensures !IsSettled(s, id)
  {
    forall i: nat | i < |s.settled| ensures s.settled[i].id != id {
      assert SettledOk(s, i);
    }
  }

  lemma TickKeeps(s: State, ticks: nat)
    requires Invariant(s)
    ensures Invariant(Apply(s, Tick(ticks)))
  {
    var t := Apply(s, Tick(ticks));
    forall id: nat ensures IsSettled(t, id) == IsSettled(s, id) {}
    forall i: nat | i < |t.settled| ensures SettledOk(t, i) {
      assert SettledOk(s, i);
    }
    forall id: nat | id < |t.workers| ensures WorkerOk(t, id) {
      assert WorkerOk(s, id);
    }
    forall c: nat, k: nat | c < |t.channels| && k < |t.channels[c].log| ensures LetterOk(t, c, k) {
      assert LetterOk(s, c, k);
    }
    forall id <- t.pending ensures PendingOk(t, id) {
      assert PendingOk(s, id);
    }
  }

  lemma SendKeeps(s: State, id: nat)
    requires Invariant(s) && Enabled(s, Send(id))
    ensures Invariant(SendMessage(s, id))
  {
    var t := SendMessage(s, id);
    assert WorkerOk(s, id);
    forall other: nat ensures IsSettled(t, other) == IsSettled(s, other) {}
    forall i: nat | i < |t.settled| ensures SettledOk(t, i) {
      assert SettledOk(s, i);
    }
    forall other: nat | other < |t.workers| ensures WorkerOk(t, other) {
      assert WorkerOk(s, other);
    }
    forall c: nat, k: nat | c < |t.channels| && k < |t.channels[c].log| ensures LetterOk(t, c, k) {
      if k < |s.channels[c].log| {
        assert LetterOk(s, c, k);
      }
    }
    forall other <- t.pending ensures PendingOk(t, other) {
      assert PendingOk(s, other);
    }
  }

  /** A started worker moves on without sending anything. */
  lemma WorkerMoves(s: State, id: nat, w: Worker)
    requires Invariant(s) && id < |s.workers| && s.workers[id].Started()
    requires w.Started() && w.chan == s.workers[id].chan < |s.channels| && StageOk(s, id, w)
    requires if s.workers[id].Finished? then w == s.workers[id].(exited := true) else !s.workers[id].Died? && !w.Finished?
    ensures Invariant(SetWorker(s, id, w))
  {
    var t := SetWorker(s, id, w);
    assert WorkerOk(s, id);
    forall other: nat ensures IsSettled(t, other) == IsSettled(s, other) {}
    forall i: nat | i < |t.settled| ensures SettledOk(t, i) {
      assert SettledOk(s, i);
    }
    forall other: nat | other < |t.workers| ensures WorkerOk(t, other) {
      assert WorkerOk(s, other);
    }
    forall c: nat, k: nat | c < |t.channels| && k < |t.channels[c].log| ensures LetterOk(t, c, k) {
      assert LetterOk(s, c, k);
    }
    forall other <- t.pending ensures PendingOk(t, other) {
      assert PendingOk(s, other);
    }
  }

  /** A worker's own steps that send nothing. */
  lemma SilentStepKeeps(s: State, ev: Event)
    requires Invariant(s) && Enabled(s, ev) && (ev.Begin? || ev.Measure? || ev.Exit? || ev.Die?)
    ensures Invariant(Apply(s, ev))
  {
    assert WorkerOk(s, ev.id);
    WorkerMoves(s, ev.id, Apply(s, ev).workers[ev.id]);
  }

  /** Steps that change only the channels, and neither a log nor what was taken, nor reopen a receiver. */
  lemma ChannelStepKeeps(s: State, t: State)
    requires Invariant(s) && t == s.(channels := t.channels)
    requires |s.channels| <= |t.channels|
    requires forall c: nat | c < |s.channels| ::
      && t.channels[c].log == s.channels[c].log && t.channels[c].taken == s.channels[c].taken
      && (t.channels[c].open ==> s.channels[c].open)
    requires forall c: nat | |s.channels| <= c < |t.channels| :: t.channels[c].log == [] && t.channels[c].taken == 0
    ensures Invariant(t)
  {
    forall id: nat ensures IsSettled(t, id) == IsSettled(s, id) {}
    forall i: nat | i < |t.settled| ensures SettledOk(t, i) {
      assert SettledOk(s, i);
    }
    forall id: nat | id < |t.workers| ensures WorkerOk(t, id) {
      assert WorkerOk(s, id);
    }
    forall c: nat, k: nat | c < |t.channels| && k < |t.channels[c].log| ensures LetterOk(t, c, k) {
      assert LetterOk(s, c, k);
    }
    forall id <- t.pending ensures PendingOk(t, id) {
      assert PendingOk(s, id);
    }
  }

  lemma NotStartKeeps(s: State, id: nat, w: Worker, e: ProviderError)
    requires Invariant(s) && id < |s.workers| && s.workers[id].Idle? && e.provider == s.providers[id].name
    requires (w.Skipped? && e == TimeoutError(s.providers[id].name)) || w == NotStarted(e)
    ensures Invariant(NotStart(s, id, w, e))
  {
    var t := NotStart(s, id, w, e);
    assert WorkerOk(s, id);
    SettleExtends(s, t, id, Failure(e));
    forall i: nat | i < |t.settled| ensures SettledOk(t, i) {
      if i < |s.settled| {
        assert SettledOk(s, i);
      }
    }
    forall other: nat | other < |t.workers| ensures WorkerOk(t, other) {
      assert WorkerOk(s, other);
    }
    forall c: nat, k: nat | c < |t.channels| && k < |t.channels[c].log| ensures LetterOk(t, c, k) {
      assert LetterOk(s, c, k);
    }
    forall other <- t.pending ensures PendingOk(t, other) {
      assert PendingOk(s, other);
    }
  }

  lemma SpawnKeeps(s: State, id: nat, chan: nat)
    requires Invariant(s) && Enabled(s, Spawn(id, chan))
    ensures Invariant(Apply(s, Spawn(id, chan)))
  {
    var t := Apply(s, Spawn(id, chan));
    assert WorkerOk(s, id);
    forall other: nat ensures IsSettled(t, other) == IsSettled(s, other) {}
    forall i: nat | i < |t.settled| ensures SettledOk(t, i) {
      assert SettledOk(s, i);
    }
    forall other: nat | other < |t.workers| ensures WorkerOk(t, other) {
      assert WorkerOk(s, other);
    }
    forall c: nat, k: nat | c < |t.channels| && k < |t.channels[c].log| ensures LetterOk(t, c, k) {
      assert LetterOk(s, c, k);
    }
    forall other <- t.pending ensures PendingOk(t, other) {
      if other != id {
        assert PendingOk(s, other);
      }
    }
  }

  lemma ReceiveKeeps(s: State, chan: nat)
    requires Invariant(s) && Enabled(s, Receive(chan))
    ensures Invariant(Apply(s, Receive(chan)))
    ensures s.channels[chan].log[s.channels[chan].taken].id in s.pending
  {
    var t := Apply(s, Receive(chan));
    var taken := s.channels[chan].taken;
    var m := s.channels[chan].log[taken];
    assert LetterOk(s, chan, taken);
    assert WorkerOk(s, m.id);
    PendingIsNotSettled(s, m.id);
    SettleExtends(s, t, m.id, Judge(s.version, m));
    forall i: nat | i < |t.settled| ensures SettledOk(t, i) {
      if i < |s.settled| {
        assert SettledOk(s, i);
      }
    }
    forall other: nat | other < |t.workers| ensures WorkerOk(t, other) {
      assert WorkerOk(s, other);
    }
    forall c: nat, k: nat | c < |t.channels| && k < |t.channels[c].log| ensures LetterOk(t, c, k) {
      assert LetterOk(s, c, k);
    }
    forall other <- t.pending ensures PendingOk(t, other) {
      assert PendingOk(s, other);
    }
  }

  /** A slot is given up: its receiver is gone, or its worker is. */
  lemma GiveUpKeeps(s: State, id: nat, e: ProviderError)
    requires Invariant(s) && id in s.pending
    requires (e == TimeoutError(s.pending[id]) && Enabled(s, TimeOut(id)))
      || (e == DisconnectedError(s.pending[id]) && Enabled(s, Disconnect(id)))
    ensures Invariant(Settle(s, id, Failure(e)))
  {
    var t := Settle(s, id, Failure(e));
    assert PendingOk(s, id);
    assert WorkerOk(s, id);
    PendingIsNotSettled(s, id);
    SettleExtends(s, t, id, Failure(e));
    forall i: nat | i < |t.settled| ensures SettledOk(t, i) {
      if i < |s.settled| {
        assert SettledOk(s, i);
      }
    }
    forall other: nat | other < |t.workers| ensures WorkerOk(t, other) {
      assert WorkerOk(s, other);
    }
    forall c: nat, k: nat | c < |t.channels| && k < |t.channels[c].log| ensures LetterOk(t, c, k) {
      assert LetterOk(s, c, k);
    }
    forall other <- t.pending ensures PendingOk(t, other) {
      assert PendingOk(s, other);
    }
  }

  lemma StepKeeps(s: State, ev: Event)
    requires Invariant(s) && Enabled(s, ev)
    ensures Invariant(Apply(s, ev))
  {
    match ev
    case Tick(ticks) => TickKeeps(s, ticks);
    case Send(id) => SendKeeps(s, id);
    case Begin(_) => SilentStepKeeps(s, ev);
    case Measure(_, _) => SilentStepKeeps(s, ev);
    case Die(_) => SilentStepKeeps(s, ev);
    case Exit(_) => SilentStepKeeps(s, ev);
    case Skip(id) => NotStartKeeps(s, id, Skipped, TimeoutError(s.providers[id].name));
    case Spawn(id, chan) => SpawnKeeps(s, id, chan);
    case SpawnFails(id, message) =>
      var e := ProviderError(s.providers[id].name, message);
      NotStartKeeps(s, id, NotStarted(e), e);
    case Receive(chan) => ReceiveKeeps(s, chan);
    case TimeOut(id) => GiveUpKeeps(s, id, TimeoutError(s.pending[id]));
    case Disconnect(id) => GiveUpKeeps(s, id, DisconnectedError(s.pending[id]));
    case _ => ChannelStepKeeps(s, Apply(s, ev));
  }

  /** In whatever order threads, clock and caller take their steps, the invariant holds after all of them. */
  lemma {:induction false} RunKeeps(s: State, trace: seq<Event>)
    requires Invariant(s)
    ensures Run(s, trace).Some? ==> Invariant(Run(s, trace).value)
  {
    if trace != [] {
      RunKeeps(s, trace[..|trace| - 1]);
      if Run(s, trace).Some? {
        StepKeeps(Run(s, trace[..|trace| - 1]).value, trace[|trace| - 1]);
      }
    }
  }

  lemma StepIsSteady(s: State, ev: Event)
    requires Enabled(s, ev)
    ensures Apply(s, ev).providers == s.providers && Apply(s, ev).version == s.version
  {
  }

  /** Steps never change the providers or the version asked for. */
  lemma {:induction false} RunIsSteady(s: State, trace: seq<Event>)
    ensures Run(s, trace).Some? ==>
      Run(s, trace).value.providers == s.providers && Run(s, trace).value.version == s.version
  {
    if trace != [] {
      RunIsSteady(s, trace[..|trace| - 1]);
      if Run(s, trace).Some? {
        StepIsSteady(Run(s, trace[..|trace| - 1]).value, trace[|trace| - 1]);
      }
    }
  }

  // ---------------------------------------------------------------------------
  // Building runs
  // ---------------------------------------------------------------------------

  lemma RunOneMore(s: State, trace: seq<Event>, t: State, ev: Event)
    requires Run(s, trace) == Some(t) && Enabled(t, ev)
    ensures Run(s, trace + [ev]) == Some(Apply(t, ev))
  {
    assert (trace + [ev])[..|trace + [ev]| - 1] == trace;
  }

  lemma Then(providers: seq<Provider>, version: IpVersion, trace: seq<Event>, s: State, ev: Event)
    returns (longer: seq<Event>, t: State)
    requires Run(Init(providers, version, 0), trace) == Some(s) && Enabled(s, ev)
    ensures longer == trace + [ev]
    ensures t == Apply(s, ev) && Run(Init(providers, version, 0), longer) == Some(t)
  {
    longer, t := trace + [ev], Apply(s, ev);
    RunOneMore(Init(providers, version, 0), trace, s, ev);
  }

  /** Slots before `k` run on one channel, where nothing happened yet. */
  ghost predicate Launched(s: State, providers: seq<Provider>, version: IpVersion, k: nat) {
    && s.providers == providers && s.version == version && s.now == 0 && s.settled == []
    && |s.workers| == |providers|
    && (forall id: nat | id < |s.workers| :: s.workers[id] == if id < k then Running(0, None) else Idle)
    && (forall id: nat :: id in s.pending <==> id < k)
    && s.channels == [Channel([], 0, true, true)]
  }

  lemma LaunchedStep(s: State, providers: seq<Provider>, version: IpVersion, k: nat)
    requires Launched(s, providers, version, k) && k < |providers|
    ensures Enabled(s, Spawn(k, 0)) && Launched(Apply(s, Spawn(k, 0)), providers, version, k + 1)
  {
  }

  /** The spawn loop, at once and without a refusal. */
  lemma {:induction false} Launch(providers: seq<Provider>, version: IpVersion, k: nat)
    returns (trace: seq<Event>, s: State)
    requires k <= |providers|
    ensures Run(Init(providers, version, 0), trace) == Some(s) && Launched(s, providers, version, k)
    ensures forall ev <- trace :: !ev.Die?
    decreases k
  {
    if k == 0 {
      trace, s := Then(providers, version, [], Init(providers, version, 0), Open);
    } else {
      trace, s := Launch(providers, version, k - 1);
      LaunchedStep(s, providers, version, k - 1);
      trace, s := Then(providers, version, trace, s, Spawn(k - 1, 0));
    }
  }
}
