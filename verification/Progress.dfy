/** What later steps cannot undo: what was sent, received and recorded stays so. */
module Progress {
  import opened Types
  import opened Workers

  /** From `w` to `v`, a worker of which `since` was the time at `w`. */
  ghost predicate SameWork(w: Worker, v: Worker, since: nat) {
    if w.Finished? then v == w.(exited := v.Finished? && v.exited)
    else if w.Running? || w.Measured? then v.Started() && v.chan == w.chan && (v.Finished? ==> v.sentAt >= since)
    else v == w
  }

  /** A worker that was not tried before may be by now. */
  ghost predicate LaterWork(w: Worker, v: Worker, since: nat) {
    w.Idle? || SameWork(w, v, since)
  }

  /**
   * What was sent and received stays so; the caller's sender does not come
   * back, and nothing reaches a receiver that is gone.
   */
  ghost predicate LaterChannel(c: Channel, d: Channel) {
    && c.log <= d.log && c.taken <= d.taken && (d.callerSends ==> c.callerSends)
    && (!c.open ==> !d.open && d.log == c.log)
  }

  ghost predicate Onward(a: State, b: State) {
    && b.providers == a.providers && b.version == a.version && a.now <= b.now
    && |b.workers| == |a.workers| && |a.channels| <= |b.channels|
    && (forall id: nat | id < |a.workers| :: LaterWork(a.workers[id], b.workers[id], a.now))
    && (forall c: nat | c < |a.channels| :: LaterChannel(a.channels[c], b.channels[c]))
    && a.settled <= b.settled
  }

  lemma OnwardTransitive(a: State, b: State, c: State)
    requires Onward(a, b) && Onward(b, c)
    ensures Onward(a, c)
  {
    forall id: nat | id < |a.workers| ensures LaterWork(a.workers[id], c.workers[id], a.now) {
      assert LaterWork(a.workers[id], b.workers[id], a.now) && LaterWork(b.workers[id], c.workers[id], b.now);
    }
    forall k: nat | k < |a.channels| ensures LaterChannel(a.channels[k], c.channels[k]) {
      assert LaterChannel(a.channels[k], b.channels[k]) && LaterChannel(b.channels[k], c.channels[k]);
    }
  }

  lemma StepIsLater(s: State, ev: Event, id: nat)
    requires Enabled(s, ev) && id < |s.workers|
    ensures |Apply(s, ev).workers| == |s.workers| && LaterWork(s.workers[id], Apply(s, ev).workers[id], s.now)
  {
  }

  lemma StepIsOnward(s: State, ev: Event)
    requires Enabled(s, ev)
    ensures Onward(s, Apply(s, ev))
  {
    hide LaterWork;
    forall id: nat | id < |s.workers| ensures LaterWork(s.workers[id], Apply(s, ev).workers[id], s.now) {
      StepIsLater(s, ev, id);
    }
  }

  /** Every run goes onward from each of its states. */
  lemma {:induction false} RunIsOnward(s: State, early: seq<Event>, trace: seq<Event>)
    requires early <= trace && Run(s, trace).Some?
    ensures Run(s, early).Some? && Onward(Run(s, early).value, Run(s, trace).value)
    decreases |trace|
  {
    if early != trace {
      var before := trace[..|trace| - 1];
      var t := Run(s, before).value;
      assert early <= before;
      RunIsOnward(s, early, before);
      StepIsOnward(t, trace[|trace| - 1]);
      OnwardTransitive(Run(s, early).value, t, Run(s, trace).value);
    } else {
      assert early == trace;
    }
  }

  // ---------------------------------------------------------------------------
  // Heard and unsent
  // ---------------------------------------------------------------------------

  /** The operating system refused the slot's thread. */
  ghost predicate Refused(s: State, t: Settled) {
    t.id < |s.workers| && s.workers[t.id].NotStarted? && t.outcome == Failure(s.workers[t.id].error)
  }

  /** The outcome is what the slot's received message says. */
  ghost predicate Told(s: State, t: Settled) {
    && t.id < |s.workers|
    && var w := s.workers[t.id];
       && w.Finished? && w.chan < |s.channels| && w.letter < s.channels[w.chan].taken
       && t.outcome == Judge(s.version, w.message)
  }

  ghost predicate Heard(s: State, t: Settled) {
    Refused(s, t) || Told(s, t)
  }

  /** Until `time` the slot's worker, though started, had sent nothing. */
  ghost predicate Unsent(s: State, id: nat, time: nat) {
    && id < |s.workers| && s.workers[id].Started()
    && (s.workers[id].Finished? ==> s.workers[id].sentAt >= time)
  }

  lemma HeardStays(a: State, b: State, t: Settled)
    requires Onward(a, b) && Heard(a, t)
    ensures Heard(b, t)
  {
    assert LaterWork(a.workers[t.id], b.workers[t.id], a.now);
  }

  lemma UnsentStays(a: State, b: State, id: nat, time: nat)
    requires Onward(a, b) && Unsent(a, id, time) && time <= a.now
    ensures Unsent(b, id, time)
  {
    assert LaterWork(a.workers[id], b.workers[id], a.now);
  }

  /** On a drained channel, whoever is still pending has not sent anything so far. */
  lemma DrainedIsUnsent(s: State, id: nat, chan: nat)
    requires Invariant(s) && WorksOn(s, id, chan) && id in s.pending
    requires s.channels[chan].open && s.channels[chan].taken >= |s.channels[chan].log|
    ensures Unsent(s, id, s.now) && !s.workers[id].Finished?
  {
    assert WorkerOk(s, id);
  }

  /** A slot whose message was received is settled by what it says. */
  lemma ReceivedIsSettled(s: State, i: nat)
    requires Invariant(s) && i < |s.settled| && s.settled[i].id < |s.workers|
    requires
      var w := s.workers[s.settled[i].id];
      w.Finished? && w.chan < |s.channels| && w.letter < s.channels[w.chan].taken
    ensures Told(s, s.settled[i])
  {
    var t := s.settled[i];
    var w := s.workers[t.id];
    assert WorkerOk(s, t.id);
    assert LetterOk(s, w.chan, w.letter);
    var j :| 0 <= j < |s.settled| && s.settled[j] == Settled(t.id, Judge(s.version, w.message));
    assert i == j;
  }
}
