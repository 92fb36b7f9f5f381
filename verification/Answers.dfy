/** What the workers' messages say, traced back to what the providers did. */
module Answers {
  import opened Types
  import opened Workers
  import opened WorkerRuns
  import opened Conservation

  /** What is reported of a provider that returned something, or panicked. */
  ghost predicate Conveys(m: Message, reply: Reply, name: string) {
    match reply
    case Answer(outcome) => m.outcome == outcome
    case Panic => m.outcome == Failure(ProviderError(name, "provider panicked"))
  }

  /** A worker that has a message, sent or not. */
  predicate HasMessage(w: Worker) { w.Measured? || w.Finished? }

  /** Step `j` began the slot's thread at time `start`. */
  ghost predicate BeganAt(init: State, trace: seq<Event>, j: nat, id: nat, start: nat) {
    && j < |trace| && trace[j] == Begin(id)
    && Run(init, trace[..j]).Some? && Run(init, trace[..j]).value.now == start
  }

  /** At step `k` the slot's provider returned or panicked, and `m` conveys that, and the time since `start`. */
  ghost predicate ReturnedAt(init: State, trace: seq<Event>, k: nat, id: nat, start: nat, m: Message) {
    && k < |trace| && trace[k].Measure? && trace[k].id == id && id < |init.providers|
    && Run(init, trace[..k]).Some? && start + m.latency == Run(init, trace[..k]).value.now
    && Conveys(m, trace[k].reply, init.providers[id].name)
  }

  lemma PrefixOfMore(trace: seq<Event>, ev: Event, k: nat)
    requires k <= |trace|
    ensures (trace + [ev])[..k] == trace[..k]
  {
  }

  /** A worker is where its slot's last step has left it. */
  lemma OnlyOwnSteps(s: State, ev: Event, id: nat)
    requires Enabled(s, ev) && id < |s.workers|
    ensures
      var v := Apply(s, ev).workers[id];
      && (v.Running? && v.begun.Some? ==>
            v == s.workers[id] || (ev == Begin(id) && v.begun.value == s.now))
      && (v.Measured? ==>
            || v == s.workers[id]
            || (ev.Measure? && ev.id == id && s.workers[id].Running? && s.workers[id].begun == Some(v.start)))
      && (v.Finished? ==>
            HasMessage(s.workers[id]) && v.start == s.workers[id].start && v.message == s.workers[id].message)
      && (HasMessage(s.workers[id]) ==> HasMessage(v) && v.message == s.workers[id].message)
  {
  }

  lemma MeasureConveys(s: State, id: nat, reply: Reply)
    requires Enabled(s, Measure(id, reply))
    ensures
      var v := Apply(s, Measure(id, reply)).workers[id];
      && v.Measured? && s.workers[id].begun == Some(v.start) && v.start + v.message.latency == s.now
      && Conveys(v.message, reply, s.providers[id].name)
  {
  }

  lemma {:induction false} ThreadBegan(init: State, trace: seq<Event>, s: State, id: nat) returns (j: nat)
    requires Run(init, trace) == Some(s) && id < |s.workers| == |init.workers| && init.workers[id].Idle?
    requires s.workers[id].Running? && s.workers[id].begun.Some?
    ensures BeganAt(init, trace, j, id, s.workers[id].begun.value)
  {
    var before, ev := trace[..|trace| - 1], trace[|trace| - 1];
    var t := Run(init, before).value;
    assert trace == before + [ev];
    OnlyOwnSteps(t, ev, id);
    if s.workers[id] == t.workers[id] {
      j := ThreadBegan(init, before, t, id);
      PrefixOfMore(before, ev, j);
    } else {
      j := |before|;
    }
  }

  /**
   * Every message goes back to what its slot's provider returned, or to its
   * panic, and its latency is exactly the time from the thread's beginning to that.
   */
  lemma {:induction false} MessageIsTraced(init: State, trace: seq<Event>, s: State, id: nat) returns (j: nat, k: nat)
    requires Run(init, trace) == Some(s) && id < |s.workers| == |init.workers| && init.workers[id].Idle?
    requires HasMessage(s.workers[id])
    ensures j < k && BeganAt(init, trace, j, id, s.workers[id].start)
    ensures ReturnedAt(init, trace, k, id, s.workers[id].start, s.workers[id].message)
  {
    var before, ev := trace[..|trace| - 1], trace[|trace| - 1];
    var t := Run(init, before).value;
    assert trace == before + [ev];
    OnlyOwnSteps(t, ev, id);
    RunIsSteady(init, before);
    if HasMessage(t.workers[id]) {
      j, k := MessageIsTraced(init, before, t, id);
      PrefixOfMore(before, ev, j);
      PrefixOfMore(before, ev, k);
    } else {
      MeasureConveys(t, id, ev.reply);
      j := ThreadBegan(init, before, t, id);
      k := |before|;
      PrefixOfMore(before, ev, j);
    }
  }

  /** Conversely, what a provider did is what its slot's message says, for good. */
  lemma {:induction false} ReplyIsConveyed(init: State, trace: seq<Event>, s: State, id: nat, reply: Reply)
    requires Run(init, trace) == Some(s) && Measure(id, reply) in trace
    ensures id < |s.workers| && id < |s.providers| && HasMessage(s.workers[id])
    ensures Conveys(s.workers[id].message, reply, s.providers[id].name)
  {
    var before, ev := trace[..|trace| - 1], trace[|trace| - 1];
    var t := Run(init, before).value;
    assert trace == before + [ev];
    if Measure(id, reply) in before {
      ReplyIsConveyed(init, before, t, id, reply);
      OnlyOwnSteps(t, ev, id);
      StepIsSteady(t, ev);
    } else {
      assert ev == Measure(id, reply);
      MeasureConveys(t, id, reply);
    }
  }

  /** The provider of this slot returned this address. */
  ghost predicate Answered(trace: seq<Event>, id: nat, ip: IpAddr) {
    Measure(id, Answer(Success(ip))) in trace
  }

  /** A recorded result is what its slot's provider returned; nothing else makes one. */
  lemma SuccessWasAnswered(
      providers: seq<Provider>, version: IpVersion, now: nat, trace: seq<Event>, s: State, i: nat, pr: ProviderResult)
    requires Run(Init(providers, version, now), trace) == Some(s)
    requires i < |s.settled| && s.settled[i].outcome == Success(pr)
    ensures Answered(trace, s.settled[i].id, pr.ip)
  {
    var init := Init(providers, version, now);
    var id := s.settled[i].id;
    OutcomesAreAttributed(providers, version, now, trace, s, i);
    InitKeeps(providers, version, now);
    RunKeeps(init, trace);
    RunIsSteady(init, trace);
    var j, k := MessageIsTraced(init, trace, s, id);
    assert trace[k] == Measure(id, Answer(Success(pr.ip)));
  }

  /**
   * A provider that panicked has no success. Its slot fails with its panic, or
   * it timed out before its message was received.
   */
  lemma PanicIsAFailure(
      providers: seq<Provider>, version: IpVersion, now: nat, trace: seq<Event>, s: State, i: nat)
    requires Run(Init(providers, version, now), trace) == Some(s)
    requires i < |s.settled| && Measure(s.settled[i].id, Panic) in trace
    ensures s.settled[i].id < |providers| && s.settled[i].outcome.Failure?
    ensures
      var name := providers[s.settled[i].id].name;
      s.settled[i].outcome.error in {ProviderError(name, "provider panicked"), ProviderError(name, "timeout")}
  {
    var init := Init(providers, version, now);
    var id := s.settled[i].id;
    InitKeeps(providers, version, now);
    RunKeeps(init, trace);
    RunIsSteady(init, trace);
    ReplyIsConveyed(init, trace, s, id, Panic);
    assert SettledOk(s, i);
    assert WorkerOk(s, id);
  }

  /** All slots that agree on an address have a provider that returned it. */
  lemma AgreementWasAnswered(
      providers: seq<Provider>, version: IpVersion, now: nat, trace: seq<Event>, s: State, ip: IpAddr, id: nat)
    requires Run(Init(providers, version, now), trace) == Some(s)
    requires id in AgreeingSlots(s.settled, ip)
    ensures Answered(trace, id, ip)
  {
    var i: nat :| i < |s.settled| && s.settled[i].outcome.Success? && s.settled[i].outcome.value.ip == ip
      && s.settled[i].id == id;
    SuccessWasAnswered(providers, version, now, trace, s, i, s.settled[i].outcome.value);
  }
}
