/** In what sense the race returns the fastest success. */
module RaceOrder {
  import opened Types
  import opened Workers
  import opened WorkerRuns
  import opened BlockingSlots
  import opened BlockingResolver

  /** When the worker of slot `id` sent its message. */
  function SentAt(s: State, id: nat): nat {
    if id < |s.workers| && s.workers[id].Finished? then s.workers[id].sentAt else 0
  }

  /** Messages are queued in the order in which they were sent. */
  ghost predicate InOrder(s: State) {
    forall c: nat, j: nat, k: nat | c < |s.channels| && j < k < |s.channels[c].log| ::
      SentAt(s, s.channels[c].log[j].id) <= SentAt(s, s.channels[c].log[k].id)
  }

  lemma SentAtIsKept(s: State, ev: Event, id: nat)
    requires Enabled(s, ev) && id < |s.workers| && s.workers[id].Finished?
    ensures SentAt(Apply(s, ev), id) == SentAt(s, id)
  {
  }

  /** Logs only grow, by a message that is sent now. */
  lemma LogsGrow(s: State, ev: Event, c: nat)
    requires Enabled(s, ev) && c < |Apply(s, ev).channels|
    ensures c >= |s.channels| ==> Apply(s, ev).channels[c].log == []
    ensures c < |s.channels| ==>
      var before := s.channels[c].log;
      var after := Apply(s, ev).channels[c].log;
      && |before| <= |after| <= |before| + 1 && before == after[..|before|]
      && (|after| > |before| ==> ev.Send? && after[|before|] == s.workers[ev.id].message)
  {
  }

  lemma LettersAreKept(s: State, ev: Event, c: nat, k: nat)
    requires Invariant(s) && Enabled(s, ev) && c < |s.channels| && k < |s.channels[c].log|
    ensures SentAt(Apply(s, ev), s.channels[c].log[k].id) == SentAt(s, s.channels[c].log[k].id) <= s.now
  {
    assert LetterOk(s, c, k);
    assert WorkerOk(s, s.channels[c].log[k].id);
    SentAtIsKept(s, ev, s.channels[c].log[k].id);
  }

  lemma StepKeepsOrder(s: State, ev: Event)
    requires Invariant(s) && InOrder(s) && Enabled(s, ev)
    ensures InOrder(Apply(s, ev))
  {
    var t := Apply(s, ev);
    forall c: nat, j: nat, k: nat | c < |t.channels| && j < k < |t.channels[c].log|
      ensures SentAt(t, t.channels[c].log[j].id) <= SentAt(t, t.channels[c].log[k].id)
    {
      LogsGrow(s, ev, c);
      LettersAreKept(s, ev, c, j);
      if k < |s.channels[c].log| {
        LettersAreKept(s, ev, c, k);
      } else {
        assert WorkerOk(s, ev.id);
      }
    }
  }

  lemma {:induction false} RunKeepsOrder(s: State, trace: seq<Event>)
    requires Invariant(s) && InOrder(s)
    ensures Run(s, trace).Some? ==> InOrder(Run(s, trace).value)
  {
    if trace != [] {
      var before := trace[..|trace| - 1];
      RunKeepsOrder(s, before);
      if Run(s, trace).Some? {
        RunKeeps(s, before);
        StepKeepsOrder(Run(s, before).value, trace[|trace| - 1]);
      }
    }
  }

  /**
   * The winner of a race was sent no later than any other valid message on the
   * channel, so its provider had finished by the time that one was sent.
   */
  lemma WinnerIsSentFirst(
      providers: seq<Provider>, version: IpVersion, now: nat, trace: seq<Event>, s: State,
      chan: nat, pr: ProviderResult, j: nat)
    returns (k: nat)
    requires Run(Init(providers, version, now), trace) == Some(s)
    requires chan < |s.channels| && IsFirstValid(version, s.channels[chan].log, pr)
    requires j < |s.channels[chan].log| && Judge(version, s.channels[chan].log[j]).Success?
    ensures k <= j && Judge(version, s.channels[chan].log[k]) == Success(pr)
    ensures
      var winner := s.channels[chan].log[k].id;
      && winner < |s.workers| && s.workers[winner].Finished?
      && s.workers[winner].start + pr.latency <= SentAt(s, winner) <= SentAt(s, s.channels[chan].log[j].id)
  {
    InitKeeps(providers, version, now);
    RunKeeps(Init(providers, version, now), trace);
    RunKeepsOrder(Init(providers, version, now), trace);
    k := FirstValid(version, s.channels[chan].log, pr, j);
    LetterOfWorker(s, chan, k);
  }

  lemma FirstValid(version: IpVersion, log: seq<Message>, pr: ProviderResult, j: nat) returns (k: nat)
    requires IsFirstValid(version, log, pr) && j < |log| && Judge(version, log[j]).Success?
    ensures k <= j && Judge(version, log[k]) == Success(pr)
  {
    var i: int :| 0 <= i < |log| && Judge(version, log[i]) == Success(pr)
      && forall l | 0 <= l < i :: Judge(version, log[l]).Failure?;
    k := i;
  }

  lemma LetterOfWorker(s: State, chan: nat, k: nat)
    requires Invariant(s) && chan < |s.channels| && k < |s.channels[chan].log|
    ensures
      var m := s.channels[chan].log[k];
      && m.id < |s.workers| && s.workers[m.id].Finished?
      && s.workers[m.id].letter == k
      && s.workers[m.id].start + m.latency <= SentAt(s, m.id)
  {
    assert LetterOk(s, chan, k);
    assert WorkerOk(s, s.channels[chan].log[k].id);
  }

  // ---------------------------------------------------------------------------
  // When the winner is the fastest
  // ---------------------------------------------------------------------------

  /** A run in which the race returns `pr`. */
  ghost predicate IsWon(
      providers: seq<Provider>, version: IpVersion, now: nat, trace: seq<Event>, s: State, pr: ProviderResult)
  {
    && Run(Init(providers, version, now), trace) == Some(s) && s.version == version
    && AllTried(s) && RaceOutcome(s, Success(pr))
  }

  /** In every run the winner has the smallest latency of all valid messages sent. */
  ghost predicate FastestWins(providers: seq<Provider>, version: IpVersion) {
    forall now: nat, trace: seq<Event>, s: State, pr: ProviderResult, j: nat |
      IsWon(providers, version, now, trace, s, pr) && j < |s.channels[0].log|
      && Judge(version, s.channels[0].log[j]).Success? ::
      pr.latency <= Judge(version, s.channels[0].log[j]).value.latency
  }

  lemma OnlyOneMessage(
      providers: seq<Provider>, version: IpVersion, now: nat, trace: seq<Event>, s: State, pr: ProviderResult, j: nat)
    requires |providers| <= 1 && IsWon(providers, version, now, trace, s, pr)
    requires j < |s.channels[0].log| && Judge(version, s.channels[0].log[j]).Success?
    ensures Judge(version, s.channels[0].log[j]) == Success(pr)
  {
    InitKeeps(providers, version, now);
    RunKeeps(Init(providers, version, now), trace);
    RunIsSteady(Init(providers, version, now), trace);
    var k := FirstValid(version, s.channels[0].log, pr, j);
    LetterOfWorker(s, 0, j);
    LetterOfWorker(s, 0, k);
    assert s.channels[0].log[j].id == 0 == s.channels[0].log[k].id;
  }

  function SomeAddress(version: IpVersion): (ip: IpAddr)
    ensures version.Matches(ip)
  {
    if version.OnlyV6? then V6([0, 0, 0, 0, 0, 0, 0, 0, 0, 0, 0, 0, 0, 0, 0, 0]) else V4([0, 0, 0, 0])
  }

  /** Thread 0 begins at time 0 and thread 1 at time 4; both are at work at time 5. */
  lemma TwoAtWork(providers: seq<Provider>, version: IpVersion) returns (trace: seq<Event>, s: State)
    requires |providers| >= 2
    ensures Run(Init(providers, version, 0), trace) == Some(s)
    ensures s.providers == providers && s.version == version && s.now == 5 && s.settled == [] && AllTried(s)
    ensures |s.workers| == |providers| && s.workers[0] == Running(0, Some(0)) && s.workers[1] == Running(0, Some(4))
    ensures s.channels == [Channel([], 0, false, true)]
  {
    trace, s := Launch(providers, version, |providers|);
    trace, s := Then(providers, version, trace, s, DropSender(0));
    trace, s := Then(providers, version, trace, s, Begin(0));
    assert s.workers[0] == Running(0, Some(0)) && s.workers[1] == Running(0, None) && AllTried(s);
    trace, s := Then(providers, version, trace, s, Tick(4));
    trace, s := Then(providers, version, trace, s, Begin(1));
    assert s.workers[0] == Running(0, Some(0)) && s.workers[1] == Running(0, Some(4)) && AllTried(s);
    trace, s := Then(providers, version, trace, s, Tick(1));
  }

  function Reported(providers: seq<Provider>, version: IpVersion, id: nat, latency: nat): Message
    requires id < |providers|
  {
    Report(id, providers[id], Answer(Success(SomeAddress(version))), latency)
  }

  /** Thread `id` answers at once. */
  lemma AnswerNow(providers: seq<Provider>, version: IpVersion, trace: seq<Event>, s: State, id: nat, begun: nat)
    returns (longer: seq<Event>, t: State)
    requires Run(Init(providers, version, 0), trace) == Some(s) && s.providers == providers
    requires |s.channels| == 1 && s.channels[0].open && begun <= s.now
    requires id < |s.workers| == |providers| && s.workers[id] == Running(0, Some(begun))
    ensures Run(Init(providers, version, 0), longer) == Some(t)
    ensures t == s.(workers := t.workers, channels := t.channels) && |t.workers| == |s.workers| && |t.channels| == 1
    ensures t.workers[id].Finished?
    ensures forall other: nat | other < |s.workers| && other != id :: t.workers[other] == s.workers[other]
    ensures t.channels[0] == s.channels[0].(log := s.channels[0].log + [Reported(providers, version, id, s.now - begun)])
  {
    longer, t := Then(providers, version, trace, s, Measure(id, Answer(Success(SomeAddress(version)))));
    assert t.workers[id] == Measured(0, begun, Reported(providers, version, id, s.now - begun));
    longer, t := Then(providers, version, longer, t, Send(id));
  }

  /** Both answer, thread 0 first, although it took longer. */
  lemma TwoAnswers(providers: seq<Provider>, version: IpVersion) returns (trace: seq<Event>, s: State)
    requires |providers| >= 2
    ensures Run(Init(providers, version, 0), trace) == Some(s)
    ensures s.version == version && s.settled == [] && AllTried(s) && |s.channels| == 1
    ensures s.channels[0] ==
      Channel([Reported(providers, version, 0, 5), Reported(providers, version, 1, 1)], 0, false, true)
  {
    trace, s := TwoAtWork(providers, version);
    trace, s := AnswerNow(providers, version, trace, s, 0, 0);
    trace, s := AnswerNow(providers, version, trace, s, 1, 4);
    assert s.channels[0].log == [Reported(providers, version, 0, 5), Reported(providers, version, 1, 1)];
  }

  /** With two providers or more the winner may be slower than another: threads begin one after the other. */
  lemma WinnerMayBeSlower(providers: seq<Provider>, version: IpVersion)
    returns (trace: seq<Event>, s: State, pr: ProviderResult)
    requires |providers| >= 2
    ensures IsWon(providers, version, 0, trace, s, pr)
    ensures |s.channels[0].log| == 2 && Judge(version, s.channels[0].log[1]).Success?
    ensures Judge(version, s.channels[0].log[1]).value.latency < pr.latency
  {
    trace, s := TwoAnswers(providers, version);
    ghost var before := s;
    pr := ProviderResult(SomeAddress(version), providers[0].name, providers[0].protocol, 5);
    assert Judge(version, s.channels[0].log[0]) == Success(pr);
    trace, s := Then(providers, version, trace, s, Receive(0));
    Recorded(before, s, 0, Success(pr));
    assert s.channels[0].log == before.channels[0].log;
  }

  /** So "the race returns the fastest success" holds exactly if at most one provider matches. */
  lemma FastestWinsExactly(providers: seq<Provider>, version: IpVersion)
    ensures FastestWins(providers, version) <==> |providers| <= 1
  {
    if |providers| <= 1 {
      forall now: nat, trace: seq<Event>, s: State, pr: ProviderResult, j: nat |
        IsWon(providers, version, now, trace, s, pr) && j < |s.channels[0].log|
        && Judge(version, s.channels[0].log[j]).Success?
        ensures pr.latency <= Judge(version, s.channels[0].log[j]).value.latency
      {
        OnlyOneMessage(providers, version, now, trace, s, pr, j);
      }
    } else {
      var trace, s, pr := WinnerMayBeSlower(providers, version);
      assert IsWon(providers, version, 0, trace, s, pr);
      assert !FastestWins(providers, version);
    }
  }
}
