/** The three strategies of the blocking resolver, against every schedule of its workers. */
module BlockingResolver {
  import opened Types
  import opened Tally
  import opened Configuration
  import opened Workers
  import opened WorkerRuns
  import opened Progress
  import opened Conservation
  import opened Answers
  import opened BlockingWorld
  import opened BlockingSlots
  import opened BlockingFirst

  /** Slots before `next` timed out without a worker, the others were not tried. */
  ghost predicate Skipping(s: State, next: nat, errors: seq<ProviderError>) {
    && |s.workers| == |s.providers| && next <= |s.workers|
    && (forall id: nat | id < |s.workers| :: s.workers[id].Idle? <==> next <= id)
    && s.pending == map[] && Results(s) == [] && errors == Errors(s)
    && errors == AllTimeouts(s.providers[..next])
  }

  lemma SkippedOne(s: State, mid: State, t: State, id: nat, errors: seq<ProviderError>)
    requires Skipping(s, id, errors) && id < |s.workers| && Quiet(s, mid)
    requires Enabled(mid, Skip(id)) && t == Apply(mid, Skip(id))
    ensures Skipping(t, id + 1, errors + [TimeoutError(s.providers[id].name)])
  {
    forall other: nat | other < |t.workers| ensures t.workers[other].Idle? <==> id + 1 <= other {
      QuietKeepsTried(s, mid, other);
    }
    Recorded(mid, t, id, Failure(TimeoutError(s.providers[id].name)));
    assert AllTimeouts(s.providers[..id + 1]) == AllTimeouts(s.providers[..id]) + [TimeoutError(s.providers[id].name)];
  }

  /** Without any time, every slot times out without a worker. */
  method SkipAll(world: World) returns (errors: seq<ProviderError>)
    requires world.Fresh()
    modifies world`state, world`trace
    ensures world.Valid() && Complete(world.state)
    ensures errors == AllTimeouts(world.state.providers) == Errors(world.state) && Results(world.state) == []
    ensures world.state.providers == old(world.state.providers)
  {
    world.Reached();
    errors := [];
    var id := 0;
    while id < |world.state.providers|
      invariant world.Valid() && world.state.providers == world.initial.providers
      invariant Skipping(world.state, id, errors)
      decreases |world.initial.providers| - id
    {
      ghost var before := world.state;
      ghost var mid := world.Act(Skip(id));
      SkippedOne(before, mid, world.state, id, errors);
      errors := errors + [TimeoutError(world.state.providers[id].name)];
      id := id + 1;
    }
    assert world.state.providers[..id] == world.state.providers;
    world.Reached();
    CompleteWhenSettled(world.state);
  }

  // ---------------------------------------------------------------------------
  // Race
  // ---------------------------------------------------------------------------

  /** `pr` is what the first valid message on the channel says, in the order the messages were sent. */
  ghost predicate IsFirstValid(version: IpVersion, log: seq<Message>, pr: ProviderResult) {
    exists k ::
      && 0 <= k < |log| && Judge(version, log[k]) == Success(pr)
      && forall j | 0 <= j < k :: Judge(version, log[j]).Failure?
  }

  lemma {:induction false} NoSuccess(outcomes: seq<Outcome>, x: Outcome)
    requires Successes(outcomes) == [] && x in outcomes
    ensures x.Failure?
  {
    if outcomes[0] != x {
      NoSuccess(outcomes[1..], x);
    }
  }

  /** As long as only failures were recorded, every message received so far was one. */
  lemma WinnerIsFirst(mid: State, pr: ProviderResult)
    requires Invariant(mid) && Enabled(mid, Receive(0)) && Results(mid) == []
    requires Judge(mid.version, mid.channels[0].log[mid.channels[0].taken]) == Success(pr)
    ensures IsFirstValid(mid.version, mid.channels[0].log, pr)
  {
    var k := mid.channels[0].taken;
    forall j: nat | j < k ensures Judge(mid.version, mid.channels[0].log[j]).Failure? {
      assert LetterOk(mid, 0, j);
      var x := Judge(mid.version, mid.channels[0].log[j]);
      var i :| 0 <= i < |mid.settled| && mid.settled[i] == Settled(mid.channels[0].log[j].id, x);
      assert Outcomes(mid.settled)[i] == x;
      NoSuccess(Outcomes(mid.settled), x);
    }
  }

  /**
   * The first valid message's result and no other was recorded, as the last
   * outcome of all; or every slot failed and has its error listed.
   */
  ghost predicate RaceOutcome(s: State, r: Result<ProviderResult, Error>) {
    match r
    case Success(pr) =>
      && |s.channels| == 1 && Results(s) == [pr] && IsFirstValid(s.version, s.channels[0].log, pr)
      && s.settled[|s.settled| - 1].outcome == Success(pr)
    case Failure(e) =>
      e == AllProvidersFailed(Errors(s)) && Complete(s) && Results(s) == [] && |e.errors| == |s.providers|
  }

  /**
   * The race's receive loop, up to its winner or its deadline. Waiting never
   * adds up to more than what was left when the loop started.
   */
  method RaceLoop(world: World, all: map<nat, string>, early: seq<ProviderError>, deadline: Option<nat>)
    returns (winner: Option<ProviderResult>, pending: map<nat, string>, errors: seq<ProviderError>)
    requires world.Valid() && Receiving(world.state)
    requires all == world.state.pending && early == Errors(world.state) && Results(world.state) == []
    requires |world.looks| > 0 && UpToDate(world.state.now, world.looks, world.waits, deadline)
    modifies world`state, world`trace, world`looks, world`waits, world`waited
    ensures world.Valid() && Receiving(world.state)
    ensures |world.looks| > 0 && world.looks[0] == old(world.looks)[0]
    ensures winner.Some? ==>
      && RaceOutcome(world.state, Success(winner.value))
      && UpToDate(world.state.now, world.looks, world.waits, deadline)
    ensures winner.None? ==>
      && pending == world.state.pending && errors == Errors(world.state) && Results(world.state) == []
      && Stopped(world.state, world.looks, world.waits, deadline)
    ensures world.waited - old(world.waited) <= Remaining(deadline, old(world.state.now))
    ensures Remaining(deadline, old(world.state.now)) == 0 ==>
      winner.None? && world.state.channels[0].taken == old(world.state.channels[0].taken)
  {
    hide Run, SameWork, Invariant, UpToDate, Stopped, AllHeard, AllTried, IsFirstValid;
    pending, errors := all, early;
    while pending != map[]
      invariant world.Valid() && Receiving(world.state)
      invariant pending == world.state.pending && errors == Errors(world.state) && Results(world.state) == []
      invariant UpToDate(world.state.now, world.looks, world.waits, deadline)
      invariant |world.looks| > 0 && world.looks[0] == old(world.looks)[0]
      invariant old(world.waited) <= world.waited
      invariant InTime(world.waited - old(world.waited), old(world.state.now), world.state.now, deadline)
      invariant Remaining(deadline, old(world.state.now)) == 0 ==>
        world.state.channels[0].taken == old(world.state.channels[0].taken)
      decreases |pending|
    {
      var turn, mid := TakeTurn(world, deadline);
      match turn {
        case NoTimeLeft =>
          return None, pending, errors;
        case Waited(TimedOut) =>
          return None, pending, errors;
        case Waited(Disconnected) =>
          return None, pending, errors;
        case Waited(Got(m)) =>
          pending := pending - {m.id};
          match m.outcome {
            case Success(ip) =>
              match ValidateIp(m.name, world.state.version, ip) {
                case Success(ip) =>
                  WinnerIsFirst(mid, ProviderResult(ip, m.name, m.protocol, m.latency));
                  return Some(ProviderResult(ip, m.name, m.protocol, m.latency)), pending, errors;
                case Failure(error) =>
                  errors := errors + [error];
              }
            case Failure(error) =>
              errors := errors + [error];
          }
      }
    }
    StoppedWithNobodyPending(world.state, world.looks, world.waits, deadline);
    winner := None;
  }

  /** A thread was asked for for each of `n` slots, and then, since `start`, the clock was looked at. */
  ghost predicate AllAsked(spawns: seq<Attempt>, n: nat, start: nat, look: nat) {
    start <= look && AllAttempted(spawns, n, look)
  }

  /** No message was received: every slot was refused its thread or timed out. */
  ghost predicate NobodyAnswered(s: State) {
    && |s.channels| == 1 && s.channels[0].taken == 0
    && forall t <- s.settled :: Refused(s, t) || IsTimeout(s, t)
  }

  /**
   * A thread was asked for for every slot; then the first look at the clock set
   * the deadline; and then no message sent before it was missed. Without any
   * time nobody is asked; without a representable deadline nobody is heard.
   */
  ghost predicate Diligent(world: World, start: nat, timeout: nat, maxInstant: nat)
    reads world
  {
    var s := world.state;
    if timeout == 0 then world.spawns == [] && world.waits == []
    else
      && |world.looks| > 0 && AllAsked(world.spawns, |s.providers|, start, world.looks[0]) && NoneSkipped(s)
      && NothingMissed(s, world.looks, world.waits, CheckedAdd(world.looks[0], timeout, maxInstant))
      && (start + timeout > maxInstant ==> NobodyAnswered(s))
  }

  /** The clock is looked at for the first time, which sets the deadline. */
  method SetDeadline(world: World, ghost start: nat, timeout: nat, maxInstant: nat)
    returns (deadline: Option<nat>)
    requires world.Valid() && Receiving(world.state) && start <= world.state.now
    requires AllAttempted(world.spawns, |world.state.providers|, world.state.now)
    requires world.looks == [] && world.waits == []
    modifies world`state, world`trace, world`looks
    ensures world.Valid() && Receiving(world.state) && |world.looks| == 1 && world.waits == []
    ensures deadline == CheckedAdd(world.looks[0], timeout, maxInstant)
    ensures world.looks[0] == world.state.now
    ensures UpToDate(world.state.now, world.looks, world.waits, deadline)
    ensures AllAsked(world.spawns, |world.state.providers|, start, world.looks[0])
    ensures world.state == old(world.state).(
      now := world.state.now, workers := world.state.workers, channels := world.state.channels)
    ensures world.state.channels[0].taken == old(world.state.channels[0].taken)
  {
    ghost var started := world.state;
    var now := world.Now();
    StillReceiving(started, world.state);
    deadline := CheckedAdd(now, timeout, maxInstant);
  }

  lemma NothingTaken(s: State, looks: seq<nat>, waits: seq<Wait>, deadline: Option<nat>)
    requires Invariant(s) && NothingMissed(s, looks, waits, deadline) && s.channels[0].taken == 0
    ensures NobodyAnswered(s)
  {
    forall t <- s.settled ensures Refused(s, t) || IsTimeout(s, t) {
      assert AccountedFor(s, t, looks, waits, deadline);
    }
  }

  /** Every turn brought a message, and the last one the winner's. */
  lemma WinnerIsDiligent(world: World, start: nat, timeout: nat, maxInstant: nat)
    requires world.Valid() && Receiving(world.state) && timeout > 0 && start + timeout <= maxInstant
    requires |world.looks| > 0 && AllAsked(world.spawns, |world.state.providers|, start, world.looks[0])
    requires
      UpToDate(world.state.now, world.looks, world.waits, CheckedAdd(world.looks[0], timeout, maxInstant))
    ensures Diligent(world, start, timeout, maxInstant) && !GaveUp(world.looks, world.waits)
  {
    world.Reached();
    NobodySkipped(world.state, world.looks, world.waits, CheckedAdd(world.looks[0], timeout, maxInstant));
  }

  /** After receiving had stopped at `last`, rightly so, whoever was pending was given up. */
  lemma LoserIsDiligent(
      world: World, last: State, trace: seq<Event>, start: nat, timeout: nat, maxInstant: nat)
    requires world.Valid() && trace <= world.trace && Run(world.initial, trace) == Some(last) && timeout > 0
    requires |world.looks| > 0 && AllAsked(world.spawns, |world.state.providers|, start, world.looks[0])
    requires Receiving(last)
    requires Stopped(last, world.looks, world.waits, CheckedAdd(world.looks[0], timeout, maxInstant))
    requires SettlesFrom(last, world.state) && world.state.pending == map[] && Closed(world.state)
    requires start + timeout > maxInstant ==> world.state.channels[0].taken == 0
    ensures Diligent(world, start, timeout, maxInstant)
  {
    var deadline := CheckedAdd(world.looks[0], timeout, maxInstant);
    world.Reached();
    world.WentOnward(trace, last);
    InitKeeps(world.initial.providers, world.initial.version, world.initial.now);
    RunKeeps(world.initial, trace);
    StoppedMissesNothing(last, world.state, world.looks, world.waits, deadline);
    NobodySkipped(world.state, world.looks, world.waits, deadline);
    if start + timeout > maxInstant {
      NothingTaken(world.state, world.looks, world.waits, deadline);
    }
  }

  /**
   * The race returns what the first valid message says, in the order of
   * sending; or it fails with exactly one error per slot.
   */
  method ResolveRace(world: World, timeout: nat, maxInstant: nat) returns (r: Result<ProviderResult, Error>)
    requires world.Fresh()
    modifies world
    ensures world.Valid()
    ensures r == Failure(NoProvidersForVersion) <==> world.state.providers == []
    ensures world.state.providers != [] ==> RaceOutcome(world.state, r)
    ensures world.state.providers != [] ==> Diligent(world, old(world.state.now), timeout, maxInstant)
    ensures r.Success? ==> !GaveUp(world.looks, world.waits)
    ensures world.state.providers != [] && timeout == 0 ==>
      r == Failure(AllProvidersFailed(AllTimeouts(world.state.providers)))
    ensures timeout > 0 && old(world.state.now) + timeout > maxInstant ==> r.Failure?
    ensures world.waited - old(world.waited) <= timeout
  {
    hide IsFirstValid, AllAsked, UpToDate, Stopped, SettlesFrom, GaveUp, NothingMissed, AllTried, AllHeard, Invariant, Run;
    world.Reached();
    if world.state.providers == [] {
      return Failure(NoProvidersForVersion);
    }
    if timeout == 0 {
      var errors := SkipAll(world);
      world.Reached();
      return Failure(AllProvidersFailed(errors));
    }
    ghost var start := world.state.now;
    var pending, errors := SpawnAll(world);
    var deadline := SetDeadline(world, start, timeout, maxInstant);
    var winner;
    winner, pending, errors := RaceLoop(world, pending, errors, deadline);
    ghost var last, trace := world.state, world.trace;
    world.Reached();
    if winner.Some? {
      WinnerIsDiligent(world, start, timeout, maxInstant);
      return Success(winner.value);
    }
    errors := TimeOutRest(world, pending, errors);
    world.Reached();
    LoserIsDiligent(world, last, trace, start, timeout, maxInstant);
    r := Failure(AllProvidersFailed(errors));
  }

  // ---------------------------------------------------------------------------
  // Consensus
  // ---------------------------------------------------------------------------

  /** Where the consensus puts a message: into the group of its address, or to the errors. */
  method File(
      groups: Groups, errors: seq<ProviderError>, version: IpVersion, m: Message, ghost results: seq<ProviderResult>)
    returns (newGroups: Groups, newErrors: seq<ProviderError>)
    requires IsGrouping(groups, results)
    ensures match Judge(version, m)
      case Success(pr) => newErrors == errors && IsGrouping(newGroups, results + [pr])
      case Failure(e) => newErrors == errors + [e] && newGroups == groups
  {
    newGroups, newErrors := groups, errors;
    match m.outcome {
      case Success(ip) =>
        match ValidateIp(m.name, version, ip) {
          case Success(ip) =>
            var pr := ProviderResult(ip, m.name, m.protocol, m.latency);
            PushGroups(groups, results, pr);
            newGroups := Push(groups, pr);
          case Failure(error) =>
            newErrors := newErrors + [error];
        }
      case Failure(error) =>
        newErrors := newErrors + [error];
    }
  }

  /** The consensus receive loop: it has no early exit, and groups the results by address as they come in. */
  method ConsensusLoop(world: World, all: map<nat, string>, early: seq<ProviderError>, deadline: Option<nat>)
    returns (groups: Groups, pending: map<nat, string>, errors: seq<ProviderError>)
    requires world.Valid() && Receiving(world.state)
    requires all == world.state.pending && early == Errors(world.state) && Results(world.state) == []
    requires |world.looks| > 0 && UpToDate(world.state.now, world.looks, world.waits, deadline)
    modifies world`state, world`trace, world`looks, world`waits, world`waited
    ensures world.Valid() && Receiving(world.state)
    ensures |world.looks| > 0 && world.looks[0] == old(world.looks)[0]
    ensures pending == world.state.pending && errors == Errors(world.state)
    ensures IsGrouping(groups, Results(world.state))
    ensures Stopped(world.state, world.looks, world.waits, deadline)
    ensures world.waited - old(world.waited) <= Remaining(deadline, old(world.state.now))
    ensures Remaining(deadline, old(world.state.now)) == 0 ==>
      world.state.channels[0].taken == old(world.state.channels[0].taken)
  {
    hide Run, SameWork, Invariant, UpToDate, Stopped, AllHeard, AllTried;
    groups, pending, errors := map[], all, early;
    while pending != map[]
      invariant world.Valid() && Receiving(world.state)
      invariant pending == world.state.pending && errors == Errors(world.state)
      invariant IsGrouping(groups, Results(world.state))
      invariant UpToDate(world.state.now, world.looks, world.waits, deadline)
      invariant |world.looks| > 0 && world.looks[0] == old(world.looks)[0]
      invariant old(world.waited) <= world.waited
      invariant InTime(world.waited - old(world.waited), old(world.state.now), world.state.now, deadline)
      invariant Remaining(deadline, old(world.state.now)) == 0 ==>
        world.state.channels[0].taken == old(world.state.channels[0].taken)
      decreases |pending|
    {
      ghost var results := Results(world.state);
      var turn, mid := TakeTurn(world, deadline);
      match turn {
        case NoTimeLeft =>
          return;
        case Waited(TimedOut) =>
          return;
        case Waited(Disconnected) =>
          return;
        case Waited(Got(m)) =>
          pending := pending - {m.id};
          groups, errors := File(groups, errors, world.state.version, m, results);
      }
    }
    StoppedWithNobodyPending(world.state, world.looks, world.waits, deadline);
  }

  /**
   * The consensus is a correct verdict on the outcomes of all slots, whatever
   * the order they arrived in and the order the groups are looked at.
   */
  method ResolveConsensus(world: World, timeout: nat, maxInstant: nat, minAgree: nat)
    returns (r: Result<ProviderResult, Error>)
    requires world.Fresh()
    modifies world
    ensures world.Valid()
    ensures r == Failure(NoProvidersForVersion) <==> world.state.providers == []
    ensures world.state.providers != [] ==>
      Complete(world.state) && IsVerdict(Results(world.state), Errors(world.state), minAgree, r)
    ensures world.state.providers != [] ==> Diligent(world, old(world.state.now), timeout, maxInstant)
    ensures world.state.providers != [] && timeout == 0 ==>
      r == Failure(ConsensusNotReached(minAgree, 0, AllTimeouts(world.state.providers)))
    ensures world.waited - old(world.waited) <= timeout
  {
    hide AllAsked, UpToDate, Stopped, SettlesFrom, GaveUp, NothingMissed, AllTried, AllHeard, Invariant, Run;
    world.Reached();
    if world.state.providers == [] {
      return Failure(NoProvidersForVersion);
    }
    if timeout == 0 {
      var errors := SkipAll(world);
      world.Reached();
      return Failure(ConsensusNotReached(minAgree, 0, errors));
    }
    ghost var start := world.state.now;
    var pending, errors := SpawnAll(world);
    var deadline := SetDeadline(world, start, timeout, maxInstant);
    var groups;
    groups, pending, errors := ConsensusLoop(world, pending, errors, deadline);
    ghost var last, trace := world.state, world.trace;
    world.Reached();
    errors := TimeOutRest(world, pending, errors);
    world.Reached();
    LoserIsDiligent(world, last, trace, start, timeout, maxInstant);
    r := Decide(groups, Results(world.state), errors, minAgree);
  }

  /** The result is what a slot's own provider returned: with its name and protocol, and of the right family. */
  ghost predicate IsCredited(s: State, trace: seq<Event>, t: Settled, pr: ProviderResult) {
    && t in s.settled && t.outcome == Success(pr) && t.id < |s.providers|
    && pr.provider == s.providers[t.id].name && pr.protocol == s.providers[t.id].protocol
    && (s.version.OnlyV4? ==> pr.ip.V4?) && (s.version.OnlyV6? ==> pr.ip.V6?)
    && SentBy(s, t.id, Message(t.id, pr.provider, pr.protocol, Success(pr.ip), pr.latency))
    && Answered(trace, t.id, pr.ip)
  }

  lemma SettledIsCredited(world: World, i: nat, pr: ProviderResult)
    requires world.Valid() && i < |world.state.settled| && world.state.settled[i].outcome == Success(pr)
    ensures IsCredited(world.state, world.trace, world.state.settled[i], pr)
  {
    var init := world.initial;
    world.Reached();
    OutcomesAreAttributed(init.providers, init.version, init.now, world.trace, world.state, i);
    SuccessWasAnswered(init.providers, init.version, init.now, world.trace, world.state, i, pr);
  }

  lemma ResultIsCredited(world: World, pr: ProviderResult)
    requires world.Valid() && pr in Results(world.state)
    ensures exists t :: IsCredited(world.state, world.trace, t, pr)
  {
    var settled := world.state.settled;
    assert pr in multiset(Results(world.state));
    SuccessCounts(Outcomes(settled), pr);
    assert Success(pr) in multiset(Outcomes(settled));
    var i: nat :| i < |settled| && Outcomes(settled)[i] == Success(pr);
    SettledIsCredited(world, i, pr);
  }

  /** An agreed address was reported by at least `minAgree` different slots, and is the result of one of them. */
  lemma ConsensusIsOfDistinctSlots(s: State, minAgree: nat, pr: ProviderResult)
    requires Complete(s) && IsVerdict(Results(s), Errors(s), minAgree, Success(pr))
    ensures |AgreeingSlots(s.settled, pr.ip)| >= minAgree
    ensures pr in Results(s)
  {
    GroupIsDistinctSlots(s.settled, pr.ip);
  }

  // ---------------------------------------------------------------------------
  // The entry point
  // ---------------------------------------------------------------------------

  lemma SuccessIsCredited(world: World, strategy: Strategy, pr: ProviderResult)
    requires world.Valid()
    requires match strategy
      case First => FirstOutcome(world.state, Success(pr))
      case Race => RaceOutcome(world.state, Success(pr))
      case Consensus(minAgree) =>
        Complete(world.state) && IsVerdict(Results(world.state), Errors(world.state), minAgree, Success(pr))
    ensures exists t :: IsCredited(world.state, world.trace, t, pr)
    ensures strategy.Consensus? ==> IsAnsweredBy(world, strategy.minAgree, pr.ip)
  {
    var s := world.state;
    match strategy
    case First =>
      var i: nat :| i < |s.providers| && Trying(s, i + 1) && s.settled[i] == Settled(i, Success(pr));
      SettledIsCredited(world, i, pr);
    case Race =>
      ResultIsCredited(world, pr);
    case Consensus(minAgree) =>
      ConsensusIsOfDistinctSlots(s, minAgree, pr);
      ResultIsCredited(world, pr);
      forall id | id in AgreeingSlots(s.settled, pr.ip) ensures Answered(world.trace, id, pr.ip) {
        var init := world.initial;
        AgreementWasAnswered(init.providers, init.version, init.now, world.trace, s, pr.ip, id);
      }
  }

  /** At least `n` slots agree on the address, and the provider of each of them returned it. */
  ghost predicate IsAnsweredBy(world: World, n: nat, ip: IpAddr)
    reads world
  {
    && |AgreeingSlots(world.state.settled, ip)| >= n
    && forall id <- AgreeingSlots(world.state.settled, ip) :: Answered(world.trace, id, ip)
  }

  /** What a resolver without any time fails with. */
  function NoTime(strategy: Strategy, providers: seq<Provider>): Error {
    match strategy
    case Consensus(minAgree) => ConsensusNotReached(minAgree, 0, AllTimeouts(providers))
    case _ => AllProvidersFailed(AllTimeouts(providers))
  }

  method Resolve(config: Config, now: nat, maxInstant: nat) returns (world: World, r: Result<ProviderResult, Error>)
    ensures world.Valid() && world.state.providers == Matching(config.blockingProviders, config.version)
    ensures r == Failure(NoProvidersForVersion) <==> Matching(config.blockingProviders, config.version) == []
    ensures world.state.version == config.version
    ensures world.state.providers != [] ==>
      match config.strategy
      case First => FirstOutcome(world.state, r)
      case Race => RaceOutcome(world.state, r)
      case Consensus(minAgree) =>
        Complete(world.state) && IsVerdict(Results(world.state), Errors(world.state), minAgree, r)
    ensures config.strategy.First? ==> AllTended(world.state, world.spawns, world.waits, config.timeout)
    ensures !config.strategy.First? && world.state.providers != [] ==>
      Diligent(world, now, config.timeout, maxInstant)
    ensures config.timeout > 0 ==> NoneSkipped(world.state)
    ensures world.state.providers != [] && config.timeout == 0 ==>
      world.spawns == [] && world.waits == [] && r == Failure(NoTime(config.strategy, world.state.providers))
    ensures r.Success? ==> exists t :: IsCredited(world.state, world.trace, t, r.value)
    ensures r.Success? && config.strategy.Consensus? ==> IsAnsweredBy(world, config.strategy.minAgree, r.value.ip)
    ensures r.Success? ==> (config.version.OnlyV4? ==> r.value.ip.V4?) && (config.version.OnlyV6? ==> r.value.ip.V6?)
    ensures world.waited <=
      if config.strategy.First? then config.timeout * |world.state.providers| else config.timeout
  {
    world := new World(Matching(config.blockingProviders, config.version), config.version, now);
    if world.state.providers == [] {
      return world, Failure(NoProvidersForVersion);
    }
    match config.strategy {
      case First => r := ResolveFirst(world, config.timeout);
      case Race => r := ResolveRace(world, config.timeout, maxInstant);
      case Consensus(minAgree) => r := ResolveConsensus(world, config.timeout, maxInstant, minAgree);
    }
    world.Reached();
    if r.Success? {
      SuccessIsCredited(world, config.strategy, r.value);
    }
  }
}
