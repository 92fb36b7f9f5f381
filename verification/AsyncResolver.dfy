/** The three strategies of the asynchronous resolver, over the poll combinators. */
module AsyncResolver {
  import opened Types
  import opened Tally
  import opened Configuration
  import opened Workers
  import opened Progress
  import opened Conservation
  import opened BlockingSlots
  import opened Futures
  import opened AsyncRace

  /** What becomes of one provider call: how it ends, after how many polls, and when. */
  datatype Call = Answered(outcome: Result<IpAddr, ProviderError>, polls: nat, latency: nat) | Elapsed(polls: nat)

  /** The future of a provider; with no time at all the provider is not even asked. */
  function ProviderFuture(provider: Provider, version: IpVersion, timeout: nat, call: Call): (f: Future<Outcome>)
    ensures f.Pending?
  {
    if timeout == 0 then Pending(0, Failure(TimeoutError(provider.name)))
    else
      Pending(call.polls,
        match call
        case Answered(Success(ip), _, latency) =>
          if !version.Matches(ip) then Failure(ProviderError(provider.name, "provider returned unexpected IP version"))
          else Success(ProviderResult(ip, provider.name, provider.protocol, latency))
        case Answered(Failure(e), _, _) => Failure(e)
        case Elapsed(_) => Failure(TimeoutError(provider.name)))
  }

  /** The futures of all matching providers; `calls[i]` is what becomes of the call of slot `i`, if it is made. */
  function ProviderFutures(providers: seq<Provider>, version: IpVersion, timeout: nat, calls: seq<Call>)
    : (futures: seq<Future<Outcome>>)
    requires |calls| == |providers|
    ensures |futures| == |providers| && AllPending(futures)
    ensures forall i | 0 <= i < |futures| :: futures[i] == ProviderFuture(providers[i], version, timeout, calls[i])
  {
    seq(|providers|, i requires 0 <= i < |providers| => ProviderFuture(providers[i], version, timeout, calls[i]))
  }

  /** The providers, and the slots of those whose `get_ip` was called. */
  class Network {
    const calls: seq<Call>
    var asked: seq<nat>

    constructor (calls: seq<Call>)
      ensures this.calls == calls && asked == []
    {
      this.calls := calls;
      asked := [];
    }

    method GetIp(i: nat) returns (call: Call)
      requires i < |calls|
      modifies this
      ensures call == calls[i] && asked == old(asked) + [i]
    {
      asked := asked + [i];
      call := calls[i];
    }
  }

  /** The slots asked when the first `n` futures are made. */
  ghost function Asked(timeout: nat, n: nat): seq<nat> {
    if timeout == 0 then [] else UpTo(n)
  }

  method MakeProviderFuture(network: Network, providers: seq<Provider>, i: nat, version: IpVersion, timeout: nat)
    returns (f: Future<Outcome>)
    requires i < |providers| == |network.calls| && network.asked == Asked(timeout, i)
    modifies network
    ensures f == ProviderFuture(providers[i], version, timeout, network.calls[i])
    ensures network.asked == Asked(timeout, i + 1)
  {
    var provider := providers[i];
    if timeout == 0 {
      return Pending(0, Failure(TimeoutError(provider.name)));
    }
    var call := network.GetIp(i);
    var output: Outcome;
    match call {
      case Answered(Success(ip), _, latency) =>
        if !version.Matches(ip) {
          output := Failure(ProviderError(provider.name, "provider returned unexpected IP version"));
        } else {
          output := Success(ProviderResult(ip, provider.name, provider.protocol, latency));
        }
      case Answered(Failure(e), _, _) =>
        output := Failure(e);
      case Elapsed(_) =>
        output := Failure(TimeoutError(provider.name));
    }
    f := Pending(call.polls, output);
    assert UpTo(i + 1) == UpTo(i) + [i];
  }

  /** All futures at once, as the race and the consensus make them. */
  method MakeAll(network: Network, providers: seq<Provider>, version: IpVersion, timeout: nat)
    returns (futures: seq<Future<Outcome>>)
    requires |providers| == |network.calls| && network.asked == []
    modifies network
    ensures futures == ProviderFutures(providers, version, timeout, network.calls)
    ensures network.asked == Asked(timeout, |providers|)
  {
    futures := [];
    for i := 0 to |providers|
      invariant network.asked == Asked(timeout, i)
      invariant futures == ProviderFutures(providers, version, timeout, network.calls)[..i]
    {
      var f := MakeProviderFuture(network, providers, i, version, timeout);
      futures := futures + [f];
    }
  }

  /**
   * Both resolvers make the same of the same answer: of a message from the
   * slot's worker, of a timeout, and of having no time at all; and the future
   * takes as many polls as the call.
   */
  lemma ResolversJudgeAlike(id: nat, provider: Provider, version: IpVersion, timeout: nat, call: Call)
    ensures ProviderFuture(provider, version, timeout, call).output ==
      if timeout == 0 || call.Elapsed? then Failure(ProviderError(provider.name, "timeout"))
      else Judge(version, Report(id, provider, Answer(call.outcome), call.latency))
    ensures ProviderFuture(provider, version, timeout, call).left == if timeout == 0 then 0 else call.polls
  {
  }

  /** The result is what the call of slot `i` brought: with its provider's name and protocol, of the right family. */
  ghost predicate IsCredited(
      providers: seq<Provider>, version: IpVersion, timeout: nat, calls: seq<Call>, i: nat, pr: ProviderResult)
  {
    && i < |providers| == |calls| && timeout > 0
    && calls[i].Answered? && calls[i].outcome == Success(pr.ip) && calls[i].latency == pr.latency
    && pr.provider == providers[i].name && pr.protocol == providers[i].protocol
    && (version.OnlyV4? ==> pr.ip.V4?) && (version.OnlyV6? ==> pr.ip.V6?)
  }

  lemma OutputIsCredited(
      providers: seq<Provider>, version: IpVersion, timeout: nat, calls: seq<Call>, i: nat, pr: ProviderResult)
    requires i < |providers| == |calls|
    requires ProviderFuture(providers[i], version, timeout, calls[i]).output == Success(pr)
    ensures IsCredited(providers, version, timeout, calls, i, pr)
  {
  }

  // ---------------------------------------------------------------------------
  // First
  // ---------------------------------------------------------------------------

  method Await<T>(f: Future<T>) returns (output: T)
    requires f.Pending?
    ensures output == f.output
  {
    var g := f;
    while true
      invariant g.Pending? && g.output == f.output
      decreases g.left
    {
      var r;
      g, r := Poll(g);
      if r.Some? {
        return r.value;
      }
    }
  }

  /**
   * The first success in order of configuration, or the error of every slot at
   * its index; `tried` of the futures were made.
   */
  ghost predicate FirstOutcome(futures: seq<Future<Outcome>>, tried: nat, r: Result<ProviderResult, Error>)
    requires AllPending(futures)
  {
    match r
    case Success(pr) =>
      && 0 < tried <= |futures| && futures[tried - 1].output == Success(pr)
      && forall j | 0 <= j < tried - 1 :: futures[j].output.Failure?
    case Failure(e) =>
      && e.AllProvidersFailed? && tried == |futures| == |e.errors|
      && forall i | 0 <= i < |futures| :: futures[i].output == Failure(e.errors[i])
  }

  /** Providers are asked one after the other, and none after the first success. */
  method ResolveFirst(network: Network, providers: seq<Provider>, version: IpVersion, timeout: nat)
    returns (r: Result<ProviderResult, Error>, ghost tried: nat)
    requires |providers| == |network.calls| && network.asked == []
    modifies network
    ensures FirstOutcome(ProviderFutures(providers, version, timeout, network.calls), tried, r)
    ensures network.asked == Asked(timeout, tried)
  {
    ghost var futures := ProviderFutures(providers, version, timeout, network.calls);
    var errors: seq<ProviderError> := [];
    for i := 0 to |providers|
      invariant network.asked == Asked(timeout, i)
      invariant |errors| == i && forall j | 0 <= j < i :: futures[j].output == Failure(errors[j])
    {
      var f := MakeProviderFuture(network, providers, i, version, timeout);
      var output := Await(f);
      match output {
        case Success(result) => return Success(result), i + 1;
        case Failure(e) => errors := errors + [e];
      }
    }
    r, tried := Failure(AllProvidersFailed(errors)), |providers|;
  }

  // ---------------------------------------------------------------------------
  // Consensus
  // ---------------------------------------------------------------------------

  /** A correct verdict on the outcomes in order of configuration. */
  method ResolveConsensus(futures: seq<Future<Outcome>>, minAgree: nat) returns (r: Result<ProviderResult, Error>)
    requires AllPending(futures)
    ensures r == Failure(NoProvidersForVersion) <==> futures == []
    ensures futures != [] ==> IsVerdict(Successes(Outputs(futures)), Failures(Outputs(futures)), minAgree, r)
  {
    if futures == [] {
      return Failure(NoProvidersForVersion);
    }
    var results, _ := JoinAllVec(futures);
    var groups: Groups := map[];
    var errors: seq<ProviderError> := [];
    for i := 0 to |results|
      invariant IsGrouping(groups, Successes(results[..i])) && errors == Failures(results[..i])
    {
      PartsAppend(results[..i], results[i]);
      assert results[..i + 1] == results[..i] + [results[i]];
      match results[i] {
        case Success(pr) =>
          PushGroups(groups, Successes(results[..i]), pr);
          groups := Push(groups, pr);
        case Failure(e) =>
          errors := errors + [e];
      }
    }
    assert results[..|results|] == results;
    r := Decide(groups, Successes(results), errors, minAgree);
  }

  // ---------------------------------------------------------------------------
  // The two resolvers agree
  // ---------------------------------------------------------------------------

  /** The address a call brings, if any. */
  function CallAddress(call: Call): Option<IpAddr> {
    match call
    case Answered(Success(ip), _, _) => Some(ip)
    case _ => None
  }

  /** The address the slot's worker was heard to report, if any. */
  function HeardAddress(s: State, id: nat): Option<IpAddr> {
    if id < |s.workers| && s.workers[id].Finished? && s.workers[id].chan < |s.channels|
       && s.workers[id].letter < s.channels[s.workers[id].chan].taken && s.workers[id].message.outcome.Success?
    then Some(s.workers[id].message.outcome.value) else None
  }

  /** Every slot reports to the blocking resolver what its call brings the asynchronous one; latencies may differ. */
  ghost predicate SameAnswers(s: State, timeout: nat, calls: seq<Call>) {
    && |calls| == |s.providers| == |s.workers|
    && forall id: nat | id < |calls| ::
         HeardAddress(s, id) == if timeout == 0 then None else CallAddress(calls[id])
  }

  /** What the futures of the same providers yield. */
  ghost function CallOutcomes(s: State, timeout: nat, calls: seq<Call>): seq<Outcome>
    requires |calls| == |s.providers|
  {
    Outputs(ProviderFutures(s.providers, s.version, timeout, calls))
  }

  lemma SameAddress(s: State, i: nat, timeout: nat, calls: seq<Call>)
    requires Invariant(s) && SameAnswers(s, timeout, calls) && i < |s.settled|
    ensures
      var id := s.settled[i].id;
      && id < |s.providers|
      && Address(s.settled[i].outcome) == Address(ProviderFuture(s.providers[id], s.version, timeout, calls[id]).output)
  {
    var t := s.settled[i];
    assert SettledOk(s, i);
    assert WorkerOk(s, t.id);
    var w := s.workers[t.id];
    if w.Finished? && w.letter < s.channels[w.chan].taken {
      ReceivedIsSettled(s, i);
    }
    ResolversJudgeAlike(t.id, s.providers[t.id], s.version, timeout, calls[t.id]);
  }

  /**
   * If every slot of a blocking consensus and of an asynchronous one reports
   * the same address or none, both succeed or both fail; failures report the
   * same `got` and equally many errors; successes report the same address if
   * the largest group is unique, and in any case if an absolute majority was
   * required.
   */
  lemma {:induction false} ConsensusesAgree(
      s: State, timeout: nat, calls: seq<Call>, minAgree: nat,
      blocking: Result<ProviderResult, Error>, async: Result<ProviderResult, Error>)
    requires Invariant(s) && Complete(s) && SameAnswers(s, timeout, calls)
    requires IsVerdict(Results(s), Errors(s), minAgree, blocking)
    requires
      IsVerdict(Successes(CallOutcomes(s, timeout, calls)), Failures(CallOutcomes(s, timeout, calls)), minAgree, async)
    ensures blocking.Success? <==> async.Success?
    ensures blocking.Failure? ==>
      blocking.error.got == async.error.got && |blocking.error.consensusErrors| == |async.error.consensusErrors|
    ensures blocking.Success? && IsUnique(Results(s), |Group(Results(s), blocking.value.ip)|) ==>
      blocking.value.ip == async.value.ip
    ensures blocking.Success? && 2 * minAgree > |s.providers| ==> blocking.value.ip == async.value.ip
  {
    var outputs := CallOutcomes(s, timeout, calls);
    AddressesArePermuted(s, timeout, calls);
    VerdictsAgree(Outcomes(s.settled), outputs, minAgree, blocking, async);
    if 2 * minAgree > |s.providers| {
      MajorityVerdictsAgree(Outcomes(s.settled), outputs, minAgree, blocking, async);
    }
  }

  lemma AddressesArePermuted(s: State, timeout: nat, calls: seq<Call>)
    requires Invariant(s) && Complete(s) && SameAnswers(s, timeout, calls)
    ensures multiset(Addresses(Outcomes(s.settled))) == multiset(Addresses(CallOutcomes(s, timeout, calls)))
  {
    forall i | 0 <= i < |s.settled|
      ensures s.settled[i].id < |calls|
      ensures Address(s.settled[i].outcome) == Address(CallOutcomes(s, timeout, calls)[s.settled[i].id])
    {
      SameAddress(s, i, timeout, calls);
    }
    SettlingPermutes(s.settled, CallOutcomes(s, timeout, calls));
  }

  // ---------------------------------------------------------------------------
  // The entry point
  // ---------------------------------------------------------------------------

  lemma {:induction false} WinnerIsAnOutput(futures: seq<Future<Outcome>>, pr: ProviderResult)
    requires Wins(futures, pr)
    ensures Success(pr) in Outputs(futures)
    decreases |futures|
  {
    var w: nat :| IsNext(futures, w) && WinsBy(futures, w, pr);
    match futures[w].output
    case Success(p) =>
      assert Outputs(futures)[w] == Success(pr);
    case Failure(_) =>
      var rest := SwapRemove(AtReady(futures, w), w);
      SelectingLeavesTheRest(futures, w);
      WinnerIsAnOutput(rest, pr);
      assert Success(pr) in multiset(Outputs(rest));
      assert Success(pr) in multiset(Outputs(futures));
  }

  /** A success of any strategy is the output of one of the futures. */
  lemma SuccessIsAnOutput(futures: seq<Future<Outcome>>, strategy: Strategy, tried: nat, pr: ProviderResult)
    requires AllPending(futures)
    requires match strategy
      case First => FirstOutcome(futures, tried, Success(pr))
      case Race => RaceOutcome(futures, Success(pr))
      case Consensus(minAgree) =>
        IsVerdict(Successes(Outputs(futures)), Failures(Outputs(futures)), minAgree, Success(pr))
    ensures Success(pr) in Outputs(futures)
  {
    match strategy
    case First =>
      assert Outputs(futures)[tried - 1] == Success(pr);
    case Race =>
      WinnerIsAnOutput(futures, pr);
    case Consensus(_) =>
      assert pr in Group(Successes(Outputs(futures)), pr.ip);
      assert pr in multiset(Successes(Outputs(futures)));
      SuccessCounts(Outputs(futures), pr);
      assert Success(pr) in multiset(Outputs(futures));
  }

  /** The network has what becomes of the calls of the matching providers. */
  method Resolve(config: Config, network: Network) returns (r: Result<ProviderResult, Error>, ghost tried: nat)
    requires |network.calls| == |Matching(config.providers, config.version)| && network.asked == []
    modifies network
    ensures r == Failure(NoProvidersForVersion) <==> Matching(config.providers, config.version) == []
    ensures network.calls != [] ==>
      var futures := ProviderFutures(
        Matching(config.providers, config.version), config.version, config.timeout, network.calls);
      match config.strategy
      case First => FirstOutcome(futures, tried, r)
      case Race => RaceOutcome(futures, r) && tried == |futures|
      case Consensus(minAgree) =>
        IsVerdict(Successes(Outputs(futures)), Failures(Outputs(futures)), minAgree, r) && tried == |futures|
    ensures network.asked == Asked(config.timeout, tried)
    ensures r.Success? ==> exists i ::
      IsCredited(Matching(config.providers, config.version), config.version, config.timeout, network.calls, i, r.value)
    ensures r.Success? ==> (config.version.OnlyV4? ==> r.value.ip.V4?) && (config.version.OnlyV6? ==> r.value.ip.V6?)
  {
    var providers := Matching(config.providers, config.version);
    tried := |providers|;
    if providers == [] {
      return Failure(NoProvidersForVersion), 0;
    }
    match config.strategy {
      case First =>
        r, tried := ResolveFirst(network, providers, config.version, config.timeout);
      case Race =>
        var futures := MakeAll(network, providers, config.version, config.timeout);
        r := ResolveRace(futures);
      case Consensus(minAgree) =>
        var futures := MakeAll(network, providers, config.version, config.timeout);
        r := ResolveConsensus(futures, minAgree);
    }
    if r.Success? {
      ghost var futures := ProviderFutures(providers, config.version, config.timeout, network.calls);
      SuccessIsAnOutput(futures, config.strategy, tried, r.value);
      ghost var i: nat :| i < |futures| && Outputs(futures)[i] == Success(r.value);
      OutputIsCredited(providers, config.version, config.timeout, network.calls, i, r.value);
    }
  }
}
