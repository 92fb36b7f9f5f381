/** The configuration, and the builder that is the only way to make one. */
module Configuration {
  import opened Types

  datatype Strategy = First | Race | Consensus(minAgree: nat)

  datatype Config = Config(
    blockingProviders: seq<Provider>, providers: seq<Provider>,
    timeout: nat, version: IpVersion, strategy: Strategy)

  datatype ProviderFilter = Protocols(protocols: seq<Protocol>) | Select(selected: seq<Provider>)

  // ---------------------------------------------------------------------------
  // Filtering providers
  // ---------------------------------------------------------------------------

  function Filter(providers: seq<Provider>, keep: Provider -> bool): seq<Provider> {
    if providers == [] then []
    else if keep(providers[0]) then [providers[0]] + Filter(providers[1..], keep)
    else Filter(providers[1..], keep)
  }

  function Supporting(version: IpVersion): Provider -> bool { (p: Provider) => p.Supports(version) }

  function UsingOneOf(protocols: seq<Protocol>): Provider -> bool { (p: Provider) => p.protocol in protocols }

  function Both(first: Provider -> bool, second: Provider -> bool): Provider -> bool {
    (p: Provider) => first(p) && second(p)
  }

  function Matching(providers: seq<Provider>, version: IpVersion): seq<Provider> {
    Filter(providers, Supporting(version))
  }

  /** The places of the providers to keep, in order. */
  ghost predicate ArePicks(providers: seq<Provider>, keep: Provider -> bool, picks: seq<nat>) {
    && (forall i, j | 0 <= i < j < |picks| :: picks[i] < picks[j])
    && (forall i | 0 <= i < |picks| :: picks[i] < |providers|)
    && (forall k: nat | k < |providers| :: keep(providers[k]) <==> k in picks)
  }

  function Shift(picks: seq<nat>): (shifted: seq<nat>)
    ensures |shifted| == |picks| && forall i | 0 <= i < |picks| :: shifted[i] == picks[i] + 1
  {
    seq(|picks|, i requires 0 <= i < |picks| => picks[i] + 1)
  }

  lemma ShiftedIn(picks: seq<nat>, k: nat)
    ensures k in Shift(picks) <==> k > 0 && k - 1 in picks
  {
    if k > 0 && k - 1 in picks {
      var i :| 0 <= i < |picks| && picks[i] == k - 1;
      assert Shift(picks)[i] == k;
    }
  }

  /** The providers at these places. */
  function At(providers: seq<Provider>, picks: seq<nat>): seq<Provider>
    requires forall i | 0 <= i < |picks| :: picks[i] < |providers|
  {
    seq(|picks|, i requires 0 <= i < |picks| => providers[picks[i]])
  }

  lemma ShiftedPicks(providers: seq<Provider>, keep: Provider -> bool, picks: seq<nat>)
    requires providers != [] && ArePicks(providers[1..], keep, picks)
    ensures ArePicks(providers, keep, if keep(providers[0]) then [0] + Shift(picks) else Shift(picks))
  {
    forall k: nat | k < |providers|
      ensures keep(providers[k]) <==> k in if keep(providers[0]) then [0] + Shift(picks) else Shift(picks)
    {
      ShiftedIn(picks, k);
      if k > 0 {
        assert providers[k] == providers[1..][k - 1];
      }
    }
  }

  lemma ShiftedAt(providers: seq<Provider>, picks: seq<nat>)
    requires providers != [] && forall i | 0 <= i < |picks| :: picks[i] < |providers| - 1
    ensures At(providers, Shift(picks)) == At(providers[1..], picks)
    ensures At(providers, [0] + Shift(picks)) == [providers[0]] + At(providers[1..], picks)
  {
  }

  /** Exactly the providers to keep, each as often as it is listed and in the order of the list. */
  lemma {:induction false} FilterExact(providers: seq<Provider>, keep: Provider -> bool) returns (picks: seq<nat>)
    ensures ArePicks(providers, keep, picks) && Filter(providers, keep) == At(providers, picks)
  {
    if providers == [] {
      picks := [];
    } else {
      var rest := FilterExact(providers[1..], keep);
      picks := if keep(providers[0]) then [0] + Shift(rest) else Shift(rest);
      ShiftedPicks(providers, keep, rest);
      ShiftedAt(providers, rest);
    }
  }

  /** The provider can find an address of the family asked for. */
  predicate CanServe(p: Provider, version: IpVersion) {
    || (p.v4 && !version.OnlyV6?)
    || (p.v6 && !version.OnlyV4?)
  }

  /** The matching providers are exactly those that can serve the version, in order. */
  lemma MatchingExact(providers: seq<Provider>, version: IpVersion) returns (picks: seq<nat>)
    ensures ArePicks(providers, (p: Provider) => CanServe(p, version), picks)
    ensures Matching(providers, version) == At(providers, picks)
  {
    picks := FilterExact(providers, Supporting(version));
  }

  lemma {:induction false} FilterTwice(providers: seq<Provider>, first: Provider -> bool, second: Provider -> bool)
    ensures Filter(Filter(providers, first), second) == Filter(providers, Both(first, second))
  {
    if providers != [] {
      FilterTwice(providers[1..], first, second);
    }
  }

  lemma {:induction false} FilterJoined(a: seq<Provider>, b: seq<Provider>, keep: Provider -> bool)
    ensures Filter(a + b, keep) == Filter(a, keep) + Filter(b, keep)
  {
    if a == [] {
      assert a + b == b;
    } else {
      assert (a + b)[1..] == a[1..] + b;
      FilterJoined(a[1..], b, keep);
    }
  }

  /** The built-in providers that a filter selects; without one, all of them unless there are custom ones. */
  function Selected(all: seq<Provider>, filter: Option<ProviderFilter>, hasCustom: bool): seq<Provider> {
    match filter
    case Some(Protocols(protocols)) => Filter(all, UsingOneOf(protocols))
    case Some(Select(selected)) => selected
    case None => if hasCustom then [] else all
  }

  /** The filter's protocols, each provider as often as listed and in order; or the chosen ones; or the default. */
  lemma SelectedExact(all: seq<Provider>, filter: Option<ProviderFilter>, hasCustom: bool)
    ensures
      var selected := Selected(all, filter, hasCustom);
      match filter
      case Some(Protocols(protocols)) =>
        exists picks :: ArePicks(all, (p: Provider) => p.protocol in protocols, picks) && selected == At(all, picks)
      case Some(Select(chosen)) => selected == chosen
      case None => (!hasCustom ==> selected == all) && (hasCustom ==> selected == [])
  {
    if filter.Some? && filter.value.Protocols? {
      var picks := FilterExact(all, UsingOneOf(filter.value.protocols));
      assert ArePicks(all, (p: Provider) => p.protocol in filter.value.protocols, picks);
    }
  }

  /**
   * Whom the resolvers ask: of the built-in providers exactly those of a chosen
   * protocol that also support the version, and after them the custom ones that do.
   */
  lemma ChosenAndMatching(
      all: seq<Provider>, protocols: seq<Protocol>, hasCustom: bool, custom: seq<Provider>, version: IpVersion)
    returns (picks: seq<nat>)
    ensures ArePicks(all, (p: Provider) => p.protocol in protocols && CanServe(p, version), picks)
    ensures Matching(Selected(all, Some(Protocols(protocols)), hasCustom) + custom, version) ==
      At(all, picks) + Matching(custom, version)
  {
    hide Filter;
    FilterJoined(Filter(all, UsingOneOf(protocols)), custom, Supporting(version));
    FilterTwice(all, UsingOneOf(protocols), Supporting(version));
    picks := FilterExact(all, Both(UsingOneOf(protocols), Supporting(version)));
  }

  class ConfigBuilder {
    var customProviders: seq<Provider>
    var customBlockingProviders: seq<Provider>
    var timeout: nat
    var version: IpVersion
    var strategy: Strategy
    var filter: Option<ProviderFilter>

    /** What every sequence of builder calls keeps: a consensus needs at least two. */
    ghost predicate Valid()
      reads this`strategy
    {
      strategy.Consensus? ==> strategy.minAgree >= 2
    }

    constructor (second: nat)
      ensures Valid() && customProviders == customBlockingProviders == [] && filter == None
      ensures timeout == 10 * second && version == AnyVersion && strategy == First
    {
      customProviders, customBlockingProviders := [], [];
      timeout, version, strategy, filter := 10 * second, AnyVersion, First, None;
    }

    method SetStrategy(s: Strategy)
      modifies this`strategy
      ensures Valid()
      ensures s.Consensus? ==> strategy == Consensus(if s.minAgree < 2 then 2 else s.minAgree)
      ensures !s.Consensus? ==> strategy == s
    {
      match s {
        case Consensus(minAgree) => strategy := Consensus(if minAgree < 2 then 2 else minAgree);
        case _ => strategy := s;
      }
    }

    /** `all` is the table of built-in providers. */
    method Build(all: seq<Provider>) returns (c: Config)
      requires Valid()
      modifies this
      ensures c.strategy.Consensus? ==> c.strategy.minAgree >= 2
      ensures
        var hasCustom := old(customBlockingProviders) != [] || old(customProviders) != [];
        c == Config(
          Selected(all, old(filter), hasCustom) + old(customBlockingProviders),
          Selected(all, old(filter), hasCustom) + old(customProviders),
          old(timeout), old(version), old(strategy))
    {
      var taken := filter;
      filter := None;
      var hasCustom := customBlockingProviders != [] || customProviders != [];
      var blocking := Selected(all, taken, hasCustom);
      blocking := blocking + customBlockingProviders;
      customBlockingProviders := [];
      var providers := Selected(all, taken, hasCustom);
      providers := providers + customProviders;
      customProviders := [];
      c := Config(blocking, providers, timeout, version, strategy);
    }
  }
}
