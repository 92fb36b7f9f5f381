/** The consensus tally: what both resolvers do with the outcomes of all providers. */
module Tally {
  import opened Types

  type Outcome = Result<ProviderResult, ProviderError>

  type Groups = map<IpAddr, seq<ProviderResult>>

  // ---------------------------------------------------------------------------
  // What the tally means
  // ---------------------------------------------------------------------------

  function Successes(outcomes: seq<Outcome>): seq<ProviderResult> {
    if outcomes == [] then []
    else if outcomes[0].Success? then [outcomes[0].value] + Successes(outcomes[1..])
    else Successes(outcomes[1..])
  }

  function Failures(outcomes: seq<Outcome>): seq<ProviderError> {
    if outcomes == [] then []
    else if outcomes[0].Failure? then [outcomes[0].error] + Failures(outcomes[1..])
    else Failures(outcomes[1..])
  }

  /** The results that report `ip`, in the order they came in. */
  function Group(results: seq<ProviderResult>, ip: IpAddr): (g: seq<ProviderResult>)
    ensures |g| <= |results|
    ensures forall r <- g :: r in results && r.ip == ip
  {
    if results == [] then []
    else if results[0].ip == ip then [results[0]] + Group(results[1..], ip)
    else Group(results[1..], ip)
  }

  /** Result `i` has the smallest latency, and is the earliest one that has it. */
  ghost predicate IsFastest(group: seq<ProviderResult>, i: int) {
    && 0 <= i < |group|
    && (forall j | 0 <= j < |group| :: group[i].latency <= group[j].latency)
    && (forall j | 0 <= j < i :: group[i].latency < group[j].latency)
  }

  /** No address was reported more often than `n` times, and one was that often, unless none was reported at all. */
  ghost predicate IsLargest(results: seq<ProviderResult>, n: nat) {
    && (forall ip :: |Group(results, ip)| <= n)
    && (if results == [] then n == 0 else exists ip :: |Group(results, ip)| == n)
  }

  /**
   * A correct verdict: the fastest member of a largest group if that group is
   * large enough, and otherwise the size of the largest group.
   */
  ghost predicate IsVerdict(
      results: seq<ProviderResult>, errors: seq<ProviderError>, minAgree: nat, r: Result<ProviderResult, Error>)
  {
    match r
    case Success(pr) =>
      var group := Group(results, pr.ip);
      && |group| >= minAgree
      && IsLargest(results, |group|)
      && exists i :: IsFastest(group, i) && group[i] == pr
    case Failure(e) =>
      && e.ConsensusNotReached?
      && e.required == minAgree
      && e.consensusErrors == errors
      && IsLargest(results, e.got)
      && (results == [] || e.got < minAgree)
  }

  // ---------------------------------------------------------------------------
  // Grouping
  // ---------------------------------------------------------------------------

  /** The map from addresses to groups that the resolvers build. */
  ghost predicate IsGrouping(groups: Groups, results: seq<ProviderResult>) {
    && (forall ip :: ip in groups <==> Group(results, ip) != [])
    && (forall ip :: ip in groups ==> groups[ip] == Group(results, ip))
  }

  /** `entry(ip).or_default().push(result)` */
  function Push(groups: Groups, pr: ProviderResult): Groups {
    groups[pr.ip := (if pr.ip in groups then groups[pr.ip] else []) + [pr]]
  }

  lemma AppendToCons<T>(first: T, rest: seq<T>, last: T)
    ensures ([first] + rest) + [last] == [first] + (rest + [last])
    ensures ([first] + rest) + [] == [first] + (rest + []) == [first] + rest
  {
  }

  lemma {:induction false} GroupAppend(results: seq<ProviderResult>, pr: ProviderResult, ip: IpAddr)
    ensures Group(results + [pr], ip) == Group(results, ip) + if pr.ip == ip then [pr] else []
  {
    if results == [] {
      assert results + [pr] == [pr];
    } else {
      assert (results + [pr])[1..] == results[1..] + [pr];
      GroupAppend(results[1..], pr, ip);
      if results[0].ip == ip {
        AppendToCons(results[0], Group(results[1..], ip), pr);
      }
    }
  }

  lemma PushGroups(groups: Groups, results: seq<ProviderResult>, pr: ProviderResult)
    requires IsGrouping(groups, results)
    ensures IsGrouping(Push(groups, pr), results + [pr])
  {
    forall ip
      ensures ip in Push(groups, pr) <==> Group(results + [pr], ip) != []
      ensures ip in Push(groups, pr) ==> Push(groups, pr)[ip] == Group(results + [pr], ip)
    {
      GroupAppend(results, pr, ip);
    }
  }

  lemma {:induction false} OwnGroupIsNonempty(results: seq<ProviderResult>, pr: ProviderResult)
    requires pr in results
    ensures pr in Group(results, pr.ip)
  {
    if results[0] != pr {
      OwnGroupIsNonempty(results[1..], pr);
    }
  }

  lemma {:induction false} PartsAppend(outcomes: seq<Outcome>, x: Outcome)
    ensures Successes(outcomes + [x]) == if x.Success? then Successes(outcomes) + [x.value] else Successes(outcomes)
    ensures Failures(outcomes + [x]) == if x.Failure? then Failures(outcomes) + [x.error] else Failures(outcomes)
  {
    if outcomes != [] {
      assert (outcomes + [x])[1..] == outcomes[1..] + [x];
      PartsAppend(outcomes[1..], x);
      if outcomes[0].Success? && x.Success? {
        AppendToCons(outcomes[0].value, Successes(outcomes[1..]), x.value);
      } else if outcomes[0].Failure? && x.Failure? {
        AppendToCons(outcomes[0].error, Failures(outcomes[1..]), x.error);
      }
    }
  }

  // ---------------------------------------------------------------------------
  // The verdict, over a map in any iteration order
  // ---------------------------------------------------------------------------

  method SelectBest(groups: Groups, minAgree: nat) returns (best: Option<(IpAddr, nat)>)
    ensures best.None? ==> forall ip <- groups :: |groups[ip]| < minAgree
    ensures best.Some? ==>
      var (ip, n) := best.value;
      ip in groups && n == |groups[ip]| >= minAgree && forall other <- groups :: |groups[other]| <= n
  {
    best := None;
    var rest := groups.Keys;
    while rest != {}
      invariant rest <= groups.Keys
      invariant best.None? ==> forall ip <- groups.Keys - rest :: |groups[ip]| < minAgree
      invariant best.Some? ==>
        best.value.0 in groups && best.value.1 == |groups[best.value.0]| >= minAgree
      invariant best.Some? ==> forall other <- groups.Keys - rest :: |groups[other]| <= best.value.1
      decreases |rest|
    {
      var ip :| ip in rest;
      rest := rest - {ip};
      var len := |groups[ip]|;
      if len >= minAgree {
        if best.None? {
          best := Some((ip, len));
        } else if len > best.value.1 {
          best := Some((ip, len));
        }
      }
    }
  }

  /** `min_by_key`: the first result of minimal latency. */
  method Fastest(group: seq<ProviderResult>) returns (fastest: Option<ProviderResult>)
    ensures fastest.None? <==> group == []
    ensures fastest.Some? ==> exists i :: IsFastest(group, i) && group[i] == fastest.value
  {
    if group == [] {
      return None;
    }
    var k := 0;
    for i := 1 to |group|
      invariant 0 <= k < i
      invariant IsFastest(group[..i], k)
    {
      ghost var before := group[..i];
      if group[i].latency < group[k].latency {
        k := i;
      }
      assert group[..i + 1] == before + [group[i]];
    }
    assert group[..|group|] == group;
    fastest := Some(group[k]);
  }

  method LargestSize(groups: Groups) returns (n: nat)
    ensures forall ip <- groups :: |groups[ip]| <= n
    ensures if groups == map[] then n == 0 else exists ip <- groups :: |groups[ip]| == n
  {
    n := 0;
    var rest := groups.Keys;
    ghost var witness_: Option<IpAddr> := None;
    while rest != {}
      invariant rest <= groups.Keys
      invariant witness_.None? ==> rest == groups.Keys && n == 0
      invariant witness_.Some? ==> witness_.value in groups && |groups[witness_.value]| == n
      invariant forall ip <- groups.Keys - rest :: |groups[ip]| <= n
      decreases |rest|
    {
      var ip :| ip in rest;
      rest := rest - {ip};
      if |groups[ip]| >= n {
        n := |groups[ip]|;
        witness_ := Some(ip);
      }
    }
  }

  lemma LargestOfGrouping(groups: Groups, results: seq<ProviderResult>, n: nat)
    requires IsGrouping(groups, results)
    requires forall ip <- groups :: |groups[ip]| <= n
    requires if groups == map[] then n == 0 else exists ip <- groups :: |groups[ip]| == n
    ensures IsLargest(results, n)
    ensures results == [] <==> groups == map[]
  {
    if results != [] {
      OwnGroupIsNonempty(results, results[0]);
      assert results[0].ip in groups;
    }
    forall ip ensures |Group(results, ip)| <= n {
      assert ip in groups <==> Group(results, ip) != [];
    }
    if groups != map[] {
      var ip :| ip in groups && |groups[ip]| == n;
      assert |Group(results, ip)| == n;
    }
  }

  /**
   * The end of both consensus resolvers. `r` starts as their fallback, which
   * never survives: the contract leaves no room for `got: 0` once a group was
   * selected.
   */
  method Decide(groups: Groups, ghost results: seq<ProviderResult>, errors: seq<ProviderError>, minAgree: nat)
    returns (r: Result<ProviderResult, Error>)
    requires IsGrouping(groups, results)
    ensures IsVerdict(results, errors, minAgree, r)
  {
    var best := SelectBest(groups, minAgree);
    match best {
      case Some(pair) =>
        r := Failure(ConsensusNotReached(minAgree, 0, errors));
        var ip := pair.0;
        if ip in groups {
          LargestOfGrouping(groups, results, pair.1);
          var fastest := Fastest(groups[ip]);
          if fastest.Some? {
            assert fastest.value.ip == ip;
            r := Success(fastest.value);
          }
        }
      case None =>
        var got := LargestSize(groups);
        LargestOfGrouping(groups, results, got);
        r := Failure(ConsensusNotReached(minAgree, got, errors));
    }
  }

  // ---------------------------------------------------------------------------
  // Verdicts do not depend on the order
  // ---------------------------------------------------------------------------

  lemma {:induction false} SuccessCounts(outcomes: seq<Outcome>, pr: ProviderResult)
    ensures multiset(Successes(outcomes))[pr] == multiset(outcomes)[Success(pr)]
  {
    if outcomes != [] {
      SuccessCounts(outcomes[1..], pr);
      assert outcomes == [outcomes[0]] + outcomes[1..];
    }
  }

  lemma {:induction false} FailureCounts(outcomes: seq<Outcome>, e: ProviderError)
    ensures multiset(Failures(outcomes))[e] == multiset(outcomes)[Failure(e)]
  {
    if outcomes != [] {
      FailureCounts(outcomes[1..], e);
      assert outcomes == [outcomes[0]] + outcomes[1..];
    }
  }

  lemma {:induction false} GroupCounts(results: seq<ProviderResult>, ip: IpAddr, pr: ProviderResult)
    ensures multiset(Group(results, ip))[pr] == if pr.ip == ip then multiset(results)[pr] else 0
  {
    if results != [] {
      GroupCounts(results[1..], ip, pr);
      assert results == [results[0]] + results[1..];
    }
  }

  lemma SameCountsSameSize<T>(a: seq<T>, b: seq<T>)
    requires multiset(a) == multiset(b)
    ensures |a| == |b|
  {
    assert |multiset(a)| == |a| && |multiset(b)| == |b|;
  }

  lemma GroupsArePermuted(a: seq<ProviderResult>, b: seq<ProviderResult>, ip: IpAddr)
    requires multiset(a) == multiset(b)
    ensures multiset(Group(a, ip)) == multiset(Group(b, ip)) && |Group(a, ip)| == |Group(b, ip)|
  {
    forall pr ensures multiset(Group(a, ip))[pr] == multiset(Group(b, ip))[pr] {
      GroupCounts(a, ip, pr);
      GroupCounts(b, ip, pr);
    }
    SameCountsSameSize(Group(a, ip), Group(b, ip));
  }

  lemma PartsArePermuted(a: seq<Outcome>, b: seq<Outcome>)
    requires multiset(a) == multiset(b)
    ensures multiset(Successes(a)) == multiset(Successes(b))
    ensures multiset(Failures(a)) == multiset(Failures(b)) && |Failures(a)| == |Failures(b)|
  {
    forall pr ensures multiset(Successes(a))[pr] == multiset(Successes(b))[pr] {
      SuccessCounts(a, pr);
      SuccessCounts(b, pr);
    }
    forall e ensures multiset(Failures(a))[e] == multiset(Failures(b))[e] {
      FailureCounts(a, e);
      FailureCounts(b, e);
    }
    SameCountsSameSize(Failures(a), Failures(b));
  }

  lemma LargestIsUnique(results: seq<ProviderResult>, m: nat, n: nat)
    requires IsLargest(results, m) && IsLargest(results, n)
    ensures m == n
  {
  }

  lemma FastestIsPermuted(a: seq<ProviderResult>, i: int, b: seq<ProviderResult>, j: int)
    requires multiset(a) == multiset(b) && IsFastest(a, i) && IsFastest(b, j)
    ensures a[i].latency == b[j].latency
  {
    assert a[i] in multiset(a) && b[j] in multiset(b);
    assert a[i] in b && b[j] in a;
  }

  /** Only one address has a group of this size. */
  ghost predicate IsUnique(results: seq<ProviderResult>, n: nat) {
    forall ip, other :: |Group(results, ip)| == n && |Group(results, other)| == n ==> ip == other
  }

  // ---------------------------------------------------------------------------
  // Addresses decide
  // ---------------------------------------------------------------------------

  /** The address an outcome counts for, if any. */
  function Address(outcome: Outcome): Option<IpAddr> {
    match outcome
    case Success(pr) => Some(pr.ip)
    case Failure(_) => None
  }

  function Addresses(outcomes: seq<Outcome>): (a: seq<Option<IpAddr>>)
    ensures |a| == |outcomes|
  {
    seq(|outcomes|, i requires 0 <= i < |outcomes| => Address(outcomes[i]))
  }

  lemma AddressesSplit(outcomes: seq<Outcome>)
    requires outcomes != []
    ensures multiset(Addresses(outcomes)) == multiset{Address(outcomes[0])} + multiset(Addresses(outcomes[1..]))
  {
    assert Addresses(outcomes) == [Address(outcomes[0])] + Addresses(outcomes[1..]);
  }

  lemma {:induction false} AddressesCount(outcomes: seq<Outcome>, ip: IpAddr)
    ensures |Group(Successes(outcomes), ip)| == multiset(Addresses(outcomes))[Some(ip)]
    ensures |Failures(outcomes)| == multiset(Addresses(outcomes))[None]
  {
    if outcomes != [] {
      AddressesCount(outcomes[1..], ip);
      AddressesSplit(outcomes);
    }
  }

  lemma SameGroupSizes(a: seq<Outcome>, b: seq<Outcome>, ip: IpAddr)
    requires multiset(Addresses(a)) == multiset(Addresses(b))
    ensures |Group(Successes(a), ip)| == |Group(Successes(b), ip)|
    ensures |Failures(a)| == |Failures(b)| && |Successes(a)| == |Successes(b)|
  {
    AddressesCount(a, ip);
    AddressesCount(b, ip);
    SameCountsSameSize(Addresses(a), Addresses(b));
    PartSizes(a);
    PartSizes(b);
  }

  lemma SameLargest(a: seq<Outcome>, b: seq<Outcome>, n: nat)
    requires multiset(Addresses(a)) == multiset(Addresses(b)) && IsLargest(Successes(a), n)
    ensures IsLargest(Successes(b), n)
  {
    forall ip
      ensures |Group(Successes(b), ip)| == |Group(Successes(a), ip)| && |Successes(a)| == |Successes(b)|
    {
      SameGroupSizes(a, b, ip);
    }
    if Successes(a) != [] {
      var ip :| |Group(Successes(a), ip)| == n;
      assert |Group(Successes(b), ip)| == n;
    } else {
      SameGroupSizes(a, b, V4([0, 0, 0, 0]));
    }
  }

  /** The size of the group a verdict is about. */
  ghost function VerdictSize(results: seq<ProviderResult>, r: Result<ProviderResult, Error>): nat
    requires r.Failure? ==> r.error.ConsensusNotReached?
  {
    if r.Success? then |Group(results, r.value.ip)| else r.error.got
  }

  /**
   * Two correct verdicts on outcomes that report the same addresses, in any two
   * orders, whatever their latencies and the texts of their errors: both
   * succeed or both fail; failures agree on `got` and on the number of errors;
   * successes have equally large groups, and report the same address if the
   * largest group is unique.
   */
  lemma {:induction false} VerdictsAgree(
      a: seq<Outcome>, b: seq<Outcome>, minAgree: nat, r: Result<ProviderResult, Error>, s: Result<ProviderResult, Error>)
    requires multiset(Addresses(a)) == multiset(Addresses(b))
    requires IsVerdict(Successes(a), Failures(a), minAgree, r) && IsVerdict(Successes(b), Failures(b), minAgree, s)
    ensures r.Success? <==> s.Success?
    ensures r.Failure? ==>
      r.error.got == s.error.got && |r.error.consensusErrors| == |s.error.consensusErrors|
    ensures r.Success? ==>
      && |Group(Successes(a), r.value.ip)| == |Group(Successes(b), s.value.ip)|
      && (IsUnique(Successes(a), |Group(Successes(a), r.value.ip)|) ==> r.value.ip == s.value.ip)
  {
    var p, q := Successes(a), Successes(b);
    VerdictIsOnLargest(p, Failures(a), minAgree, r);
    VerdictIsOnLargest(q, Failures(b), minAgree, s);
    SameLargest(a, b, VerdictSize(p, r));
    LargestIsUnique(q, VerdictSize(p, r), VerdictSize(q, s));
    SameGroupSizes(a, b, if s.Success? then s.value.ip else V4([0, 0, 0, 0]));
  }

  /** A verdict is on a largest group, and succeeds exactly if there is one that is large enough. */
  lemma VerdictIsOnLargest(
      results: seq<ProviderResult>, errors: seq<ProviderError>, minAgree: nat, r: Result<ProviderResult, Error>)
    requires IsVerdict(results, errors, minAgree, r)
    ensures IsLargest(results, VerdictSize(results, r))
    ensures r.Success? <==> results != [] && VerdictSize(results, r) >= minAgree
  {
    if r.Success? {
      VerdictNeedsResults(results, r.value);
    }
  }

  lemma SameOutcomesSameCount(a: seq<Outcome>, b: seq<Outcome>, x: Option<IpAddr>)
    requires multiset(a) == multiset(b)
    ensures multiset(Addresses(a))[x] == multiset(Addresses(b))[x]
  {
    hide *;
    var ip := if x.Some? then x.value else V4([0, 0, 0, 0]);
    PartsArePermuted(a, b);
    AddressesCount(a, ip);
    AddressesCount(b, ip);
    GroupsArePermuted(Successes(a), Successes(b), ip);
  }

  lemma SameOutcomesSameAddresses(a: seq<Outcome>, b: seq<Outcome>)
    requires multiset(a) == multiset(b)
    ensures multiset(Addresses(a)) == multiset(Addresses(b))
  {
    hide *;
    forall x ensures multiset(Addresses(a))[x] == multiset(Addresses(b))[x] {
      SameOutcomesSameCount(a, b, x);
    }
  }

  /** On the very same outcomes, in any two orders, errors and latencies agree as well. */
  lemma {:induction false} SameOutcomesSameVerdict(
      a: seq<Outcome>, b: seq<Outcome>, minAgree: nat, r: Result<ProviderResult, Error>, s: Result<ProviderResult, Error>)
    requires multiset(a) == multiset(b)
    requires IsVerdict(Successes(a), Failures(a), minAgree, r) && IsVerdict(Successes(b), Failures(b), minAgree, s)
    ensures r.Success? <==> s.Success?
    ensures r.Failure? ==>
      r.error.got == s.error.got && multiset(r.error.consensusErrors) == multiset(s.error.consensusErrors)
    ensures r.Success? && r.value.ip == s.value.ip ==> r.value.latency == s.value.latency
  {
    SameOutcomesSameAddresses(a, b);
    VerdictsAgree(a, b, minAgree, r, s);
    PartsArePermuted(a, b);
    if r.Success? && r.value.ip == s.value.ip {
      SameGroupSameLatency(Successes(a), r.value, Successes(b), s.value);
    }
  }

  lemma VerdictNeedsResults(results: seq<ProviderResult>, pr: ProviderResult)
    requires exists i :: IsFastest(Group(results, pr.ip), i) && Group(results, pr.ip)[i] == pr
    ensures results != []
  {
  }

  lemma SameGroupSameLatency(p: seq<ProviderResult>, pr: ProviderResult, q: seq<ProviderResult>, qr: ProviderResult)
    requires multiset(p) == multiset(q) && pr.ip == qr.ip
    requires exists i :: IsFastest(Group(p, pr.ip), i) && Group(p, pr.ip)[i] == pr
    requires exists j :: IsFastest(Group(q, qr.ip), j) && Group(q, qr.ip)[j] == qr
    ensures pr.latency == qr.latency
  {
    var i :| IsFastest(Group(p, pr.ip), i) && Group(p, pr.ip)[i] == pr;
    var j :| IsFastest(Group(q, qr.ip), j) && Group(q, qr.ip)[j] == qr;
    GroupsArePermuted(p, q, pr.ip);
    FastestIsPermuted(Group(p, pr.ip), i, Group(q, qr.ip), j);
  }

  lemma {:induction false} GroupsAreDisjoint(results: seq<ProviderResult>, ip: IpAddr, other: IpAddr)
    requires ip != other
    ensures |Group(results, ip)| + |Group(results, other)| <= |results|
  {
    if results != [] {
      GroupsAreDisjoint(results[1..], ip, other);
    }
  }

  lemma {:induction false} PartSizes(outcomes: seq<Outcome>)
    ensures |Successes(outcomes)| + |Failures(outcomes)| == |outcomes|
  {
    if outcomes != [] {
      PartSizes(outcomes[1..]);
    }
  }

  /** The sizes of all groups, added up in any order. */
  ghost function GroupSizes(results: seq<ProviderResult>, ips: set<IpAddr>): nat {
    if ips == {} then 0
    else
      var ip :| ip in ips;
      |Group(results, ip)| + GroupSizes(results, ips - {ip})
  }

  /** How many results report one of `ips`. */
  ghost function CountIn(results: seq<ProviderResult>, ips: set<IpAddr>): nat {
    if results == [] then 0
    else (if results[0].ip in ips then 1 else 0) + CountIn(results[1..], ips)
  }

  lemma {:induction false} CountWithout(results: seq<ProviderResult>, ips: set<IpAddr>, ip: IpAddr)
    requires ip in ips
    ensures CountIn(results, ips) == |Group(results, ip)| + CountIn(results, ips - {ip})
  {
    if results != [] {
      CountWithout(results[1..], ips, ip);
    }
  }

  lemma {:induction false} CountNone(results: seq<ProviderResult>)
    ensures CountIn(results, {}) == 0
  {
    if results != [] {
      CountNone(results[1..]);
    }
  }

  lemma {:induction false} SizesAreCounts(results: seq<ProviderResult>, ips: set<IpAddr>)
    ensures GroupSizes(results, ips) == CountIn(results, ips)
    decreases ips
  {
    if ips == {} {
      CountNone(results);
    } else {
      var ip :| ip in ips && GroupSizes(results, ips) == |Group(results, ip)| + GroupSizes(results, ips - {ip});
      CountWithout(results, ips, ip);
      SizesAreCounts(results, ips - {ip});
    }
  }

  lemma {:induction false} CountAll(results: seq<ProviderResult>, ips: set<IpAddr>)
    requires forall r <- results :: r.ip in ips
    ensures CountIn(results, ips) == |results|
  {
    if results != [] {
      assert results[0] in results;
      CountAll(results[1..], ips);
    }
  }

  /** The groups together hold every result once, so their sizes and the errors add up to all outcomes. */
  lemma GroupsAndErrorsAreAll(outcomes: seq<Outcome>, groups: Groups)
    requires IsGrouping(groups, Successes(outcomes))
    ensures GroupSizes(Successes(outcomes), groups.Keys) + |Failures(outcomes)| == |outcomes|
  {
    var results := Successes(outcomes);
    forall r <- results ensures r.ip in groups.Keys {
      OwnGroupIsNonempty(results, r);
    }
    SizesAreCounts(results, groups.Keys);
    CountAll(results, groups.Keys);
    PartSizes(outcomes);
  }

  /** With an absolute majority required, at most one address can qualify at all. */
  lemma MajorityIsUnique(outcomes: seq<Outcome>, minAgree: nat, ip: IpAddr, other: IpAddr)
    requires 2 * minAgree > |outcomes|
    requires |Group(Successes(outcomes), ip)| >= minAgree && |Group(Successes(outcomes), other)| >= minAgree
    ensures ip == other
  {
    if ip != other {
      GroupsAreDisjoint(Successes(outcomes), ip, other);
      PartSizes(outcomes);
    }
  }

  /** So with an absolute majority required, the addresses alone determine the verdict's. */
  lemma {:induction false} MajorityVerdictsAgree(
      a: seq<Outcome>, b: seq<Outcome>, minAgree: nat, r: Result<ProviderResult, Error>, s: Result<ProviderResult, Error>)
    requires multiset(Addresses(a)) == multiset(Addresses(b)) && 2 * minAgree > |a|
    requires IsVerdict(Successes(a), Failures(a), minAgree, r) && IsVerdict(Successes(b), Failures(b), minAgree, s)
    ensures r.Success? <==> s.Success?
    ensures r.Success? ==> r.value.ip == s.value.ip
  {
    VerdictsAgree(a, b, minAgree, r, s);
    if r.Success? {
      var n := |Group(Successes(a), r.value.ip)|;
      forall ip, other | |Group(Successes(a), ip)| == n && |Group(Successes(a), other)| == n ensures ip == other {
        MajorityIsUnique(a, minAgree, ip, other);
      }
    }
  }
}
