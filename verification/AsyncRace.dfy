/** The race of the asynchronous resolver: `select_first` again and again. */
module AsyncRace {
  import opened Types
  import opened Tally
  import opened Futures

  function UpTo(n: nat): (r: seq<nat>)
    ensures |r| == n
  {
    seq(n, i => i)
  }

  function AsFailures(errors: seq<ProviderError>): (o: seq<Outcome>)
    ensures |o| == |errors|
  {
    seq(|errors|, i requires 0 <= i < |errors| => Failure(errors[i]))
  }

  lemma AsFailuresAppend(errors: seq<ProviderError>, e: ProviderError)
    ensures AsFailures(errors + [e]) == AsFailures(errors) + [Failure(e)]
  {
  }

  lemma {:induction false} FailuresOf(errors: seq<ProviderError>)
    ensures Failures(AsFailures(errors)) == errors && Successes(AsFailures(errors)) == []
  {
    if errors != [] {
      FailuresOf(errors[1..]);
      assert AsFailures(errors)[1..] == AsFailures(errors[1..]);
    }
  }

  lemma {:induction false} FailuresConcat(a: seq<Outcome>, b: seq<Outcome>)
    ensures |Failures(a + b)| == |Failures(a)| + |Failures(b)|
  {
    if a == [] {
      assert a + b == b;
    } else {
      FailuresConcat(a[1..], b);
      assert (a + b)[1..] == a[1..] + b;
    }
  }

  /**
   * Where the futures still in the race come from: `futures[p]` is what is
   * left of `all[origin[p]]` after between `polls` and `polls + failed` polls.
   */
  ghost predicate Tracks(
      all: seq<Future<Outcome>>, futures: seq<Future<Outcome>>, origin: seq<nat>, polls: nat, failed: nat)
    requires AllPending(all) && AllPending(futures)
  {
    && |origin| == |futures|
    && (forall p | 0 <= p < |futures| ::
          && origin[p] < |all| && futures[p].output == all[origin[p]].output
          && futures[p].left + polls <= all[origin[p]].left <= futures[p].left + polls + failed)
    && (forall i: nat | i < |all| && all[i].output.Success? :: i in origin)
  }

  lemma StillTracks(
      all: seq<Future<Outcome>>, futures: seq<Future<Outcome>>, origin: seq<nat>, polls: nat, failed: nat, w: nat)
    requires AllPending(all) && AllPending(futures) && IsNext(futures, w) && futures[w].output.Failure?
    requires Tracks(all, futures, origin, polls, failed)
    ensures AllPending(SwapRemove(AtReady(futures, w), w))
    ensures Tracks(all, SwapRemove(AtReady(futures, w), w), SwapRemove(origin, w), polls + futures[w].left, failed + 1)
  {
    var rest, last := SwapRemove(AtReady(futures, w), w), |futures| - 1;
    forall p | 0 <= p < |rest|
      ensures rest[p] == AtReady(futures, w)[if p == w then last else p]
      ensures SwapRemove(origin, w)[p] == origin[if p == w then last else p]
    {
    }
    forall i: nat | i < |all| && all[i].output.Success? ensures i in SwapRemove(origin, w) {
      var p :| 0 <= p < |origin| && origin[p] == i;
      assert SwapRemove(origin, w)[if p == last then w else p] == i;
    }
  }

  /** A success that needed at most `slack` more polls than any other. */
  ghost predicate IsAmongTheFirst(all: seq<Future<Outcome>>, pr: ProviderResult, slack: nat)
    requires AllPending(all)
  {
    exists i ::
      && 0 <= i < |all| && all[i].output == Success(pr)
      && forall j | 0 <= j < |all| && all[j].output.Success? :: all[i].left <= all[j].left + slack
  }

  lemma WinnerIsAmongTheFirst(
      all: seq<Future<Outcome>>, futures: seq<Future<Outcome>>, origin: seq<nat>, polls: nat, failed: nat, w: nat)
    requires AllPending(all) && AllPending(futures) && IsNext(futures, w) && futures[w].output.Success?
    requires Tracks(all, futures, origin, polls, failed)
    ensures IsAmongTheFirst(all, futures[w].output.value, failed)
  {
    var i := origin[w];
    forall j: nat | j < |all| && all[j].output.Success? ensures all[i].left <= all[j].left + failed {
      var p :| 0 <= p < |origin| && origin[p] == j;
      assert futures[w].left <= futures[p].left;
    }
    assert all[i].output == Success(futures[w].output.value);
  }

  /**
   * `pr` wins the race of these futures: round by round the lowest-indexed of
   * those ready first is taken out, until one of them is a success.
   */
  ghost predicate Wins(futures: seq<Future<Outcome>>, pr: ProviderResult)
    decreases |futures|
  {
    && AllPending(futures)
    && exists w: nat :: IsNext(futures, w) && WinsBy(futures, w, pr)
  }

  ghost predicate WinsBy(futures: seq<Future<Outcome>>, w: nat, pr: ProviderResult)
    requires AllPending(futures) && IsNext(futures, w)
    decreases |futures|, 0
  {
    match futures[w].output
    case Success(p) => p == pr
    case Failure(_) => Wins(SwapRemove(AtReady(futures, w), w), pr)
  }

  lemma OneFailureLess(futures: seq<Future<Outcome>>, w: nat)
    requires AllPending(futures) && IsNext(futures, w) && futures[w].output.Failure?
    ensures AllPending(SwapRemove(AtReady(futures, w), w))
    ensures |Failures(Outputs(SwapRemove(AtReady(futures, w), w)))| + 1 == |Failures(Outputs(futures))|
  {
    SelectingLeavesTheRest(futures, w);
    var rest := Outputs(SwapRemove(AtReady(futures, w), w));
    assert multiset([futures[w].output] + rest) == multiset(Outputs(futures));
    PartsArePermuted([futures[w].output] + rest, Outputs(futures));
    FailuresConcat([futures[w].output], rest);
    assert [futures[w].output][1..] == [];
  }

  lemma {:induction false} WinnerIsTracked(
      all: seq<Future<Outcome>>, futures: seq<Future<Outcome>>, origin: seq<nat>, polls: nat, failed: nat,
      pr: ProviderResult)
    requires AllPending(all) && Wins(futures, pr) && Tracks(all, futures, origin, polls, failed)
    ensures IsAmongTheFirst(all, pr, failed + |Failures(Outputs(futures))|)
    decreases |futures|
  {
    var w: nat :| IsNext(futures, w) && WinsBy(futures, w, pr);
    if futures[w].output.Success? {
      WinnerIsAmongTheFirst(all, futures, origin, polls, failed, w);
      MoreSlack(all, pr, failed, failed + |Failures(Outputs(futures))|);
    } else {
      StillTracks(all, futures, origin, polls, failed, w);
      OneFailureLess(futures, w);
      WinnerIsTracked(
        all, SwapRemove(AtReady(futures, w), w), SwapRemove(origin, w), polls + futures[w].left, failed + 1, pr);
    }
  }

  lemma MoreSlack(all: seq<Future<Outcome>>, pr: ProviderResult, a: nat, b: nat)
    requires AllPending(all) && IsAmongTheFirst(all, pr, a) && a <= b
    ensures IsAmongTheFirst(all, pr, b)
  {
    var i :| 0 <= i < |all| && all[i].output == Success(pr)
      && forall j | 0 <= j < |all| && all[j].output.Success? :: all[i].left <= all[j].left + a;
    assert forall j | 0 <= j < |all| && all[j].output.Success? :: all[i].left <= all[j].left + b;
  }

  /** The winner needs at most one poll more than any other success for every provider that fails; so none if none does. */
  lemma WinnerNeedsFewPolls(all: seq<Future<Outcome>>, pr: ProviderResult)
    requires AllPending(all) && Wins(all, pr)
    ensures IsAmongTheFirst(all, pr, |Failures(Outputs(all))|)
  {
    RaceStarts(all, UpTo(|all|));
    WinnerIsTracked(all, all, UpTo(|all|), 0, 0, pr);
  }

  /** In every race of `n` futures the winner has needed no more polls than any other success. */
  ghost predicate FewestPollsWin(n: nat) {
    forall all: seq<Future<Outcome>>, pr: ProviderResult | |all| == n && Wins(all, pr) ::
      AllPending(all) && IsAmongTheFirst(all, pr, 0)
  }

  /**
   * Three futures of which the slowest success wins: the poll that found the
   * second one failed had polled the first one before it, but not the third.
   */
  lemma SlowerMayWin(n: nat, a: ProviderResult, b: ProviderResult, e: ProviderError) returns (all: seq<Future<Outcome>>)
    requires n >= 3 && a != b
    ensures |all| == n && Wins(all, b) && !IsAmongTheFirst(all, b, 0)
    ensures all[..3] == [Pending(1, Success(b)), Pending(0, Failure(e)), Pending(0, Success(a))]
  {
    all := seq(n, i =>
      if i == 0 then Pending(1, Success(b)) else if i == 2 then Pending(0, Success(a))
      else Pending(if i == 1 then 0 else 9, Failure(e)));
    assert IsNext(all, 1);
    var rest := SwapRemove(AtReady(all, 1), 1);
    assert rest[0] == Pending(0, Success(b));
    assert AllPending(rest) && IsNext(rest, 0) && WinsBy(rest, 0, b);
    assert WinsBy(all, 1, b);
    assert all[2].left < all[0].left;
  }

  /** So the fewest polls win exactly if there are at most two futures. */
  lemma FewestPollsWinExactly(n: nat)
    ensures FewestPollsWin(n) <==> n <= 2
  {
    if n <= 2 {
      forall all: seq<Future<Outcome>>, pr: ProviderResult | |all| == n && Wins(all, pr)
        ensures AllPending(all) && IsAmongTheFirst(all, pr, 0)
      {
        WinnerOfTwo(all, pr);
      }
    } else {
      var ip := V4([0, 0, 0, 0]);
      var a, b := ProviderResult(ip, "", Dns, 0), ProviderResult(ip, "", Dns, 1);
      var all := SlowerMayWin(n, a, b, ProviderError("", ""));
      assert !FewestPollsWin(n);
    }
  }

  lemma WinnerOfTwo(all: seq<Future<Outcome>>, pr: ProviderResult)
    requires |all| <= 2 && Wins(all, pr)
    ensures IsAmongTheFirst(all, pr, 0)
  {
    WinnerNeedsFewPolls(all, pr);
    if Failures(Outputs(all)) != [] {
      var i :| 0 <= i < |all| && all[i].output == Success(pr);
      forall j | 0 <= j < |all| && all[j].output.Success? ensures j == i {
        if j != i {
          NoFailures(Outputs(all));
        }
      }
    }
  }

  lemma {:induction false} NoFailures(outcomes: seq<Outcome>)
    requires forall o <- outcomes :: o.Success?
    ensures Failures(outcomes) == []
  {
    if outcomes != [] {
      assert outcomes[0] in outcomes;
      NoFailures(outcomes[1..]);
    }
  }

  /** Every provider is either still running or has its error listed. */
  ghost predicate Racing(all: seq<Future<Outcome>>, futures: seq<Future<Outcome>>, errors: seq<ProviderError>)
    requires AllPending(all)
  {
    && AllPending(futures) && |errors| + |futures| == |all|
    && multiset(AsFailures(errors) + Outputs(futures)) == multiset(Outputs(all))
  }

  lemma RaceStarts(all: seq<Future<Outcome>>, origin: seq<nat>)
    requires AllPending(all) && |origin| == |all| && forall i | 0 <= i < |all| :: origin[i] == i
    ensures Racing(all, all, []) && Tracks(all, all, origin, 0, 0)
  {
    assert AsFailures([]) + Outputs(all) == Outputs(all);
    forall i: nat | i < |all| ensures i in origin {
      assert origin[i] == i;
    }
  }

  lemma StillRacing(all: seq<Future<Outcome>>, futures: seq<Future<Outcome>>, errors: seq<ProviderError>, w: nat)
    requires AllPending(all) && Racing(all, futures, errors) && IsNext(futures, w) && futures[w].output.Failure?
    ensures Racing(all, SwapRemove(AtReady(futures, w), w), errors + [futures[w].output.error])
  {
    SelectingLeavesTheRest(futures, w);
    AsFailuresAppend(errors, futures[w].output.error);
  }

  lemma {:induction false} HasSuccess(outcomes: seq<Outcome>, i: nat)
    requires i < |outcomes| && outcomes[i].Success?
    ensures Successes(outcomes) != []
  {
    if i > 0 {
      HasSuccess(outcomes[1..], i - 1);
    }
  }

  /** What the errors so far and the futures still running say about all of them. */
  lemma RaceParts(errors: seq<ProviderError>, rest: seq<Outcome>, all: seq<Outcome>)
    requires multiset(AsFailures(errors) + rest) == multiset(all)
    ensures |errors| <= |Failures(all)|
    ensures Successes(rest) != [] ==> Successes(all) != []
    ensures rest == [] ==> Successes(all) == [] && multiset(errors) == multiset(Failures(all))
  {
    FailuresOf(errors);
    FailuresConcat(AsFailures(errors), rest);
    PartsArePermuted(AsFailures(errors) + rest, all);
    PartSizes(AsFailures(errors) + rest);
    PartSizes(rest);
    PartSizes(all);
    SameCountsSameSize(AsFailures(errors) + rest, all);
    if rest == [] {
      assert AsFailures(errors) + rest == AsFailures(errors);
    }
  }

  /**
   * A race succeeds exactly if some provider does, and with the winner; if all
   * fail, it lists the error of each of them once.
   */
  ghost predicate RaceOutcome(all: seq<Future<Outcome>>, r: Result<ProviderResult, Error>)
    requires AllPending(all)
  {
    && (r.Success? <==> Successes(Outputs(all)) != [])
    && match r
       case Success(pr) => Wins(all, pr)
       case Failure(e) =>
         && e.AllProvidersFailed? && |e.errors| == |all|
         && multiset(e.errors) == multiset(Failures(Outputs(all)))
  }

  method ResolveRace(all: seq<Future<Outcome>>) returns (r: Result<ProviderResult, Error>)
    requires AllPending(all)
    ensures r == Failure(NoProvidersForVersion) <==> all == []
    ensures all != [] ==> RaceOutcome(all, r)
  {
    if all == [] {
      return Failure(NoProvidersForVersion);
    }
    var futures := all;
    var errors: seq<ProviderError> := [];
    RaceStarts(all, UpTo(|all|));
    while futures != []
      invariant Racing(all, futures, errors)
      invariant forall pr :: Wins(futures, pr) ==> Wins(all, pr)
      decreases |futures|
    {
      var result, index, remaining := SelectFirst(futures);
      match result {
        case Success(pr) =>
          RaceParts(errors, Outputs(futures), Outputs(all));
          HasSuccess(Outputs(futures), index);
          assert WinsBy(futures, index, pr);
          return Success(pr);
        case Failure(e) =>
          StillRacing(all, futures, errors, index);
          assert forall pr :: Wins(remaining, pr) ==> WinsBy(futures, index, pr);
          errors := errors + [e];
      }
      futures := remaining;
    }
    RaceParts(errors, [], Outputs(all));
    r := Failure(AllProvidersFailed(errors));
  }
}
