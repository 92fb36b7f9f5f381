/**
 * The two hand-written future combinators. A future is a script: how many more
 * polls find it pending, and what it returns then.
 */
module Futures {
  import opened Types

  datatype Future<+T> = Pending(left: nat, output: T) | Completed

  ghost predicate AllPending<T>(futures: seq<Future<T>>) {
    forall i | 0 <= i < |futures| :: futures[i].Pending?
  }

  ghost function Outputs<T>(futures: seq<Future<T>>): (o: seq<T>)
    requires AllPending(futures)
    ensures |o| == |futures|
  {
    seq(|futures|, i requires 0 <= i < |futures| => futures[i].output)
  }

  /** A future must not be polled again once it was ready. */
  method Poll<T>(f: Future<T>) returns (g: Future<T>, r: Option<T>)
    requires f.Pending?
    ensures f.left == 0 ==> g == Completed && r == Some(f.output)
    ensures f.left > 0 ==> g == Pending(f.left - 1, f.output) && r == None
  {
    if f.left == 0 {
      g, r := Completed, Some(f.output);
    } else {
      g, r := Pending(f.left - 1, f.output), None;
    }
  }

  // ---------------------------------------------------------------------------
  // select_first
  // ---------------------------------------------------------------------------

  /** `Vec::swap_remove`: the last element takes the place of the removed one. */
  function SwapRemove<T>(s: seq<T>, i: nat): (r: seq<T>)
    requires i < |s|
    ensures |r| == |s| - 1
  {
    s[i := s[|s| - 1]][..|s| - 1]
  }

  lemma SwapRemoveParts<T>(s: seq<T>, i: nat)
    requires i < |s| - 1
    ensures s == s[..i] + [s[i]] + s[i + 1..|s| - 1] + [s[|s| - 1]]
    ensures SwapRemove(s, i) == s[..i] + [s[|s| - 1]] + s[i + 1..|s| - 1]
  {
  }

  lemma LastMovesUp<T>(a: seq<T>, x: T, b: seq<T>, y: T)
    ensures multiset(a + [y] + b) + multiset{x} == multiset(a + [x] + b + [y])
  {
  }

  lemma SwapRemoveLast<T>(s: seq<T>)
    requires s != []
    ensures SwapRemove(s, |s| - 1) == s[..|s| - 1] && s == s[..|s| - 1] + [s[|s| - 1]]
  {
  }

  lemma SwapRemoveKeepsTheRest<T>(s: seq<T>, i: nat)
    requires i < |s|
    ensures multiset(SwapRemove(s, i)) + multiset{s[i]} == multiset(s)
  {
    hide SwapRemove;
    if i == |s| - 1 {
      SwapRemoveLast(s);
    } else {
      SwapRemoveParts(s, i);
      LastMovesUp(s[..i], s[i], s[i + 1..|s| - 1], s[|s| - 1]);
    }
  }

  /** One more poll has found these futures pending. */
  ghost function Waited<T>(f: Future<T>, polls: nat): Future<T>
    requires f.Pending? && f.left >= polls
  {
    Pending(f.left - polls, f.output)
  }

  /** The ready future that a round of polls in index order finds first. */
  ghost predicate IsNext<T>(futures: seq<Future<T>>, i: nat)
    requires AllPending(futures)
  {
    && i < |futures|
    && (forall j | 0 <= j < |futures| :: futures[i].left <= futures[j].left)
    && (forall j | 0 <= j < i :: futures[i].left < futures[j].left)
  }

  /**
   * All futures when future `i` is found ready: those before it were polled
   * once more than those after it.
   */
  ghost function AtReady<T>(futures: seq<Future<T>>, i: nat): (r: seq<Future<T>>)
    requires AllPending(futures) && IsNext(futures, i)
    ensures |r| == |futures| && AllPending(r)
  {
    seq(|futures|, j requires 0 <= j < |futures| =>
      Waited(futures[j], futures[i].left + if j < i then 1 else 0))
  }

  /** The closure that `select_first` polls. */
  method PollAny<T>(futures: seq<Future<T>>) returns (ready: Option<(T, nat)>, after: seq<Future<T>>)
    requires AllPending(futures)
    ensures ready.None? ==>
      && |after| == |futures|
      && forall j | 0 <= j < |futures| :: futures[j].left > 0 && after[j] == Waited(futures[j], 1)
    ensures ready.Some? ==>
      var (output, i) := ready.value;
      && i < |futures| && futures[i].left == 0 && output == futures[i].output
      && (forall j | 0 <= j < i :: futures[j].left > 0)
      && |after| == |futures| - 1
      && forall j | 0 <= j < |after| ::
           after[j] == if j < i then Waited(futures[j], 1) else if j == i then futures[|futures| - 1] else futures[j]
  {
    after := futures;
    for i := 0 to |futures|
      invariant |after| == |futures|
      invariant forall j | 0 <= j < i :: futures[j].left > 0 && after[j] == Waited(futures[j], 1)
      invariant forall j | i <= j < |futures| :: after[j] == futures[j]
    {
      var g, r := Poll(after[i]);
      after := after[i := g];
      match r {
        case Some(output) =>
          after := SwapRemove(after, i);
          return Some((output, i)), after;
        case None =>
      }
    }
    ready := None;
  }

  /**
   * Returns the lowest-indexed of the futures that are ready first, and all
   * the others. With no futures it would never complete.
   */
  method SelectFirst<T>(futures: seq<Future<T>>) returns (output: T, index: nat, remaining: seq<Future<T>>)
    requires AllPending(futures) && futures != []
    ensures IsNext(futures, index) && output == futures[index].output
    ensures remaining == SwapRemove(AtReady(futures, index), index)
    ensures AllPending(remaining)
  {
    remaining := futures;
    ghost var rounds := 0;
    while true
      invariant |remaining| == |futures| && AllPending(remaining)
      invariant forall j | 0 <= j < |futures| ::
        futures[j].left >= rounds && remaining[j] == Waited(futures[j], rounds)
      decreases futures[0].left - rounds
    {
      var ready;
      ready, remaining := PollAny(remaining);
      if ready.Some? {
        output, index := ready.value.0, ready.value.1;
        assert remaining == SwapRemove(AtReady(futures, index), index);
        return;
      }
      rounds := rounds + 1;
    }
  }

  /** What `select_first` leaves over is, up to order, everything but the one that was ready. */
  lemma SelectingLeavesTheRest<T>(futures: seq<Future<T>>, index: nat)
    requires AllPending(futures) && IsNext(futures, index)
    ensures AllPending(SwapRemove(AtReady(futures, index), index))
    ensures multiset(Outputs(SwapRemove(AtReady(futures, index), index))) + multiset{futures[index].output}
      == multiset(Outputs(futures))
  {
    var rest := SwapRemove(AtReady(futures, index), index);
    assert Outputs(AtReady(futures, index)) == Outputs(futures);
    assert Outputs(rest) == SwapRemove(Outputs(futures), index);
    SwapRemoveKeepsTheRest(Outputs(futures), index);
  }

  // ---------------------------------------------------------------------------
  // join_all_vec
  // ---------------------------------------------------------------------------

  function Filled<T>(slots: seq<Option<T>>): (n: nat)
    ensures n <= |slots|
  {
    if slots == [] then 0
    else (if slots[|slots| - 1].Some? then 1 else 0) + Filled(slots[..|slots| - 1])
  }

  /** The counter reaches the number of slots exactly when every slot is filled. */
  lemma {:induction false} FilledExact<T>(slots: seq<Option<T>>)
    ensures Filled(slots) == |slots| <==> forall i | 0 <= i < |slots| :: slots[i].Some?
  {
    if slots != [] {
      var n := |slots| - 1;
      FilledExact(slots[..n]);
      assert forall i | 0 <= i < n :: slots[..n][i] == slots[i];
    }
  }

  lemma {:induction false} FillOne<T>(slots: seq<Option<T>>, i: nat, output: T)
    requires i < |slots| && slots[i].None?
    ensures Filled(slots[i := Some(output)]) == Filled(slots) + 1
  {
    var n := |slots| - 1;
    var t := slots[i := Some(output)];
    if i < n {
      FillOne(slots[..n], i, output);
      assert t[..n] == slots[..n][i := Some(output)];
    } else {
      assert t[..n] == slots[..n];
    }
  }

  ghost function MaxLeft<T>(futures: seq<Future<T>>): (m: nat)
    requires AllPending(futures)
    ensures forall i | 0 <= i < |futures| :: futures[i].left <= m
  {
    if futures == [] then 0
    else
      var n := |futures| - 1;
      var m := MaxLeft(futures[..n]);
      assert forall i | 0 <= i < n :: futures[i] == futures[..n][i];
      if m < futures[n].left then futures[n].left else m
  }

  /** Future `i` and its slot after `polls` rounds. */
  ghost predicate AfterRounds<T>(start: Future<T>, rounds: nat, now: Future<T>, slot: Option<T>)
    requires start.Pending?
  {
    if rounds > start.left then now == Completed && slot == Some(start.output)
    else now == Waited(start, rounds) && slot == None
  }

  /** How often a future has been polled after some rounds: never again once it was ready. */
  ghost predicate Polled<T>(start: Future<T>, rounds: nat, polls: nat)
    requires start.Pending?
  {
    polls == if rounds > start.left then start.left + 1 else rounds
  }

  /**
   * The closure that `join_all_vec` polls: one round over the futures whose
   * slot is still empty.
   */
  method PollEmpty<T>(
      ghost all: seq<Future<T>>, ghost rounds: nat, futures: seq<Future<T>>, results: array<Option<T>>, done: nat,
      ghost polls: seq<nat>)
    returns (after: seq<Future<T>>, newDone: nat, ghost newPolls: seq<nat>)
    requires AllPending(all) && |all| == |futures| == results.Length == |polls| && done == Filled(results[..])
    requires forall i | 0 <= i < |all| ::
      AfterRounds(all[i], rounds, futures[i], results[i]) && Polled(all[i], rounds, polls[i])
    modifies results
    ensures |all| == |after| == |newPolls| && newDone == Filled(results[..])
    ensures forall i | 0 <= i < |all| ::
      AfterRounds(all[i], rounds + 1, after[i], results[i]) && Polled(all[i], rounds + 1, newPolls[i])
  {
    after, newDone, newPolls := futures, done, polls;
    for i := 0 to results.Length
      invariant |all| == |after| == |newPolls| && newDone == Filled(results[..])
      invariant forall j | 0 <= j < i ::
        AfterRounds(all[j], rounds + 1, after[j], results[j]) && Polled(all[j], rounds + 1, newPolls[j])
      invariant forall j | i <= j < |all| ::
        AfterRounds(all[j], rounds, after[j], results[j]) && Polled(all[j], rounds, newPolls[j])
    {
      if results[i].Some? {
        continue;
      }
      var g, r := Poll(after[i]);
      after := after[i := g];
      newPolls := newPolls[i := newPolls[i] + 1];
      match r {
        case Some(output) =>
          FillOne(results[..], i, output);
          ghost var before := results[..];
          results[i] := Some(output);
          assert results[..] == before[i := Some(output)];
          newDone := newDone + 1;
        case None =>
      }
    }
  }

  /**
   * Result `i` is the output of future `i`, and no future is polled again
   * after it was ready: each is polled exactly until it is.
   */
  method JoinAllVec<T>(all: seq<Future<T>>) returns (outputs: seq<T>, ghost polls: seq<nat>)
    requires AllPending(all)
    ensures outputs == Outputs(all)
    ensures |polls| == |all| && forall i | 0 <= i < |all| :: polls[i] == all[i].left + 1
  {
    var futures := all;
    var results := new Option<T>[|all|](_ => None);
    var done := 0;
    ghost var rounds := 0;
    polls := seq(|all|, _ => 0);
    NoneFilled(results[..]);
    var complete := false;
    while !complete
      invariant |all| == |futures| == results.Length == |polls| && done == Filled(results[..])
      invariant forall i | 0 <= i < |all| ::
        AfterRounds(all[i], rounds, futures[i], results[i]) && Polled(all[i], rounds, polls[i])
      invariant complete ==> done == |all|
      invariant !complete ==> rounds <= MaxLeft(all)
      decreases if complete then 0 else MaxLeft(all) + 1 - rounds
    {
      futures, done, polls := PollEmpty(all, rounds, futures, results, done, polls);
      rounds := rounds + 1;
      FilledExact(results[..]);
      if done == |all| {
        complete := true;
      }
    }
    FilledExact(results[..]);
    outputs := Unwrap(results[..]);
  }

  lemma {:induction false} NoneFilled<T>(slots: seq<Option<T>>)
    requires forall i | 0 <= i < |slots| :: slots[i].None?
    ensures Filled(slots) == 0
  {
    if slots != [] {
      NoneFilled(slots[..|slots| - 1]);
    }
  }

  /** `expect` on every slot. */
  function Unwrap<T>(slots: seq<Option<T>>): (r: seq<T>)
    requires forall i | 0 <= i < |slots| :: slots[i].Some?
    ensures |r| == |slots| && forall i | 0 <= i < |slots| :: r[i] == slots[i].value
  {
    seq(|slots|, i requires 0 <= i < |slots| => slots[i].value)
  }
}
