/** No provider slot is lost, counted twice, or credited to another, whatever the schedule. */
module Conservation {
  import opened Types
  import opened Tally
  import opened Workers
  import opened WorkerRuns

  function Outcomes(settled: seq<Settled>): (o: seq<Outcome>)
    ensures |o| == |settled|
  {
    seq(|settled|, i requires 0 <= i < |settled| => settled[i].outcome)
  }

  lemma OutcomesAppend(settled: seq<Settled>, t: Settled)
    ensures Outcomes(settled + [t]) == Outcomes(settled) + [t.outcome]
  {
  }

  // ---------------------------------------------------------------------------
  // Conservation
  // ---------------------------------------------------------------------------

  function One(b: bool): nat { if b then 1 else 0 }

  /**
   * In every reachable state each slot is in exactly one of three places: not
   * tried yet, pending, or settled, and settled once.
   */
  lemma SlotsAreConserved(providers: seq<Provider>, version: IpVersion, now: nat, trace: seq<Event>, s: State, id: nat)
    requires Run(Init(providers, version, now), trace) == Some(s)
    requires id < |providers|
    ensures |s.workers| == |providers|
    ensures One(s.workers[id].Idle?) + One(id in s.pending) + One(IsSettled(s, id)) == 1
    ensures forall i, j | 0 <= i < |s.settled| && 0 <= j < |s.settled| ::
      s.settled[i].id == id && s.settled[j].id == id ==> i == j
  {
    RunIsSteady(Init(providers, version, now), trace);
    InitKeeps(providers, version, now);
    RunKeeps(Init(providers, version, now), trace);
    assert WorkerOk(s, id);
    if id in s.pending {
      assert PendingOk(s, id);
      PendingIsNotSettled(s, id);
    }
  }

  function Below(n: nat): (r: set<nat>)
    ensures |r| == n
    ensures forall id: nat :: id in r <==> id < n
  {
    if n == 0 then {} else Below(n - 1) + {n - 1}
  }

  function IdsOf(settled: seq<Settled>): (ids: seq<nat>)
    ensures |ids| == |settled|
  {
    seq(|settled|, i requires 0 <= i < |settled| => settled[i].id)
  }

  ghost predicate Distinct(ids: seq<nat>) {
    forall i, j :: 0 <= i < j < |ids| ==> ids[i] != ids[j]
  }

  ghost function Elements(ids: seq<nat>): set<nat> { set id | id in ids }

  ghost function Ids(settled: seq<Settled>): set<nat> { Elements(IdsOf(settled)) }

  lemma {:induction false} DistinctAreCounted(ids: seq<nat>)
    requires Distinct(ids)
    ensures |Elements(ids)| == |ids|
  {
    if ids != [] {
      var n := |ids| - 1;
      DistinctAreCounted(ids[..n]);
      assert ids == ids[..n] + [ids[n]];
      assert Elements(ids) == Elements(ids[..n]) + {ids[n]};
    }
  }

  lemma IdsAreCounted(settled: seq<Settled>)
    requires SettledOnce(settled)
    ensures Distinct(IdsOf(settled)) && |Ids(settled)| == |settled|
  {
    DistinctAreCounted(IdsOf(settled));
  }

  lemma IdIsListed(settled: seq<Settled>, id: nat)
    ensures id in Ids(settled) <==> exists i :: 0 <= i < |settled| && settled[i].id == id
  {
    forall i | 0 <= i < |settled| ensures settled[i].id in IdsOf(settled) {
      assert IdsOf(settled)[i] == settled[i].id;
    }
  }

  /** Once every slot was tried, the pending and the settled ones add up to all of them. */
  lemma {:induction false} EverySlotIsCounted(s: State)
    requires Invariant(s)
    requires forall id: nat | id < |s.workers| :: !s.workers[id].Idle?
    ensures |s.pending| + |s.settled| == |s.providers|
    ensures s.pending.Keys + Ids(s.settled) == Below(|s.providers|) && s.pending.Keys !! Ids(s.settled)
  {
    IdsAreCounted(s.settled);
    forall id | id in Ids(s.settled) ensures id !in s.pending && id < |s.providers| {
      IdIsListed(s.settled, id);
      var i :| 0 <= i < |s.settled| && s.settled[i].id == id;
      assert SettledOk(s, i);
    }
    forall id: nat | id < |s.providers| ensures id in s.pending || id in Ids(s.settled) {
      IdIsListed(s.settled, id);
      assert WorkerOk(s, id);
    }
    forall id <- s.pending.Keys ensures id < |s.providers| {
      assert PendingOk(s, id);
    }
    assert s.pending.Keys + Ids(s.settled) == Below(|s.providers|);
    assert |s.pending| == |s.pending.Keys|;
  }

  /** So when none is pending any more, errors and results together are exactly as many as there are slots. */
  lemma AllAreSettled(s: State)
    requires Invariant(s) && s.pending == map[]
    requires forall id: nat | id < |s.workers| :: !s.workers[id].Idle?
    ensures |Failures(Outcomes(s.settled))| + |Successes(Outcomes(s.settled))| == |s.providers| == |s.settled|
  {
    EverySlotIsCounted(s);
    PartSizes(Outcomes(s.settled));
  }

  // ---------------------------------------------------------------------------
  // Disconnection
  // ---------------------------------------------------------------------------

  /** The receiver of this channel would report that it is disconnected. */
  ghost predicate Disconnected(s: State, chan: nat)
    requires chan < |s.channels|
  {
    s.channels[chan].taken >= |s.channels[chan].log| && SendersGone(s, chan)
  }

  /** The slot's message is queued on this channel. */
  ghost predicate IsQueued(s: State, chan: nat, id: nat)
    requires chan < |s.channels|
  {
    exists k :: s.channels[chan].taken <= k < |s.channels[chan].log| && s.channels[chan].log[k].id == id
  }

  /**
   * The worker of a pending slot holds a sender, or its message is queued, or
   * it died without one; exactly one of the three.
   */
  lemma PendingIsConnected(s: State, chan: nat, id: nat)
    requires Invariant(s) && chan < |s.channels| && s.channels[chan].open
    requires id in s.pending && WorksOn(s, id, chan)
    ensures One(s.workers[id].Running? || s.workers[id].Measured?)
      + One(IsQueued(s, chan, id)) + One(s.workers[id].Died?) == 1
  {
    assert WorkerOk(s, id);
    if s.workers[id].Finished? {
      assert s.channels[chan].log[s.workers[id].letter].id == id;
    } else {
      forall k: nat | k < |s.channels[chan].log| ensures s.channels[chan].log[k].id != id {
        assert LetterOk(s, chan, k);
      }
    }
  }

  /** So a disconnected channel means that whoever is pending on it has died. */
  lemma DisconnectedMeansDied(s: State, chan: nat, id: nat)
    requires Invariant(s) && chan < |s.channels| && s.channels[chan].open && Disconnected(s, chan)
    requires id in s.pending && WorksOn(s, id, chan)
    ensures s.workers[id].Died?
  {
    assert WorkerOk(s, id);
  }

  ghost predicate AllAlive(s: State) {
    forall id: nat | id < |s.workers| :: !s.workers[id].Died?
  }

  lemma OnlyDeathKills(s: State, ev: Event)
    requires Enabled(s, ev) && !ev.Die? && AllAlive(s)
    ensures AllAlive(Apply(s, ev))
  {
  }

  lemma {:induction false} NobodyDies(s: State, trace: seq<Event>)
    requires (forall ev <- trace :: !ev.Die?) && AllAlive(s)
    ensures Run(s, trace).Some? ==> AllAlive(Run(s, trace).value)
  {
    if trace != [] {
      NobodyDies(s, trace[..|trace| - 1]);
      assert trace[|trace| - 1] in trace;
      if Run(s, trace).Some? {
        OnlyDeathKills(Run(s, trace[..|trace| - 1]).value, trace[|trace| - 1]);
      }
    }
  }

  /**
   * Unless a worker dies between catching a panic and reporting it, a
   * disconnected receive is never observed while a slot is pending, whether
   * providers fail, panic or cannot be started.
   */
  lemma NeverDisconnected(
      providers: seq<Provider>, version: IpVersion, now: nat, trace: seq<Event>, s: State, chan: nat, id: nat)
    requires Run(Init(providers, version, now), trace) == Some(s)
    requires chan < |s.channels| && s.channels[chan].open
    requires id in s.pending && WorksOn(s, id, chan)
    requires forall ev <- trace :: !ev.Die?
    ensures !Disconnected(s, chan)
  {
    InitKeeps(providers, version, now);
    RunKeeps(Init(providers, version, now), trace);
    NobodyDies(Init(providers, version, now), trace);
    if Disconnected(s, chan) {
      DisconnectedMeansDied(s, chan, id);
    }
  }

  /** The exception is real: after such a death the receiver does see it. */
  lemma DeathDisconnects(p: Provider, version: IpVersion) returns (trace: seq<Event>, s: State)
    ensures Run(Init([p], version, 0), trace) == Some(s)
    ensures |s.channels| == 1 && s.channels[0].open && 0 in s.pending && WorksOn(s, 0, 0) && Disconnected(s, 0)
  {
    trace, s := Launch([p], version, 1);
    trace, s := Then([p], version, trace, s, DropSender(0));
    assert s.channels == [Channel([], 0, false, true)] && s.workers == [Running(0, None)];
    trace, s := Then([p], version, trace, s, Begin(0));
    assert s.workers == [Running(0, Some(0))];
    trace, s := Then([p], version, trace, s, Die(0));
    assert s.workers == [Died(0)];
  }

  // ---------------------------------------------------------------------------
  // Attribution
  // ---------------------------------------------------------------------------

  /** Message `m` was sent by the worker of slot `id`. */
  ghost predicate SentBy(s: State, id: nat, m: Message) {
    id < |s.workers| && s.workers[id].Finished? && s.workers[id].message == m
  }

  /** The slot's error is the one its worker sent, or says that its worker sent an address of the wrong family. */
  ghost predicate ErrorWasSent(s: State, id: nat, name: string, e: ProviderError) {
    || (exists m :: SentBy(s, id, m) && m.outcome == Failure(e))
    || (e == ProviderError(name, "provider returned unexpected IP version")
        && exists m :: SentBy(s, id, m) && m.outcome.Success?
             && s.version == if m.outcome.value.V4? then OnlyV6 else OnlyV4)
  }

  /** An error without a message: the thread was refused, the worker died, or the slot was skipped or given up. */
  ghost predicate ErrorIsOwn(s: State, id: nat, name: string, e: ProviderError)
    requires id < |s.workers|
  {
    var w := s.workers[id];
    || (w.NotStarted? && e == w.error && e.provider == name)
    || (w.Died? && e == ProviderError(name, "provider worker disconnected"))
    || (e == ProviderError(name, "timeout")
        && (w.Skipped? || (w.Started() && w.chan < |s.channels| && !s.channels[w.chan].open)))
  }

  /**
   * A recorded result carries the slot's own provider name and protocol, the
   * address its worker sent, and is of the family asked for; every error has
   * its reason, and without a message from the worker names the slot's provider.
   */
  lemma OutcomesAreAttributed(
      providers: seq<Provider>, version: IpVersion, now: nat, trace: seq<Event>, s: State, i: nat)
    requires Run(Init(providers, version, now), trace) == Some(s)
    requires i < |s.settled|
    ensures s.settled[i].id < |providers|
    ensures s.settled[i].outcome.Success? ==>
      var pr := s.settled[i].outcome.value;
      && pr.provider == providers[s.settled[i].id].name && pr.protocol == providers[s.settled[i].id].protocol
      && (version.OnlyV4? ==> pr.ip.V4?) && (version.OnlyV6? ==> pr.ip.V6?) && pr.latency <= s.now
      && SentBy(s, s.settled[i].id, Message(s.settled[i].id, pr.provider, pr.protocol, Success(pr.ip), pr.latency))
    ensures |s.workers| == |providers|
    ensures s.settled[i].outcome.Failure? ==>
      var name := providers[s.settled[i].id].name;
      || ErrorWasSent(s, s.settled[i].id, name, s.settled[i].outcome.error)
      || ErrorIsOwn(s, s.settled[i].id, name, s.settled[i].outcome.error)
  {
    RunIsSteady(Init(providers, version, now), trace);
    InitKeeps(providers, version, now);
    RunKeeps(Init(providers, version, now), trace);
    assert SettledOk(s, i);
    assert WorkerOk(s, s.settled[i].id);
    if s.workers[s.settled[i].id].Finished? {
      assert SentBy(s, s.settled[i].id, s.workers[s.settled[i].id].message);
    }
  }

  // ---------------------------------------------------------------------------
  // The order of settling is a permutation of the slots
  // ---------------------------------------------------------------------------

  lemma SplitOff<T>(s: seq<T>, i: nat)
    requires i < |s|
    ensures multiset(s) == multiset(s[..i] + s[i + 1..]) + multiset{s[i]}
  {
    assert s == s[..i] + [s[i]] + s[i + 1..];
  }

  /** `values` lists the elements of `bySlot`, each once, in the order of `ids`. */
  ghost predicate Lists<T(!new)>(ids: seq<nat>, values: seq<T>, bySlot: seq<T>) {
    && Distinct(ids) && |ids| == |values| == |bySlot|
    && forall i | 0 <= i < |ids| :: ids[i] < |bySlot| && values[i] == bySlot[ids[i]]
  }

  function Without<T>(s: seq<T>, i: nat): (r: seq<T>)
    requires i < |s|
    ensures |r| == |s| - 1
    ensures forall j | 0 <= j < |r| :: r[j] == s[if j < i then j else j + 1]
  {
    s[..i] + s[i + 1..]
  }

  lemma ListsTheRest<T(!new)>(ids: seq<nat>, values: seq<T>, bySlot: seq<T>, i: nat)
    requires Lists(ids, values, bySlot) && i < |ids| && ids[i] == |bySlot| - 1
    ensures Lists(Without(ids, i), Without(values, i), bySlot[..|bySlot| - 1])
  {
  }

  /** Going through the slots once each, in any order, yields a permutation of what they hold. */
  lemma {:induction false} ListingPermutes<T(!new)>(ids: seq<nat>, values: seq<T>, bySlot: seq<T>)
    requires Lists(ids, values, bySlot)
    ensures multiset(values) == multiset(bySlot)
    decreases |ids|
  {
    if bySlot != [] {
      var n := |bySlot| - 1;
      LastIsListed(ids, n);
      var i: nat :| i < |ids| && ids[i] == n;
      ListsTheRest(ids, values, bySlot, i);
      ListingPermutes(Without(ids, i), Without(values, i), bySlot[..n]);
      SplitOff(values, i);
      SplitOff(bySlot, n);
      assert bySlot[..n] + bySlot[n + 1..] == bySlot[..n];
    }
  }

  /** Settling every slot once, in any order, yields a permutation of the addresses by slot. */
  lemma SettlingPermutes(settled: seq<Settled>, bySlot: seq<Outcome>)
    requires SettledOnce(settled) && |settled| == |bySlot|
    requires forall i | 0 <= i < |settled| ::
      settled[i].id < |bySlot| && Address(settled[i].outcome) == Address(bySlot[settled[i].id])
    ensures multiset(Addresses(Outcomes(settled))) == multiset(Addresses(bySlot))
  {
    var listed: seq<Option<IpAddr>> := Addresses(Outcomes(settled));
    var wanted: seq<Option<IpAddr>> := Addresses(bySlot);
    IdsAreCounted(settled);
    assert Lists(IdsOf(settled), listed, wanted);
    ListingPermutes(IdsOf(settled), listed, wanted);
    assert multiset(listed) == multiset(wanted);
  }

  lemma LastIsListed(ids: seq<nat>, n: nat)
    requires Distinct(ids) && |ids| == n + 1
    requires forall i | 0 <= i < |ids| :: ids[i] < n + 1
    ensures n in ids
  {
    DistinctAreCounted(ids);
    if n !in ids {
      forall id | id in Elements(ids) ensures id in Below(n) {}
      SmallerIfContained(Elements(ids), Below(n));
      assert false;
    }
  }

  lemma {:induction false} SmallerIfContained<T>(a: set<T>, b: set<T>)
    requires a <= b
    ensures |a| <= |b|
    decreases b
  {
    if a != {} {
      var x :| x in a;
      SmallerIfContained(a - {x}, b - {x});
    }
  }

  // ---------------------------------------------------------------------------
  // Agreement is agreement of distinct slots
  // ---------------------------------------------------------------------------

  /** The slots whose provider reported `ip`. */
  ghost function AgreeingSlots(settled: seq<Settled>, ip: IpAddr): set<nat> {
    set i | 0 <= i < |settled| && settled[i].outcome.Success? && settled[i].outcome.value.ip == ip :: settled[i].id
  }

  lemma AgreeingSlotsAppend(settled: seq<Settled>, t: Settled, ip: IpAddr)
    ensures AgreeingSlots(settled + [t], ip) ==
      AgreeingSlots(settled, ip) + if t.outcome.Success? && t.outcome.value.ip == ip then {t.id} else {}
  {
    var longer := settled + [t];
    forall i: nat | i < |longer| ensures longer[i] == if i < |settled| then settled[i] else t {}
    forall id | id in AgreeingSlots(settled, ip) ensures id in AgreeingSlots(longer, ip) {
      var i :| 0 <= i < |settled| && settled[i].outcome.Success? && settled[i].outcome.value.ip == ip
        && settled[i].id == id;
      assert longer[i] == settled[i];
    }
    if t.outcome.Success? && t.outcome.value.ip == ip {
      assert longer[|settled|] == t;
    }
  }

  /** A group never counts a slot twice: it has as many members as there are slots that reported its address. */
  lemma {:induction false} GroupIsDistinctSlots(settled: seq<Settled>, ip: IpAddr)
    requires SettledOnce(settled)
    ensures |AgreeingSlots(settled, ip)| == |Group(Successes(Outcomes(settled)), ip)|
  {
    if settled != [] {
      var n := |settled| - 1;
      var before, t := settled[..n], settled[n];
      GroupIsDistinctSlots(before, ip);
      assert settled == before + [t];
      AgreeingSlotsAppend(before, t, ip);
      OutcomesAppend(before, t);
      PartsAppend(Outcomes(before), t.outcome);
      if t.outcome.Success? {
        GroupAppend(Successes(Outcomes(before)), t.outcome.value, ip);
        assert t.id !in AgreeingSlots(before, ip);
      }
    }
  }
}
