/**
 * Provider worker threads, the channels they report on, and the caller's
 * bookkeeping of provider slots, as a transition system. The environment
 * (threads, clock) and the caller take their steps in any order.
 */
module Workers {
  import opened Types
  import opened Tally

  /** What a provider's `get_ip` does: it returns something, or it panics. */
  datatype Reply = Answer(outcome: Result<IpAddr, ProviderError>) | Panic

  datatype Message = Message(
    id: nat, name: string, protocol: Protocol, outcome: Result<IpAddr, ProviderError>, latency: nat)

  /**
   * The worker of a slot. The slot may be skipped without asking for a thread,
   * or the operating system refuses the thread. A running worker holds a sender
   * of its channel, and takes the time once its thread gets to run. When its provider returns it
   * measures the latency, and then sends its message, as letter number
   * `letter`; it holds the sender until it exits. A worker that died dropped
   * its sender without a message: the payload of a caught panic is dropped
   * outside `catch_unwind`, and its destructor may panic again.
   */
  datatype Worker =
    | Idle
    | Skipped
    | NotStarted(error: ProviderError)
    | Running(chan: nat, begun: Option<nat>)
    | Measured(chan: nat, start: nat, message: Message)
    | Finished(chan: nat, start: nat, message: Message, sentAt: nat, letter: nat, exited: bool)
    | Died(chan: nat)
  {
    /** The thread was started. */
    predicate Started() { !Idle? && !Skipped? && !NotStarted? }

    /** The worker holds no sender any more. */
    predicate Silent() { Died? || (Finished? && exited) }
  }

  /**
   * A channel: everything ever sent on it, how much of that was received,
   * whether the caller still holds a sender, and whether the receiver is alive.
   */
  datatype Channel = Channel(log: seq<Message>, taken: nat, callerSends: bool, open: bool)

  /** What the caller has made of slot `id`. */
  datatype Settled = Settled(id: nat, outcome: Outcome)

  datatype State = State(
    providers: seq<Provider>, version: IpVersion, now: nat,
    workers: seq<Worker>, channels: seq<Channel>,
    pending: map<nat, string>, settled: seq<Settled>)

  datatype Event =
    // the environment
    | Tick(ticks: nat)
    | Begin(id: nat)
    | Measure(id: nat, reply: Reply)
    | Send(id: nat)
    | Exit(id: nat)
    | Die(id: nat)
    // the caller
    | Open
    | Skip(id: nat)
    | Spawn(id: nat, chan: nat)
    | SpawnFails(id: nat, message: string)
    | DropSender(chan: nat)
    | Receive(chan: nat)
    | Close(chan: nat)
    | TimeOut(id: nat)
    | Disconnect(id: nat)
  {
    predicate FromEnvironment() { Tick? || Begin? || Measure? || Send? || Exit? || Die? }

    /** Steps that are the caller's alone: they neither ask for a thread nor for a message. */
    predicate Bookkeeping() { Open? || Skip? || DropSender? || Close? || TimeOut? || Disconnect? }
  }

  /** Every step is the environment's, the caller's alone, or between the two; and only one of these. */
  lemma StepsAreDivided(ev: Event)
    ensures ev.FromEnvironment() <==> !ev.Bookkeeping() && !ev.Spawn? && !ev.SpawnFails? && !ev.Receive?
    ensures ev.Bookkeeping() ==> !ev.Spawn? && !ev.SpawnFails? && !ev.Receive?
  {
  }

  /** What the caller makes of a message. */
  function Judge(version: IpVersion, m: Message): Outcome {
    match m.outcome
    case Failure(e) => Failure(e)
    case Success(ip) =>
      match ValidateIp(m.name, version, ip)
      case Failure(e) => Failure(e)
      case Success(ip) => Success(ProviderResult(ip, m.name, m.protocol, m.latency))
  }

  /**
   * A result is exactly what the message says of an address of the family asked
   * for; a provider's own error is passed on, and another family is an error.
   */
  lemma JudgeExact(version: IpVersion, m: Message, pr: ProviderResult)
    ensures Judge(version, m) == Success(pr) <==>
      && m == Message(m.id, pr.provider, pr.protocol, Success(pr.ip), pr.latency)
      && (version.OnlyV4? ==> pr.ip.V4?) && (version.OnlyV6? ==> pr.ip.V6?)
    ensures m.outcome.Failure? ==> Judge(version, m) == Failure(m.outcome.error)
    ensures m.outcome.Success? && Judge(version, m).Failure? ==>
      Judge(version, m).error == ProviderError(m.name, "provider returned unexpected IP version")
  {
  }

  /** What a worker reports: a panic is caught and reported as an error. */
  function Report(id: nat, provider: Provider, reply: Reply, latency: nat): Message {
    var outcome := match reply
      case Answer(outcome) => outcome
      case Panic => Failure(ProviderError(provider.name, "provider panicked"));
    Message(id, provider.name, provider.protocol, outcome, latency)
  }

  // ---------------------------------------------------------------------------
  // Steps
  // ---------------------------------------------------------------------------

  function Init(providers: seq<Provider>, version: IpVersion, now: nat): State {
    State(providers, version, now, seq(|providers|, _ => Idle), [], map[], [])
  }

  predicate WorksOn(s: State, id: nat, chan: nat) {
    && id < |s.workers| && chan < |s.channels|
    && s.workers[id].Started() && s.workers[id].chan == chan
  }

  /** Nobody is left who could send on this channel. */
  predicate SendersGone(s: State, chan: nat)
    requires chan < |s.channels|
  {
    && !s.channels[chan].callerSends
    && forall id | 0 <= id < |s.workers| && WorksOn(s, id, chan) :: s.workers[id].Silent()
  }

  predicate Enabled(s: State, ev: Event) {
    match ev
    case Tick(_) => true
    case Begin(id) => id < |s.workers| && s.workers[id].Running? && s.workers[id].begun.None?
    case Measure(id, _) =>
      && id < |s.workers| == |s.providers| && s.workers[id].Running?
      && s.workers[id].begun.Some? && s.workers[id].begun.value <= s.now
    case Send(id) => id < |s.workers| && s.workers[id].Measured? && s.workers[id].chan < |s.channels|
    case Die(id) => id < |s.workers| && s.workers[id].Running? && s.workers[id].begun.Some?
    case Exit(id) => id < |s.workers| && s.workers[id].Finished?
    case Open => true
    case Skip(id) => id < |s.workers| == |s.providers| && s.workers[id].Idle?
    case Spawn(id, chan) =>
      && id < |s.workers| == |s.providers| && s.workers[id].Idle?
      && chan < |s.channels| && s.channels[chan].callerSends && s.channels[chan].open
    case SpawnFails(id, _) => id < |s.workers| == |s.providers| && s.workers[id].Idle?
    case DropSender(chan) => chan < |s.channels|
    case Receive(chan) =>
      chan < |s.channels| && s.channels[chan].open && s.channels[chan].taken < |s.channels[chan].log|
    case Close(chan) => chan < |s.channels|
    case TimeOut(id) =>
      && id in s.pending && id < |s.workers| == |s.providers| && s.workers[id].Started()
      && s.workers[id].chan < |s.channels| && !s.channels[s.workers[id].chan].open
    case Disconnect(id) =>
      id in s.pending && id < |s.workers| == |s.providers| && s.workers[id].Died?
  }

  function Settle(s: State, id: nat, outcome: Outcome): State {
    s.(pending := s.pending - {id}, settled := s.settled + [Settled(id, outcome)])
  }

  function SetWorker(s: State, id: nat, w: Worker): State
    requires id < |s.workers|
  {
    s.(workers := s.workers[id := w])
  }

  function SetChannel(s: State, chan: nat, c: Channel): State
    requires chan < |s.channels|
  {
    s.(channels := s.channels[chan := c])
  }

  /** The slot is settled without a worker. */
  function NotStart(s: State, id: nat, w: Worker, e: ProviderError): State
    requires id < |s.workers|
  {
    Settle(SetWorker(s, id, w), id, Failure(e))
  }

  function MeasureWorker(s: State, id: nat, reply: Reply): State
    requires Enabled(s, Measure(id, reply))
  {
    var start := s.workers[id].begun.value;
    SetWorker(s, id, Measured(s.workers[id].chan, start, Report(id, s.providers[id], reply, s.now - start)))
  }

  function SendMessage(s: State, id: nat): State
    requires Enabled(s, Send(id))
  {
    var w := s.workers[id];
    var c := s.channels[w.chan];
    var sent := SetWorker(s, id, Finished(w.chan, w.start, w.message, s.now, |c.log|, false));
    // A message to a receiver that is gone is dropped.
    if c.open then SetChannel(sent, w.chan, c.(log := c.log + [w.message])) else sent
  }

  function Apply(s: State, ev: Event): State
    requires Enabled(s, ev)
  {
    match ev
    case Tick(ticks) => s.(now := s.now + ticks)
    case Begin(id) => SetWorker(s, id, s.workers[id].(begun := Some(s.now)))
    case Measure(id, reply) => MeasureWorker(s, id, reply)
    case Send(id) => SendMessage(s, id)
    case Exit(id) => SetWorker(s, id, s.workers[id].(exited := true))
    case Die(id) => SetWorker(s, id, Died(s.workers[id].chan))
    case Open => s.(channels := s.channels + [Channel([], 0, true, true)])
    case Skip(id) => NotStart(s, id, Skipped, TimeoutError(s.providers[id].name))
    case Spawn(id, chan) =>
      SetWorker(s, id, Running(chan, None)).(pending := s.pending[id := s.providers[id].name])
    case SpawnFails(id, message) =>
      var e := ProviderError(s.providers[id].name, message);
      NotStart(s, id, NotStarted(e), e)
    case DropSender(chan) => SetChannel(s, chan, s.channels[chan].(callerSends := false))
    case Receive(chan) =>
      var c := s.channels[chan];
      var m := c.log[c.taken];
      Settle(SetChannel(s, chan, c.(taken := c.taken + 1)), m.id, Judge(s.version, m))
    case Close(chan) => SetChannel(s, chan, s.channels[chan].(open := false))
    case TimeOut(id) => Settle(s, id, Failure(TimeoutError(s.pending[id])))
    case Disconnect(id) => Settle(s, id, Failure(DisconnectedError(s.pending[id])))
  }

  function Run(s: State, trace: seq<Event>): Option<State> {
    if trace == [] then Some(s)
    else
      match Run(s, trace[..|trace| - 1])
      case None => None
      case Some(t) => if Enabled(t, trace[|trace| - 1]) then Some(Apply(t, trace[|trace| - 1])) else None
  }

  // ---------------------------------------------------------------------------
  // What holds in every reachable state
  // ---------------------------------------------------------------------------

  ghost predicate IsSettled(s: State, id: nat) {
    exists i :: 0 <= i < |s.settled| && s.settled[i].id == id
  }

  /** A worker's message is its own slot's. */
  predicate OwnMessage(s: State, id: nat, m: Message)
    requires id < |s.providers|
  {
    m.id == id && m.name == s.providers[id].name && m.protocol == s.providers[id].protocol
  }

  /** A slot is pending or settled exactly when it was tried; a pending slot's message is still to be received. */
  ghost predicate WorkerOk(s: State, id: nat)
    requires id < |s.workers| == |s.providers|
  {
    var w := s.workers[id];
    if w.Idle? then id !in s.pending && !IsSettled(s, id)
    else if w.Skipped? then id !in s.pending && IsSettled(s, id)
    else if w.NotStarted? then id !in s.pending && IsSettled(s, id) && w.error.provider == s.providers[id].name
    else
      && w.chan < |s.channels|
      && (id in s.pending || IsSettled(s, id))
      && StageOk(s, id, w)
  }

  /** How far a started worker is, and what that says about its slot. */
  ghost predicate StageOk(s: State, id: nat, w: Worker)
    requires id < |s.providers| && w.Started() && w.chan < |s.channels|
  {
    var c := s.channels[w.chan];
    match w
    case Running(_, begun) => (begun.Some? ==> begun.value <= s.now) && (c.open ==> id in s.pending)
    case Measured(_, start, m) => OwnMessage(s, id, m) && start + m.latency <= s.now && (c.open ==> id in s.pending)
    case Finished(_, start, m, sentAt, letter, _) =>
      && OwnMessage(s, id, m) && start + m.latency <= sentAt <= s.now
      && (letter < c.taken ==> letter < |c.log| && c.log[letter] == m)
      && (c.open ==> letter < |c.log| && c.log[letter] == m && (id in s.pending <==> c.taken <= letter))
    case _ => true
  }

  /** Every letter comes from its slot's worker; every received letter is settled by what it says. */
  ghost predicate LetterOk(s: State, c: nat, k: nat)
    requires c < |s.channels| && k < |s.channels[c].log|
  {
    var m := s.channels[c].log[k];
    && m.id < |s.workers|
    && s.workers[m.id].Finished? && s.workers[m.id].chan == c
    && s.workers[m.id].message == m && s.workers[m.id].letter == k
    && (k < s.channels[c].taken ==> Settled(m.id, Judge(s.version, m)) in s.settled)
  }

  /**
   * An outcome is the slot's own: its refusal, its received message, its disconnection,
   * or a timeout because it was skipped or the caller stopped receiving.
   */
  ghost predicate Justified(s: State, id: nat, outcome: Outcome)
    requires id < |s.workers| == |s.providers|
  {
    var timedOut := outcome == Failure(TimeoutError(s.providers[id].name));
    var w := s.workers[id];
    if w.Idle? then false
    else if w.Skipped? then timedOut
    else if w.NotStarted? then outcome == Failure(w.error)
    else
      || (w.Finished? && w.chan < |s.channels| && w.letter < s.channels[w.chan].taken
          && outcome == Judge(s.version, w.message))
      || (w.Died? && outcome == Failure(DisconnectedError(s.providers[id].name)))
      || (w.chan < |s.channels| && !s.channels[w.chan].open && timedOut)
  }

  ghost predicate SettledOk(s: State, i: nat)
    requires i < |s.settled| && |s.workers| == |s.providers|
  {
    var t := s.settled[i];
    t.id < |s.workers| && t.id !in s.pending && Justified(s, t.id, t.outcome)
  }

  ghost predicate PendingOk(s: State, id: nat)
    requires id in s.pending && |s.workers| == |s.providers|
  {
    id < |s.workers| && s.pending[id] == s.providers[id].name && s.workers[id].Started()
  }

  ghost predicate SettledOnce(settled: seq<Settled>) {
    forall i, j :: 0 <= i < j < |settled| ==> settled[i].id != settled[j].id
  }

  ghost predicate Invariant(s: State) {
    && |s.workers| == |s.providers|
    && (forall id: nat | id < |s.workers| :: WorkerOk(s, id))
    && (forall c: nat | c < |s.channels| :: s.channels[c].taken <= |s.channels[c].log|)
    && (forall c: nat, k: nat | c < |s.channels| && k < |s.channels[c].log| :: LetterOk(s, c, k))
    && (forall i: nat | i < |s.settled| :: SettledOk(s, i))
    && (forall id <- s.pending :: PendingOk(s, id))
    && SettledOnce(s.settled)
  }
}
