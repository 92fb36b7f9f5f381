# Verification of the public-IP discovery library

The library asks several providers (DNS servers, STUN servers, web services) for
the caller's public IP address and combines what they say: it takes the first
success in order, the first success in time, or an address that enough providers
agree on. This project models the parts of it that are easy to get wrong, and
proves what they promise.

- **The blocking resolver** (`Workers`, `WorkerRuns`, `Progress`,
  `Conservation`, `Answers`, `RaceOrder`, `BlockingWorld`, `BlockingSlots`,
  `BlockingFirst`, `BlockingResolver`). Worker threads, the channels they report
  on, the clock and the caller's bookkeeping form a transition system whose
  steps may come in any order: threads that cannot be started, workers that
  begin, measure, send, fail, panic or die, messages queued, received and lost,
  senders dropped, receivers closed, slots given up. An invariant is proved for
  every run of it. The three strategies are methods that change the `pending`
  map, the error list and the groups in place. They run against the class
  `World`, which lets the environment take any steps between any two steps of
  the caller, whose state is always the outcome of a run of the transition
  system, and which records every thread asked for, every look at the clock and
  every wait, so that the contracts can say that everybody is asked, and that
  nobody is given up without need.
- **The consensus tally** (`Tally`), shared by both resolvers: grouping,
  selection over a map in any iteration order, and the verdict, specified
  independently of arrival order and proved to be the same for every order as
  far as it is.
- **The asynchronous resolver** (`Futures`, `AsyncRace`, `AsyncResolver`). Futures are
  scripts: some number of pending polls, then an output. `select_first` and
  `join_all_vec` are proved against what they replace, and the three strategies
  on top of them; both resolvers are proved to agree.
- **The STUN codec** (`Bytes`, `StunMessage`, `StunClient`). The wire format of
  RFC 5389 is a relation between messages and octets. The decoder is proved
  sound and complete against it, and a reply to a request is proved to report
  the address the server saw.
- **The DNS codec** (`Text`, `DnsNames`, `DnsQuery`, `DnsProtocol`,
  `DnsResponses`, `DnsClient`). Names, questions and records of RFC 1035 are
  relations between values and octets as well. The query builder, the name
  walker and the response parser are loops proved exact against them; a query
  answered with any records yields the first suitable address.
- **The configuration** (`Configuration`), as far as the strategies depend on
  it.

Providers are identified by slot, that is, by their position among the matching
providers, and never by name: names need not be unique, and errors of custom
providers may carry any name.

## Where the code and its documentation differ

The model follows the code.

- The race is documented to return "the fastest success". It returns the first
  valid message in the order of sending (`BlockingResolver.ResolveRace`,
  `RaceOrder.WinnerIsSentFirst`). With two matching providers or more there are
  runs in which another valid message has a smaller latency, because threads
  begin one after the other; the promise holds for all runs exactly if at most
  one provider matches (`RaceOrder.FastestWinsExactly`).
- The asynchronous race polls its futures in order, and starts over from the
  front whenever one of them has failed. Those in front of the failed one were
  polled once more than those behind it by then, so a success in front can win
  although one behind would have needed fewer polls (`AsyncRace.SlowerMayWin`).
  The winner needs at most one poll more for every provider that failed, and the
  fewest polls win in all races exactly if there are at most two futures
  (`AsyncRace.FewestPollsWinExactly`). That `swap_remove` also moves the last
  future to the place of the failed one changes which futures are in front.
- "Provider worker disconnected" looks unreachable, since a worker catches
  panics. But the payload of a caught panic is dropped outside `catch_unwind`; if
  its destructor panics, the worker dies without a message, and the error is seen
  (`Conservation.DeathDisconnects`). Nothing else leads to it
  (`Conservation.NeverDisconnected`).
- If the deadline of a race or a consensus cannot be represented, no time remains
  at all: no message is received, and every slot is refused its thread or times
  out (`BlockingResolver.Diligent`, which both ensure).
- A name walked in a response may have labels of 64 to 191 octets, which RFC 1035
  section 4.1.4 reserves, and may end one octet behind the data, when its last
  octet is the first half of a pointer.
- A malformed XOR-MAPPED-ADDRESS does not make the client fall back to
  MAPPED-ADDRESS (`StunClient.NoFallbackToMappedAddress`).
- `encode` writes a header only; a message with attributes does not survive it
  (`StunMessage.OwnEncodingRoundTrip`).
- The limit of 253 in the query builder counts the length octets and the root
  octet, so it is tighter than the 255 octets of RFC 1035 section 2.3.4.
- A consensus that requires zero agreements, which no builder produces, still
  fails if there is no result at all, with `got` and `required` both zero; this
  is why `Tally.IsVerdict` exempts an empty list from `got < minAgree`.

## Model

| member | source | states |
|---|---|---|
| WorkerRuns.RunKeeps | src/blocking/mod.rs:45-69 | Whatever the schedule, after any run of thread, clock and caller steps, with measuring and sending apart, a pending slot's worker is still at work, or its message is unreceived, or it died; every message comes from its own slot's worker, every received one was settled by what it says, and each slot is settled at most once |
| Progress.RunIsOnward | src/blocking/mod.rs:45-69 | No step undoes another: workers do not go back, nothing sent later is dated earlier, nothing sent, received or recorded is lost, and nothing reaches a receiver that is gone |
| Conservation.SlotsAreConserved | src/blocking/mod.rs:208-258 | In every reachable state each slot is in exactly one of: not tried, pending, settled; and settled once |
| Conservation.EverySlotIsCounted | src/blocking/mod.rs:285-333 | Once all slots were tried, pending and settled slots are disjoint and together all of them |
| Conservation.AllAreSettled | src/blocking/mod.rs:258-260 | When nothing is pending any more, errors and results together are as many as there are slots |
| Conservation.PendingIsConnected | src/blocking/mod.rs:225-256 | For a pending slot exactly one holds: its worker is at work and keeps a sender, its message is queued, or its worker died without one |
| Conservation.DisconnectedMeansDied | src/blocking/mod.rs:254 | If the receiver sees a disconnected channel, every slot pending on it has a worker that died |
| Conservation.NeverDisconnected | src/blocking/mod.rs:60-65 | In every run in which no worker dies between catching a panic and reporting it, a disconnected receive is never observed while a slot on that channel is pending, whether providers panic or fail to start |
| Conservation.DeathDisconnects | src/blocking/mod.rs:60-65 | A run in which such a death is observed as a disconnected receive |
| Conservation.OutcomesAreAttributed | src/blocking/mod.rs:237-252 | A recorded result has the name and protocol of its own slot's provider, the address its own worker sent, and the family asked for; an error is the one its worker sent, or says that the worker sent the wrong family, or is the slot's refusal, its disconnection after its worker died, or a timeout after it was skipped or given up, with the texts the resolver gives them |
| Answers.MessageIsTraced | src/blocking/mod.rs:59-65 | Every message goes back to two steps of its run: its thread began, and later its provider returned or panicked; it says exactly what was returned, or "provider panicked", and its latency is exactly the time between the two |
| Answers.ReplyIsConveyed | src/blocking/mod.rs:60-65 | Conversely, what a provider once returned, or its panic, is what its slot's message says ever after |
| Answers.SuccessWasAnswered | src/blocking/mod.rs:60-65 | A result is recorded for a slot only if its own provider returned that address |
| Answers.PanicIsAFailure | src/blocking/mod.rs:60-63 | A slot whose provider panicked never has a result: it fails with "provider panicked" or with a timeout, under the provider's name |
| Answers.AgreementWasAnswered | src/blocking/mod.rs:322 | The provider of every slot that agrees on an address returned that address |
| Conservation.ListingPermutes | src/blocking/mod.rs:303-333 | Going through all slots once each, in any order, yields a permutation of what they hold |
| Conservation.SettlingPermutes | src/blocking/mod.rs:303-333 | So whatever the order of settling, the addresses reported are a permutation of those by slot |
| Conservation.GroupIsDistinctSlots | src/blocking/mod.rs:322 | A group has exactly as many members as there are distinct slots that reported its address |
| Workers.JudgeExact | src/blocking/mod.rs:239-251 | A message is worth a result if and only if it brings an address of the family asked for, and then the result has its address, name, protocol and latency; a provider's own error is passed on, and an address of the other family is an error that says so |
| BlockingWorld.World.RecvTimeout | src/blocking/mod.rs:90-95 | Returns the oldest unreceived message, or gives up on an empty queue after exactly the time given, or reports disconnection only with an empty queue and no sender left; it never waits longer than it may |
| BlockingWorld.World.SpawnWorker | src/blocking/mod.rs:45-69 | Either the slot has a running worker with a sender of the channel, or it is settled with an error that names its provider; the attempt is recorded either way |
| BlockingSlots.SpawnAll | src/blocking/mod.rs:208-225 | A thread was asked for for every slot, once, in order and on the one channel; every slot is pending with a worker or was refused and has that error listed, and no sender but the workers' is left |
| BlockingSlots.ReceiveWithTimeout | src/blocking/mod.rs:236-256 | Each message takes exactly one slot out of the pending ones and records exactly its outcome; without one nothing is taken, and whoever is pending has sent nothing so far |
| BlockingSlots.TakeTurn | src/blocking/mod.rs:230-236 | Every look at the clock that finds time left is followed by a wait for exactly that time on the workers' channel; receiving stops only because no time was left at a look, or because nobody pending had sent anything before the deadline |
| BlockingSlots.TimeOutRest | src/blocking/mod.rs:258 | Whatever is still pending is settled by a timeout error of its own, in any order of the map, and nothing else is |
| BlockingSlots.StoppedMissesNothing | src/blocking/mod.rs:229-258 | After that every outcome is a refusal of the operating system or what the slot's received message says; or the slot timed out, after the last look at the clock had found no time left, or with nothing sent by its worker before the deadline, or with its worker dead. The turns of looking and waiting were all on the workers' channel, and stopped early only if somebody then timed out |
| BlockingSlots.MissedOnlyIfLate | src/blocking/mod.rs:229-258 | A slot timed out although its message was sent before the deadline only if the last look at the clock found the deadline passed |
| BlockingSlots.NoEarlyExit | src/blocking/mod.rs:303-331 | Before the deadline every slot was refused its thread or is settled by its received message, but for workers that died |
| BlockingResolver.RaceLoop | src/blocking/mod.rs:229-256 | The receive loop takes turns of looking and waiting and ends with the first valid message in sending order, at once; or, once nobody is pending or no time is left, with nothing missed; it never waits in total longer than what was left at its start |
| BlockingResolver.ResolveRace | src/blocking/mod.rs:193-261 | Success is what the first valid message in sending order says, and is returned at once; failure means no slot succeeded and lists exactly one error per slot. With any time every slot is given to the operating system before the deadline is set, none is skipped, and no message sent before the deadline is missed unless the clock was looked at too late; without any, nobody is asked and the errors are all timeouts in order. An unrepresentable deadline receives nothing, and all that were not refused time out; waiting is bounded by the timeout |
| BlockingResolver.ConsensusLoop | src/blocking/mod.rs:303-331 | No early exit: it takes turns until nothing is pending or nothing is missed; the groups hold the results received, in order, each under its own address |
| BlockingResolver.ResolveConsensus | src/blocking/mod.rs:264-370 | Every slot is settled exactly once, and the result is a correct verdict on all of them, for every arrival order. With any time every slot is given to the operating system, none is skipped, and no message sent before the deadline is missed unless the clock was looked at too late; without any, nobody is asked, `got` is zero and the errors are all timeouts in order. An unrepresentable deadline receives nothing; waiting is bounded by the timeout |
| BlockingResolver.ConsensusIsOfDistinctSlots | src/blocking/mod.rs:335-359 | An agreed address was reported by at least `min_agree` distinct slots, and the result returned is one of theirs |
| BlockingFirst.ResolveFirst | src/blocking/mod.rs:140-186 | Success at slot i: all earlier slots failed, no later one was tried; failure: the error of slot i stands at index i. With any time, for every slot tried a thread was asked for, and unless the operating system refused it, its worker was waited for on its own channel, and timed out only after all of the timeout with nothing sent; without any, nobody is asked and the errors are all timeouts in order. Waiting is bounded by the timeout times the number of slots |
| BlockingFirst.AwaitOne | src/blocking/mod.rs:162-182 | The outcome rests on one wait on the slot's own channel: it brought the slot's own message, or lasted exactly the timeout while the worker sent nothing, or the worker had died |
| BlockingFirst.HeardOne | src/blocking/mod.rs:150-163 | The message received is the slot's own, whatever workers given up before still send |
| BlockingResolver.Resolve | src/blocking/mod.rs:127-137 | No matching provider is an error of its own; otherwise the strategy's outcome with all of the above; with any time no slot is skipped, without any every strategy fails with all timeouts in order; every result is of the family asked for and credited to a slot whose provider returned its address, a consensus to at least `min_agree` such slots |
| RaceOrder.WinnerIsSentFirst | src/blocking/mod.rs:188-192 | The winner of a race was sent no later than any other valid message, so its provider had finished by the time that one was sent |
| RaceOrder.WinnerMayBeSlower | src/blocking/mod.rs:188-192 | For every list of at least two providers, a race in which another valid message has a smaller latency than the winner's |
| RaceOrder.FastestWinsExactly | src/blocking/mod.rs:188-192 | The winner has the smallest latency of all valid messages in every race if and only if at most one provider matches |
| Tally.Decide | src/blocking/mod.rs:335-369 | The result is a correct verdict on the grouped results; the fallback with `got: 0` never survives |
| Tally.SelectBest | src/blocking/mod.rs:335-346 | For every iteration order: a group of maximal size if one has at least `min_agree` members, and nothing if none has |
| Tally.Fastest | src/blocking/mod.rs:351 | The earliest received member of minimal latency |
| Tally.LargestSize | src/blocking/mod.rs:362 | The size of a largest group, and zero without groups |
| Tally.VerdictsAgree | src/resolver.rs:158-204 | Correct verdicts on outcomes that report the same addresses, in any two orders, whatever their latencies and error texts, both succeed or both fail, with the same `got` and number of errors, and with the same address if the largest group is unique |
| Tally.SameOutcomesSameVerdict | src/resolver.rs:158-204 | On the very same outcomes in any two orders the errors agree up to order, and the latencies of the same address |
| Tally.MajorityIsUnique | src/blocking/mod.rs:335-346 | If twice `min_agree` exceeds the number of slots, at most one address can qualify |
| Tally.MajorityVerdictsAgree | src/resolver.rs:170-204 | In that case the addresses reported determine the verdict's, in every order |
| Tally.GroupsAndErrorsAreAll | src/blocking/mod.rs:361-368 | The sizes of all groups and the number of errors add up to the number of outcomes |
| Tally.PushGroups | src/blocking/mod.rs:322 | Filing a result under its address keeps the map the grouping of all results received, in order |
| Futures.SelectFirst | src/resolver.rs:222-233 | Returns the lowest-indexed of the futures ready first; what remains is the other futures, each having been polled as often as it was, with the last one in the place of the one removed |
| Futures.PollAny | src/resolver.rs:223-231 | One round: all futures are polled once and all are pending, or those up to the first ready one are polled and that one is taken out |
| Futures.SelectingLeavesTheRest | src/resolver.rs:226-227 | Despite `swap_remove`, the remaining outputs are as a multiset the input minus the one returned |
| Futures.JoinAllVec | src/resolver.rs:243-270 | Result i is the output of future i, every slot is filled when the counter says so, and each future is polled exactly until it is ready and never again |
| Futures.PollEmpty | src/resolver.rs:248-263 | One round polls exactly the futures whose slot is empty; the counter stays the number of filled slots |
| Futures.FilledExact | src/resolver.rs:258 | The counter equals the number of slots if and only if every slot is filled |
| AsyncResolver.MakeProviderFuture | src/resolver.rs:51-84 | The future of a provider, which is asked unless there is no time at all |
| AsyncResolver.ResolversJudgeAlike | src/resolver.rs:51-84 | Both resolvers make the same of the same answer, of an elapsed timer and of no time at all, down to the text of the error; the future is pending as often as the call |
| AsyncResolver.ResolveFirst | src/resolver.rs:106-117 | The first success in order of configuration, or the error of provider i at index i; providers are asked one after the other, and none after the first success |
| AsyncRace.ResolveRace | src/resolver.rs:120-145 | Succeeds if and only if some provider does, with the winner of the rounds of polling; otherwise lists the error of each provider once |
| AsyncRace.WinnerNeedsFewPolls | src/resolver.rs:120-145 | The winner needed at most one poll more than any other success for every provider that fails, so no more if none does |
| AsyncRace.SlowerMayWin | src/resolver.rs:134-141 | For every number of futures from three on, a race won by a success that needed more polls than another |
| AsyncRace.FewestPollsWinExactly | src/resolver.rs:119-145 | In every race of n futures the winner needed the fewest polls of all successes if and only if n is at most two |
| AsyncRace.StillTracks | src/resolver.rs:134-141 | Through `swap_remove`, every future left is one of the original ones, polled between the rounds so far and one more per failure, and no success is lost |
| AsyncResolver.ResolveConsensus | src/resolver.rs:148-205 | A correct verdict on the outcomes in order of configuration |
| AsyncResolver.Resolve | src/resolver.rs:93-103 | No matching provider is an error of its own; otherwise the strategy's outcome on the futures of the matching providers; every result is of the family asked for and is what the call of some slot brought, with its provider's name and protocol |
| AsyncResolver.ConsensusesAgree | src/resolver.rs:148-205 | If each slot reports to the blocking resolver the address that its call brings the asynchronous one, whatever the latencies, both consensuses succeed or both fail, with the same `got` and number of errors, and the same address if the largest group is unique or an absolute majority was required |
| Types.ValidateIp | src/blocking/mod.rs:75-88 | Accepts exactly IPv4 addresses under V4, IPv6 addresses under V6 and both under Any, unchanged; the error for others has the name given and a fixed text |
| Configuration.ConfigBuilder.SetStrategy | src/config.rs:159-167 | A consensus never requires fewer than two providers; larger numbers and other strategies are kept |
| Configuration.ConfigBuilder.Build | src/config.rs:170-223 | The built-in providers the filter selects, in order, and then the custom ones, for both resolvers; a built consensus requires at least two |
| Configuration.FilterExact | src/blocking/mod.rs:113-118 | The providers kept, by version or by protocol, are exactly those the filter holds of, each as often as listed and in the order of the list |
| Configuration.MatchingExact | src/provider.rs:36-42 | A provider matches if and only if it supports IPv4 and V6 was not asked for, or supports IPv6 and V4 was not asked for; order and multiplicity are kept |
| Configuration.SelectedExact | src/config.rs:179-194 | Chosen protocols select exactly the built-in providers that use them, in order; chosen providers are taken as they are; without a filter all are taken, and none if there are custom ones |
| Configuration.ChosenAndMatching | src/config.rs:179-191 | With protocols chosen, the resolvers ask exactly the built-in providers of those protocols that support the version, in order, and then the custom providers that do |
| StunMessage.Method.FromU16 | src/stun/message.rs:21-38 | Inverse of `to_u16` in both directions |
| StunMessage.Decode | src/stun/message.rs:115-183 | The decoder with its checked additions computes the parse that `DecodeExact` characterises |
| StunMessage.DecodeAttribute | src/stun/message.rs:149-176 | While `offset` and `end` are a multiple of four apart, only "attribute exceeds message length" can be returned: not a truncated header, invalid padding or an overflow |
| StunMessage.DecodeAttributes | src/stun/message.rs:146-176 | The attribute loop terminates and pushes the attributes in order |
| StunMessage.DecodeExact | src/stun/message.rs:115-183 | Decoding succeeds with a message if and only if the octets carry exactly that message: header, cookie, and padded attributes that fill the declared length (RFC 5389 sections 6 and 15) |
| StunMessage.MessageOctets | src/stun/message.rs:115-183 | Where the parts of a decoded message stand in the octets: type, cookie and id, and code, length and value of every attribute behind those before it, with the numbers of RFC 5389 |
| StunMessage.DecodeErrors | src/stun/message.rs:149-175 | The error of every message rejected, by its octets: the first of length, type, cookie, alignment, truncation, and an attribute that runs past the end; the errors for overflow, truncated attribute header and invalid padding are never returned |
| StunMessage.DecodeIgnoresPaddingAndTrailer | src/stun/message.rs:168-172 | Neither the padding octets nor octets behind the declared length change the result |
| StunMessage.EncodeDecodeRoundTrip | src/stun/message.rs:146-182 | Decoding the encoding of any message whose padded attributes fit the length field returns its type, transaction id and attributes in order |
| StunMessage.Encode | src/stun/message.rs:93-109 | Writes type, length zero, the magic cookie and the transaction id, octet by octet |
| StunMessage.OwnEncodingRoundTrip | src/stun/message.rs:93-109 | What the code encodes decodes to the same message if and only if it has no attributes |
| StunClient.DecodeXorMappedAddress | src/stun/message.rs:235-271 | The word-wide exclusive or for IPv4 and the loop over sixteen octets for IPv6 both compute the parse that `XorMappedAddressExact` characterises octet by octet |
| StunClient.XorWithCookie | src/stun/message.rs:248-250 | The exclusive or of the 32-bit words equals the one of the octets with the first four key octets |
| StunClient.XorMappedAddressExact | src/stun/message.rs:235-271 | An address is returned if and only if the value has its family, its first four octets masked with 21 12 A4 42, and the other twelve of an IPv6 address masked with the transaction id (RFC 5389 section 15.2) |
| StunClient.MappedAddressExact | src/stun/message.rs:206-233 | The same for RFC 5389 section 15.1 |
| StunClient.GetMappedAddressExact | src/stun/message.rs:188-204 | The address is the one in the first XOR-MAPPED-ADDRESS, and that in the first MAPPED-ADDRESS only if there is no XOR-MAPPED-ADDRESS |
| StunClient.NoFallbackToMappedAddress | src/stun/message.rs:190-194 | If the first XOR-MAPPED-ADDRESS carries no address, none is reported |
| StunClient.ProcessResponseExact | src/stun/mod.rs:67-88 | An address is accepted if and only if the octets carry a success response to this request that reports it |
| StunClient.ProcessResponseErrors | src/stun/mod.rs:67-88 | Why any other response is rejected: malformed, another transaction id, not a success response, or no address reported, in this order |
| StunClient.AcceptedOctets | src/stun/mod.rs:67-88 | An accepted response starts with 01 01, has the cookie and the request's id, and carries the address in an attribute with code 0020 or 0001 |
| StunClient.ReplyIsUnderstood | src/stun/mod.rs:67-88 | For every request, address, port, other attributes and trailing octets, the reply of a server makes the client report exactly that address |
| StunClient.SelectAddressExact | src/stun/mod.rs:55-65 | The first server address of the family asked for, and none only if there is none of it; for either family the first IPv4 address, and the first address only if all are IPv6 |
| Bytes.XorWordIsBytewise | src/stun/message.rs:248-250 | Exclusive or of two big-endian words is the exclusive or of their octets |
| Bytes.XorDigits | src/stun/message.rs:265 | A binary digit of the exclusive or is set if and only if exactly one operand has it |
| Bytes.AndDigits | src/dns/protocol.rs:236 | A binary digit of the conjunction is set if and only if both operands have it |
| Bytes.ByteMasks | src/dns/protocol.rs:236 | The bit masks applied to octets, as ranges and digits |
| DnsNames.WalkName | src/dns/protocol.rs:223-246 | The loop stops where the name at its start ends, as `SkipNameExact` characterises it |
| DnsNames.SkipNameExact | src/dns/protocol.rs:223-246 | Skipping succeeds if and only if a name is encoded there, with a root or a pointer at its end, and stops right behind it |
| DnsNames.SkipNameErrors | src/dns/protocol.rs:223-246 | A name that cannot be skipped starts behind the data or does not end inside it, and the error says which |
| DnsNames.SkipNameBounds | src/dns/protocol.rs:223-246 | Success lies behind the start and at most one octet behind the data, and that only if the last octet starts a pointer |
| DnsQuery.BuildQuery | src/dns/protocol.rs:67-117 | The packet grown label by label is header and question of the domain, or the first error |
| DnsQuery.QueryAcceptance | src/dns/protocol.rs:86-108 | Accepted if and only if, without dots at the end, all labels have 1 to 63 octets and the encoded name with its root octet at most 253 |
| DnsQuery.LabelErrorIsFirst | src/dns/protocol.rs:89-97 | A rejection names the first offending label, with its length |
| DnsQuery.TooLongIsLast | src/dns/protocol.rs:104-108 | A domain is rejected as too long if and only if every label is fine, and with the size it would take |
| DnsQuery.QueryIsReadable | src/dns/protocol.rs:110-116 | An accepted packet has 12 + name + 4 octets and at most 269, its header is the id, flags 01 00 and the counts 1, 0, 0, 0, the name walker lands on the type field, type and class have the numbers of RFC 1035, and the labels read back joined are the domain |
| DnsQuery.TrailingDotIsIgnored | src/dns/protocol.rs:86 | A dot at the end of the domain makes no difference |
| DnsProtocol.Parse | src/dns/protocol.rs:120-220 | The parser's loops, with every index and slice in bounds, compute the parse that `ParseExact` characterises |
| DnsProtocol.ParseAnswers | src/dns/protocol.rs:151-213 | The answer loop pushes the results of the complete records in order |
| DnsProtocol.ReadText | src/dns/protocol.rs:187-206 | The loop over the strings of a TXT record stays in bounds, terminates and concatenates them |
| DnsResponses.ParseExact | src/dns/protocol.rs:120-220 | Results are returned if and only if the data has no error code, announces answers, carries the announced questions and then complete records that stand for exactly those results: an IPv4 address for type 1 and four octets, an IPv6 address for type 28 and sixteen, the nonempty concatenation of the character strings for type 16; and there is at least one |
| DnsResponses.ParseErrors | src/dns/protocol.rs:120-220 | Why any other data is rejected: too short, an error code, no answers, a question cut off, no record that stands for anything, and otherwise a bad name |
| DnsResponses.SpellsExact | src/dns/protocol.rs:187-206 | The text of TXT data is the concatenation of its character strings, whatever is cut off behind them; all data are such strings |
| DnsResponses.RecordsExact | src/dns/protocol.rs:151-213 | The answer loop succeeds if and only if the data carries records there, up to the announced number or where one is cut off, and sees exactly those |
| DnsResponses.CarriesIsEncoding | src/dns/protocol.rs:151-213 | Carrying records means that their encodings stand there one after the other, and that either all are there or the next is cut off |
| DnsResponses.ResultsBounded | src/dns/protocol.rs:154-219 | A success has at least one and at most ANCOUNT results |
| DnsResponses.TruncationGivesPrefix | src/dns/protocol.rs:143-219 | If a response and a cut of it both parse, the results of the cut are a prefix of the others |
| DnsResponses.ReplyRoundTrip | src/dns/mod.rs:318-331 | For every accepted domain and every list of records with plain or compressed names, the empty one included, the reply yields what the records stand for, in order, and an error if and only if that is nothing |
| DnsResponses.TextRoundTrip | src/dns/protocol.rs:187-203 | TXT data is the concatenation of its strings; an over-long last one is dropped |
| DnsClient.ExtractIpExact | src/dns/mod.rs:116-139 | The address of the first word, over all results, that reads as an address of the family asked for, and it is of that family; an error if and only if there is none |
| DnsClient.SlashIsCut | src/dns/mod.rs:123 | A prefix length behind a slash makes no difference |
| DnsClient.AddressTextRoundTrip | src/dns/protocol.rs:177-180 | Four octets printed by the parser are read back as those octets |
| DnsClient.ReplyIsValid | src/dns/mod.rs:141-155 | The reply to a query passes the checks if and only if it is marked as a response and not as truncated |
| DnsClient.ValidateResponseExact | src/dns/mod.rs:141-155 | For any two octet strings: the checks pass if and only if both are long enough, the two id octets are equal, the response bit is set and the truncation bit is clear; and which error each other case gives |
| DnsClient.HandleReplyExact | src/dns/mod.rs:201-207 | For any datagram: an address is accepted if and only if the checks hold octet by octet, and the datagram is a response whose records yield it as the first suitable word |
| DnsClient.TextQueryEndToEnd | src/dns/mod.rs:201-207 | A query for texts answered with any records yields the first suitable word of the nonempty texts of its TXT records, in order, and an error if and only if there is none |
| DnsClient.ReadIpExact | src/dns/mod.rs:124 | A text reads as an IPv4 address if and only if it is its dotted decimal form, and as IPv6 if the standard library says so and it is not dotted decimal |
| DnsClient.AddressQueryEndToEnd | src/dns/mod.rs:201-207 | A query answered with any records yields the first IPv4 address among them, and an error if and only if there is none |
| DnsClient.AddressQueryEndToEnd6 | src/dns/mod.rs:201-207 | The same for IPv6, errors included, if the standard library reads back the first address it prints |
| Text.SplitExact | src/dns/protocol.rs:89 | Splitting is the one inverse of joining parts without separators |
| Text.WordsExact | src/dns/mod.rs:122 | The words of a text are exactly what stands between its white space: none is split, joined or lost |
| Text.ParseV4Exact | src/dns/protocol.rs:178-179 | A text reads as four octets if and only if it is their dotted decimal form |

## Left out

- Sockets, name resolution of servers, receive buffers and the HTTP provider: what a provider answers is an arbitrary input.
- Random transaction ids are inputs; that the operating system may refuse them is not part of the model.
- DnsProtocol.ReadText: whether octets are UTF-8, and what text they stand for, is a function the model is given.
- DnsClient.AddressQueryEndToEnd6: printing and reading IPv6 addresses are functions the model is given; that the first address printed is read back is a premise.
- BlockingWorld.World.RecvTimeout: the timer goes off exactly on time, and at the end of the wait even if the clock could not represent that instant; time between two waits is unbounded, and only the waits are added up.
- Operating-system threads that go on after the resolver has returned: nothing receives from them any more.
- BlockingResolver.ResolveRace: an idle machine is not assumed, so a message may be missed because the caller was kept from looking at the clock in time; a slot's name is the one its provider reports when it is asked, and does not change between calls; likewise for the other strategies.
- AsyncRace.ResolveRace: time is polls, so nothing is said about how latencies of successes compare; the runtime, its wakers and its timer appear only as the number of polls and as calls that elapse.
- A panic inside an asynchronous provider, which the resolver does not catch.
- StunMessage.Decode: machines whose words have fewer than 32 bits.
- The builder methods that set or append to one field: protocols, providers, timeout, version and custom providers.
- Configuration.ConfigBuilder.Build: the tables of built-in providers are an input, and both resolvers are given the same one.
- Texts of error messages, except where a resolver makes them up; `Display` and `FromStr` of the enumerations.
- Private addresses, the command line tool, the Node bindings, benchmarks and release scripts.
