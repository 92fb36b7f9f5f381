/** From a DNS response to the public address. */
module DnsClient {
  import opened Types
  import opened Bytes
  import opened Text
  import opened DnsNames
  import opened DnsQuery
  import opened DnsProtocol
  import opened DnsResponses

  datatype QueryKind = AddressQuery | TextQuery

  datatype ClientError =
    | ReplyTooShort
    | TransactionIdMismatch
    | NotAResponse
    | TruncatedResponse
    | Unparsable(cause: ResponseError)
    | NoValidIp

  function SelectRecordType(kind: QueryKind, version: IpVersion): RecordType {
    match kind
    case AddressQuery => if version.OnlyV6? then Aaaa else A
    case TextQuery => Txt
  }

  /** The checks on a datagram before it is parsed; `None` means it passes. */
  function ValidateResponse(query: seq<byte>, response: seq<byte>): Option<ClientError> {
    if |query| < 2 || |response| < 12 then Some(ReplyTooShort)
    else if response[..2] != query[..2] then Some(TransactionIdMismatch)
    else if BitAnd(response[2], 0x80) == 0 then Some(NotAResponse)
    else if BitAnd(response[2], 0x02) != 0 then Some(TruncatedResponse)
    else None
  }

  /** `IpAddr::from_str`. */
  function ReadIp(s: string, std: Std): Option<IpAddr> {
    match ParseV4(s)
    case Some(o) => Some(V4(o))
    case None =>
      match std.readV6(s)
      case Some(o) => Some(V6(o))
      case None => None
  }

  /** The address a word stands for: what comes before the first slash. */
  function WordIp(word: string, std: Std): Option<IpAddr> { ReadIp(Split(word, '/')[0], std) }

  function FirstIp(words: seq<string>, version: IpVersion, std: Std): Option<IpAddr> {
    if words == [] then None
    else
      match (version, WordIp(words[0], std))
      case (OnlyV4, Some(V4(o))) => Some(V4(o))
      case (OnlyV6, Some(V6(o))) => Some(V6(o))
      case (AnyVersion, Some(ip)) => Some(ip)
      case _ => FirstIp(words[1..], version, std)
  }

  function ExtractIp(results: seq<string>, version: IpVersion, std: Std): Result<IpAddr, ClientError> {
    if results == [] then Failure(NoValidIp)
    else
      match FirstIp(Words(results[0]), version, std)
      case Some(ip) => Success(ip)
      case None => ExtractIp(results[1..], version, std)
  }

  /** What a provider makes of the datagram it received. */
  function HandleReply(query: seq<byte>, buf: seq<byte>, wanted: RecordType, version: IpVersion, std: Std)
    : Result<IpAddr, ClientError>
  {
    match ValidateResponse(query, buf)
    case Some(e) => Failure(e)
    case None =>
      match ParseResponse(buf, wanted, std)
      case Failure(e) => Failure(Unparsable(e))
      case Success(results) => ExtractIp(results, version, std)
  }

  // ---------------------------------------------------------------------------
  // The first suitable word wins
  // ---------------------------------------------------------------------------

  /** The word stands for an address of the family asked for. */
  predicate Suitable(word: string, version: IpVersion, std: Std) {
    && WordIp(word, std).Some?
    && (version.OnlyV4? ==> WordIp(word, std).value.V4?) && (version.OnlyV6? ==> WordIp(word, std).value.V6?)
  }

  function AllWords(results: seq<string>): seq<string> {
    if results == [] then [] else Words(results[0]) + AllWords(results[1..])
  }

  ghost predicate IsFirstSuitable(words: seq<string>, version: IpVersion, std: Std, i: int) {
    && 0 <= i < |words|
    && Suitable(words[i], version, std)
    && forall j | 0 <= j < i :: !Suitable(words[j], version, std)
  }

  lemma {:induction false} FirstIpAppend(a: seq<string>, b: seq<string>, version: IpVersion, std: Std)
    ensures FirstIp(a + b, version, std)
         == if FirstIp(a, version, std).Some? then FirstIp(a, version, std) else FirstIp(b, version, std)
  {
    if a == [] {
      assert a + b == b;
    } else {
      assert (a + b)[1..] == a[1..] + b;
      FirstIpAppend(a[1..], b, version, std);
    }
  }

  lemma {:induction false} FirstIpIsFirst(words: seq<string>, version: IpVersion, std: Std, i: int)
    requires IsFirstSuitable(words, version, std, i)
    ensures FirstIp(words, version, std) == WordIp(words[i], std)
  {
    if i > 0 {
      assert forall j | 0 <= j < i - 1 :: words[1..][j] == words[j + 1];
      FirstIpIsFirst(words[1..], version, std, i - 1);
    }
  }

  lemma {:induction false} FirstIpFound(words: seq<string>, version: IpVersion, std: Std) returns (i: int)
    requires FirstIp(words, version, std).Some?
    ensures IsFirstSuitable(words, version, std, i)
  {
    if Suitable(words[0], version, std) {
      i := 0;
    } else {
      var k := FirstIpFound(words[1..], version, std);
      i := k + 1;
      assert forall j | 0 < j < i :: words[j] == words[1..][j - 1];
    }
  }

  lemma FirstIpExact(words: seq<string>, version: IpVersion, std: Std)
    ensures FirstIp(words, version, std).None? <==> forall w <- words :: !Suitable(w, version, std)
    ensures forall i :: IsFirstSuitable(words, version, std, i) ==> FirstIp(words, version, std) == WordIp(words[i], std)
    ensures FirstIp(words, version, std).Some? ==> exists i :: IsFirstSuitable(words, version, std, i)
  {
    forall i | IsFirstSuitable(words, version, std, i) ensures FirstIp(words, version, std) == WordIp(words[i], std) {
      FirstIpIsFirst(words, version, std, i);
    }
    if FirstIp(words, version, std).Some? {
      var i := FirstIpFound(words, version, std);
      assert words[i] in words;
    } else {
      NoneSuitable(words, version, std);
    }
  }

  lemma {:induction false} NoneSuitable(words: seq<string>, version: IpVersion, std: Std)
    requires FirstIp(words, version, std).None?
    ensures forall w <- words :: !Suitable(w, version, std)
  {
    if words != [] {
      NoneSuitable(words[1..], version, std);
      assert words == [words[0]] + words[1..];
    }
  }

  lemma {:induction false} ExtractIpIsFirstIp(results: seq<string>, version: IpVersion, std: Std)
    ensures ExtractIp(results, version, std) ==
      match FirstIp(AllWords(results), version, std)
      case Some(ip) => Success(ip)
      case None => Failure(NoValidIp)
  {
    if results != [] {
      ExtractIpIsFirstIp(results[1..], version, std);
      FirstIpAppend(Words(results[0]), AllWords(results[1..]), version, std);
    }
  }

  /** What reads as an address: dotted decimal, and whatever else the standard library takes for IPv6. */
  lemma ReadIpExact(s: string, std: Std, ip: IpAddr)
    ensures ReadIp(s, std) == Some(ip) <==>
      match ip
      case V4(o) => s == ShowV4(o)
      case V6(o) => std.readV6(s) == Some(o) && forall v4 :: s != ShowV4(v4)
  {
    forall v4 ensures ParseV4(s) == Some(v4) <==> s == ShowV4(v4) {
      ParseV4Exact(s, v4);
    }
  }

  /** `ip` is what the first suitable word of all results stands for. */
  ghost predicate Yields(results: seq<string>, version: IpVersion, std: Std, ip: IpAddr) {
    exists i :: IsFirstSuitable(AllWords(results), version, std, i) && WordIp(AllWords(results)[i], std) == Some(ip)
  }

  /** Over all words of all results: the first one that suits the version, and a failure exactly if none does. */
  lemma ExtractIpExact(results: seq<string>, version: IpVersion, std: Std, ip: IpAddr)
    ensures ExtractIp(results, version, std) == Success(ip) <==> Yields(results, version, std, ip)
    ensures ExtractIp(results, version, std).Failure? <==> forall w <- AllWords(results) :: !Suitable(w, version, std)
    ensures Yields(results, version, std, ip) ==> (version.OnlyV4? ==> ip.V4?) && (version.OnlyV6? ==> ip.V6?)
  {
    ExtractIpIsFirstIp(results, version, std);
    FirstIpExact(AllWords(results), version, std);
  }

  // ---------------------------------------------------------------------------
  // Addresses as text, all the way
  // ---------------------------------------------------------------------------

  lemma ShownAddressChars(o: Octets4)
    ensures IsWord(ShowV4(o)) && '/' !in ShowV4(o)
  {
    var a, b, c, d := ShowOctet(o[0]), ShowOctet(o[1]), ShowOctet(o[2]), ShowOctet(o[3]);
    ShownOctetChars(o[0]);
    ShownOctetChars(o[1]);
    ShownOctetChars(o[2]);
    ShownOctetChars(o[3]);
    JoinOf4(a, b, c, d, '.');
    var s := a + ['.'] + b + ['.'] + c + ['.'] + d;
    forall x | x in s ensures !IsSpace(x) && x != '/' {
      assert x in a || x in b || x in c || x in d || x == '.';
    }
  }

  lemma JoinOf4<T>(a: seq<T>, b: seq<T>, c: seq<T>, d: seq<T>, separator: T)
    ensures Join([a, b, c, d], separator) == a + [separator] + b + [separator] + c + [separator] + d
  {
    assert [a, b, c, d][1..] == [b, c, d] && [b, c, d][1..] == [c, d] && [c, d][1..] == [d];
    assert Join([c, d], separator) == c + [separator] + d;
    assert Join([b, c, d], separator) == b + [separator] + (c + [separator] + d);
  }

  /** A word with nothing behind an optional slash reads as the address in front. */
  lemma SlashIsCut(address: string, prefix: string, std: Std)
    requires '/' !in address
    ensures WordIp(address, std) == ReadIp(address, std)
    ensures WordIp(address + "/" + prefix, std) == ReadIp(address, std)
  {
    SplitExact(address, '/', [address]);
    SplitJoins(prefix, '/');
    var parts := [address] + Split(prefix, '/');
    assert parts[1..] == Split(prefix, '/');
    SplitExact(address + "/" + prefix, '/', parts);
  }

  lemma WholeWord(word: string)
    requires IsWord(word)
    ensures Words(word) == [word]
  {
    WordsTakesWord(word, "");
    assert word + "" == word;
  }

  /** Four octets printed by the parser are read back as those octets. */
  lemma AddressTextRoundTrip(o: Octets4, more: seq<string>, version: IpVersion, std: Std)
    requires !version.OnlyV6?
    ensures ExtractIp([ShowV4(o)] + more, version, std) == Success(V4(o))
  {
    ShownAddressChars(o);
    WholeWord(ShowV4(o));
    SlashIsCut(ShowV4(o), "", std);
    ParseV4Exact(ShowV4(o), o);
  }

  /** The standard library reads back the text it makes of this address, and takes it for nothing else. */
  ghost predicate ReadsBack(o: Octets16, std: Std) {
    && IsWord(std.showV6(o)) && '/' !in std.showV6(o)
    && ParseV4(std.showV6(o)).None? && std.readV6(std.showV6(o)) == Some(o)
  }

  /** The same for an IPv6 address, given that the standard library reads back what it prints. */
  lemma AddressText6RoundTrip(o: Octets16, more: seq<string>, version: IpVersion, std: Std)
    requires !version.OnlyV4?
    requires ReadsBack(o, std)
    ensures ExtractIp([std.showV6(o)] + more, version, std) == Success(V6(o))
  {
    WholeWord(std.showV6(o));
    SlashIsCut(std.showV6(o), "", std);
  }

  /** The data of the first record of this type that holds an address of `size` octets. */
  function FirstAddress(raws: seq<RawRecord>, code: u16, size: nat): Option<seq<byte>> {
    if raws == [] then None
    else if raws[0].recordType == code && |raws[0].rdata| == size then Some(raws[0].rdata)
    else FirstAddress(raws[1..], code, size)
  }

  lemma {:induction false} FirstPayload4(raws: seq<RawRecord>, std: Std)
    ensures match FirstAddress(raws, 1, 4)
            case None => Payloads(raws, A, std) == []
            case Some(o) => |o| == 4 && Payloads(raws, A, std) != [] && Payloads(raws, A, std)[0] == ShowV4(o)
  {
    if raws != [] {
      FirstPayload4(raws[1..], std);
    }
  }

  lemma {:induction false} FirstPayload6(raws: seq<RawRecord>, std: Std)
    ensures match FirstAddress(raws, 28, 16)
            case None => Payloads(raws, Aaaa, std) == []
            case Some(o) => |o| == 16 && Payloads(raws, Aaaa, std) != [] && Payloads(raws, Aaaa, std)[0] == std.showV6(o)
  {
    if raws != [] {
      FirstPayload6(raws[1..], std);
    }
  }

  /** The checks, exactly: what passes, and what is wrong with anything else. */
  lemma ValidateResponseExact(query: seq<byte>, response: seq<byte>)
    ensures ValidateResponse(query, response).None? <==>
      && |query| >= 2 && |response| >= 12
      && response[0] == query[0] && response[1] == query[1]
      && response[2] >= 128 && response[2] / 2 % 2 == 0
    ensures ValidateResponse(query, response) == Some(ReplyTooShort) <==> |query| < 2 || |response| < 12
    ensures ValidateResponse(query, response) == Some(TransactionIdMismatch) <==>
      |query| >= 2 && |response| >= 12 && (response[0] != query[0] || response[1] != query[1])
    ensures ValidateResponse(query, response) == Some(NotAResponse) <==>
      |query| >= 2 && |response| >= 12 && response[..2] == query[..2] && response[2] < 128
    ensures ValidateResponse(query, response) == Some(TruncatedResponse) <==>
      |query| >= 2 && |response| >= 12 && response[..2] == query[..2] && response[2] >= 128 && response[2] / 2 % 2 == 1
  {
    if |query| >= 2 && |response| >= 12 {
      ByteMasks(response[2]);
      SameElements(response[..2], query[..2]);
      assert response[..2][0] == response[0] && response[..2][1] == response[1];
      assert query[..2][0] == query[0] && query[..2][1] == query[1];
    }
  }

  /** What the records stand for contains a suitable word, and `ip` is what the first one stands for. */
  ghost predicate RecordsYield(records: seq<Record>, wanted: RecordType, version: IpVersion, std: Std, ip: IpAddr) {
    exists results :: AreResults(records, wanted, std, results) && Yields(results, version, std, ip)
  }

  /**
   * Whatever datagram arrives: an address is accepted only from a response that
   * carries the query's id and is neither truncated nor an error, and it is the
   * first suitable word of what its records contribute.
   */
  lemma HandleReplyExact(query: seq<byte>, buf: seq<byte>, wanted: RecordType, version: IpVersion, std: Std, ip: IpAddr)
    ensures HandleReply(query, buf, wanted, version, std) == Success(ip) <==>
      && |query| >= 2 && |buf| >= 12 && buf[0] == query[0] && buf[1] == query[1]
      && buf[2] >= 128 && buf[2] / 2 % 2 == 0
      && exists names, pos, records ::
           IsResponse(buf, names, pos, records) && RecordsYield(records, wanted, version, std, ip)
  {
    hide AreResults, Yields, IsResponse, ExtractIp, ParseResponse;
    ValidateResponseExact(query, buf);
    if HandleReply(query, buf, wanted, version, std) == Success(ip) {
      var results := ParseResponse(buf, wanted, std).value;
      ParseExact(buf, wanted, std, results);
      ExtractIpExact(results, version, std, ip);
      var names, pos, records :| IsResponse(buf, names, pos, records) && AreResults(records, wanted, std, results);
    }
    forall names, pos, records |
      IsResponse(buf, names, pos, records) && RecordsYield(records, wanted, version, std, ip)
      ensures ParseResponse(buf, wanted, std).Success?
      ensures ExtractIp(ParseResponse(buf, wanted, std).value, version, std) == Success(ip)
    {
      var results :| AreResults(records, wanted, std, results) && Yields(results, version, std, ip);
      SomethingYields(results, version, std, ip);
      ParseExact(buf, wanted, std, results);
      ExtractIpExact(results, version, std, ip);
    }
  }

  lemma SomethingYields(results: seq<string>, version: IpVersion, std: Std, ip: IpAddr)
    requires Yields(results, version, std, ip)
    ensures results != []
  {
  }

  /** The reply to an accepted query passes the checks: same id, response bit set, not truncated. */
  lemma ReplyIsValid(
      domain: seq<byte>, recordType: RecordType, class_: DnsClass, id: QueryId,
      flags2: byte, flags3: byte, records: seq<Record>, trailer: seq<byte>)
    requires QueryFor(domain, recordType, class_, id).Success?
    requires |records| < 0x1_0000
    ensures
      var query := QueryFor(domain, recordType, class_, id).value;
      ValidateResponse(query, Reply(query, flags2, flags3, records) + trailer).None?
      <==> flags2 >= 128 && flags2 / 2 % 2 == 0
  {
    var query := QueryFor(domain, recordType, class_, id).value;
    var header := ReplyHeader(query[..12], flags2, flags3, |records|);
    var data := Reply(query, flags2, flags3, records) + trailer;
    ReplyHeaderFields(query[..12], flags2, flags3, |records|);
    assert data[..2] == header[..2] == query[..12][..2] == query[..2];
    assert data[2] == header[2];
    ByteMasks(flags2);
  }

  /** What comes of a reply whose first address, if it has any, is `first`. */
  function ReplyAddress(records: seq<Record>, first: Option<IpAddr>): Result<IpAddr, ClientError> {
    match first
    case Some(ip) => Success(ip)
    case None => Failure(Unparsable(if records == [] then NoAnswers else NoMatchingRecords))
  }

  /**
   * End to end: a query for addresses, answered with any records, yields the
   * first IPv4 address among them, and an error exactly if there is none.
   */
  lemma {:induction false} AddressQueryEndToEnd(
      domain: seq<byte>, class_: DnsClass, id: QueryId, flags2: byte, flags3: byte,
      records: seq<Record>, trailer: seq<byte>, version: IpVersion, std: Std)
    requires !version.OnlyV6?
    requires QueryFor(domain, SelectRecordType(AddressQuery, version), class_, id).Success?
    requires |records| < 0x1_0000
    requires flags2 >= 128 && flags2 / 2 % 2 == 0 && flags3 % 16 == 0
    ensures
      var wanted := SelectRecordType(AddressQuery, version);
      var query := QueryFor(domain, wanted, class_, id).value;
      var first := FirstAddress(Raws(records), 1, 4);
      && (first.Some? ==> |first.value| == 4)
      && HandleReply(query, Reply(query, flags2, flags3, records) + trailer, wanted, version, std)
         == ReplyAddress(records, if first.Some? then Some(V4(first.value)) else None)
  {
    ReplyIsValid(domain, A, class_, id, flags2, flags3, records, trailer);
    ReplyIsRead(domain, A, class_, id, flags2, flags3, records, trailer, A, std);
    AddressOfResults(records, version, std);
  }

  /** What the client makes of what the parser makes of a reply. */
  function Understood(results: Result<seq<string>, ResponseError>, version: IpVersion, std: Std)
    : Result<IpAddr, ClientError>
  {
    match results
    case Failure(e) => Failure(Unparsable(e))
    case Success(results) => ExtractIp(results, version, std)
  }

  lemma AddressOfResults(records: seq<Record>, version: IpVersion, std: Std)
    requires !version.OnlyV6?
    ensures
      var first := FirstAddress(Raws(records), 1, 4);
      && (first.Some? ==> |first.value| == 4)
      && Understood(ReplyResults(records, A, std), version, std)
         == ReplyAddress(records, if first.Some? then Some(V4(first.value)) else None)
  {
    var payloads := Payloads(Raws(records), A, std);
    FirstPayload4(Raws(records), std);
    if payloads != [] {
      assert payloads == [payloads[0]] + payloads[1..];
      AddressTextRoundTrip(FirstAddress(Raws(records), 1, 4).value, payloads[1..], version, std);
    }
  }

  lemma AddressOfResults6(records: seq<Record>, std: Std)
    ensures
      var first := FirstAddress(Raws(records), 28, 16);
      && (first.Some? ==> |first.value| == 16)
      && ((first.Some? ==> ReadsBack(first.value, std)) ==>
            Understood(ReplyResults(records, Aaaa, std), OnlyV6, std)
            == ReplyAddress(records, if first.Some? then Some(V6(first.value)) else None))
  {
    var payloads := Payloads(Raws(records), Aaaa, std);
    FirstPayload6(Raws(records), std);
    if payloads != [] {
      var first: Octets16 := FirstAddress(Raws(records), 28, 16).value;
      assert payloads == [payloads[0]] + payloads[1..];
      if ReadsBack(first, std) {
        AddressText6RoundTrip(first, payloads[1..], OnlyV6, std);
      }
    }
  }

  /** The same for IPv6, if the standard library reads back the first address it prints. */
  lemma {:induction false} AddressQueryEndToEnd6(
      domain: seq<byte>, class_: DnsClass, id: QueryId, flags2: byte, flags3: byte,
      records: seq<Record>, trailer: seq<byte>, std: Std)
    requires QueryFor(domain, SelectRecordType(AddressQuery, OnlyV6), class_, id).Success?
    requires |records| < 0x1_0000
    requires flags2 >= 128 && flags2 / 2 % 2 == 0 && flags3 % 16 == 0
    ensures
      var wanted := SelectRecordType(AddressQuery, OnlyV6);
      var query := QueryFor(domain, wanted, class_, id).value;
      var first := FirstAddress(Raws(records), 28, 16);
      && (first.Some? ==> |first.value| == 16)
      && ((first.Some? ==> ReadsBack(first.value, std)) ==>
            HandleReply(query, Reply(query, flags2, flags3, records) + trailer, wanted, OnlyV6, std)
            == ReplyAddress(records, if first.Some? then Some(V6(first.value)) else None))
  {
    ReplyIsValid(domain, Aaaa, class_, id, flags2, flags3, records, trailer);
    ReplyIsRead(domain, Aaaa, class_, id, flags2, flags3, records, trailer, Aaaa, std);
    AddressOfResults6(records, std);
  }

  // ---------------------------------------------------------------------------
  // Texts, all the way
  // ---------------------------------------------------------------------------

  /** The nonempty texts of the TXT records among `records`, whose character strings are `strings`. */
  function Texts(records: seq<Record>, strings: seq<seq<CharacterString>>, std: Std): seq<string>
    requires |strings| == |records|
  {
    if records == [] then []
    else
      var text := Concatenation(strings[0], std);
      (if records[0].recordType == 16 && text != "" then [text] else []) + Texts(records[1..], strings[1..], std)
  }

  /** The data of every TXT record are its character strings, one after the other. */
  ghost predicate HoldStrings(records: seq<Record>, strings: seq<seq<CharacterString>>) {
    && |strings| == |records|
    && forall i | 0 <= i < |records| && records[i].recordType == 16 :: records[i].rdata == EncodeStrings(strings[i])
  }

  lemma TextOfRecord(r: Record, strings: seq<CharacterString>, std: Std, text: string)
    requires r.recordType == 16 ==> r.rdata == EncodeStrings(strings)
    ensures Contributes(r, Txt, std, text) <==> r.recordType == 16 && text == Concatenation(strings, std) != ""
  {
    if r.recordType == 16 {
      TextRoundTrip(strings, [], std);
      assert EncodeStrings(strings) + [] == r.rdata;
      SpellsExact(r.rdata, text, std);
    }
  }

  lemma {:induction false} TextsAreResults(records: seq<Record>, strings: seq<seq<CharacterString>>, std: Std)
    requires HoldStrings(records, strings)
    ensures AreResults(records, Txt, std, Texts(records, strings, std))
  {
    hide Contributes, Concatenation;
    if records != [] {
      var rest := Texts(records[1..], strings[1..], std);
      TextsAreResults(records[1..], strings[1..], std);
      forall text
        ensures Contributes(records[0], Txt, std, text) <==>
          records[0].recordType == 16 && text == Concatenation(strings[0], std) != ""
      {
        TextOfRecord(records[0], strings[0], std, text);
      }
      FirstResult(records, Txt, std, Concatenation(strings[0], std), rest);
      assert [] + rest == rest;
    }
  }

  /**
   * End to end: a query for texts, answered with any records, yields the first
   * suitable word of all their texts, and an error exactly if there is none.
   */
  lemma TextQueryEndToEnd(
      domain: seq<byte>, class_: DnsClass, id: QueryId, flags2: byte, flags3: byte,
      records: seq<Record>, strings: seq<seq<CharacterString>>, trailer: seq<byte>, version: IpVersion, std: Std,
      ip: IpAddr)
    requires QueryFor(domain, SelectRecordType(TextQuery, version), class_, id).Success?
    requires |records| < 0x1_0000 && HoldStrings(records, strings)
    requires flags2 >= 128 && flags2 / 2 % 2 == 0 && flags3 % 16 == 0
    ensures
      var wanted := SelectRecordType(TextQuery, version);
      var query := QueryFor(domain, wanted, class_, id).value;
      var data := Reply(query, flags2, flags3, records) + trailer;
      var texts := Texts(records, strings, std);
      && ParseResponse(data, wanted, std) == (
           if records == [] then Failure(NoAnswers)
           else if texts == [] then Failure(NoMatchingRecords)
           else Success(texts))
      && (HandleReply(query, data, wanted, version, std) == Success(ip) <==> Yields(texts, version, std, ip))
      && (HandleReply(query, data, wanted, version, std) == Failure(NoValidIp) <==>
            texts != [] && forall w <- AllWords(texts) :: !Suitable(w, version, std))
  {
    hide Yields, ExtractIp, Suitable, Texts, AllWords;
    var texts := Texts(records, strings, std);
    TextsAreResults(records, strings, std);
    NoTextsFromNothing(records, strings, std);
    ReplyIsValid(domain, Txt, class_, id, flags2, flags3, records, trailer);
    ReplyRoundTrip(domain, Txt, class_, id, flags2, flags3, records, trailer, Txt, std, texts);
    ExtractIpExact(texts, version, std, ip);
    ExtractFails(texts, version, std);
    if Yields(texts, version, std, ip) {
      SomethingYields(texts, version, std, ip);
    }
  }

  lemma NoTextsFromNothing(records: seq<Record>, strings: seq<seq<CharacterString>>, std: Std)
    requires |strings| == |records|
    ensures records == [] ==> Texts(records, strings, std) == []
  {
  }

  lemma {:induction false} ExtractFails(results: seq<string>, version: IpVersion, std: Std)
    ensures ExtractIp(results, version, std).Failure? ==> ExtractIp(results, version, std).error == NoValidIp
  {
    if results != [] {
      ExtractFails(results[1..], version, std);
    }
  }
}
