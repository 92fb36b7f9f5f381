/** Parsing DNS responses (RFC 1035 sections 3.3.14, 3.4.1 and 4.1; RFC 3596 section 2.2 for AAAA). */
module DnsProtocol {
  import opened Types
  import opened Bytes
  import opened Text
  import opened DnsNames

  /** What the parser takes from the standard library: UTF-8 decoding, and IPv6 addresses as text. */
  datatype Std = Std(
    fromUtf8: seq<byte> -> Option<string>,
    showV6: Octets16 -> string,
    readV6: string -> Option<Octets16>)

  datatype ResponseError =
    | ResponseTooShort
    | DnsErrorResponse
    | NoAnswers
    | BadName(cause: NameError)
    | TruncatedQuestion
    | NoMatchingRecords

  // ---------------------------------------------------------------------------
  // Resource records on the wire
  // ---------------------------------------------------------------------------

  type RData = s: seq<byte> | |s| < 0x1_0000 witness []

  datatype Record = Record(name: Name, recordType: u16, class_: u16, ttl: Octets4, rdata: RData)

  /** Type, class, time to live, length and data: everything behind the name. */
  function RecordBody(r: Record): (w: seq<byte>)
    ensures |w| == 10 + |r.rdata|
  {
    U16Bytes(r.recordType) + U16Bytes(r.class_) + r.ttl + U16Bytes(|r.rdata|) + r.rdata
  }

  function RecordSize(r: Record): nat { NameSize(r.name) + 10 + |r.rdata| }

  function EncodeRecord(r: Record): (w: seq<byte>)
    ensures |w| == RecordSize(r)
  {
    EncodeName(r.name) + RecordBody(r)
  }

  function RecordsSize(records: seq<Record>): nat {
    if records == [] then 0 else RecordSize(records[0]) + RecordsSize(records[1..])
  }

  function EncodeRecords(records: seq<Record>): (w: seq<byte>)
    ensures |w| == RecordsSize(records)
  {
    if records == [] then [] else EncodeRecord(records[0]) + EncodeRecords(records[1..])
  }

  // ---------------------------------------------------------------------------
  // What the parser computes
  // ---------------------------------------------------------------------------

  /** The character strings of a TXT record, glued together; strings that are not UTF-8 are dropped. */
  function TextOf(rdata: seq<byte>, std: Std): string {
    if rdata == [] then ""
    else
      var len: nat := rdata[0];
      if 1 + len > |rdata| then ""
      else
        match std.fromUtf8(rdata[1..1 + len])
        case Some(s) => s + TextOf(rdata[1 + len..], std)
        case None => TextOf(rdata[1 + len..], std)
  }

  /** The result a record contributes: none or one. */
  function Payload(recordType: u16, rdata: seq<byte>, wanted: RecordType, std: Std): (p: seq<string>)
    ensures |p| <= 1
  {
    if recordType != wanted.ToU16() then []
    else
      match wanted
      case A => if |rdata| == 4 then [ShowV4(rdata)] else []
      case Aaaa => if |rdata| == 16 then [std.showV6(rdata)] else []
      case Txt => var text := TextOf(rdata, std); if text == "" then [] else [text]
  }

  /** Type and data of a record: all the parser looks at. */
  datatype RawRecord = RawRecord(recordType: u16, rdata: seq<byte>)

  function Payloads(raws: seq<RawRecord>, wanted: RecordType, std: Std): seq<string> {
    if raws == [] then []
    else Payload(raws[0].recordType, raws[0].rdata, wanted, std) + Payloads(raws[1..], wanted, std)
  }

  /** What the records read contribute, if they could be read. */
  function Contributed(raws: Result<seq<RawRecord>, NameError>, wanted: RecordType, std: Std)
    : Result<seq<string>, NameError>
  {
    match raws
    case Failure(e) => Failure(e)
    case Success(records) => Success(Payloads(records, wanted, std))
  }

  /** One round of the answer loop. */
  datatype Step = Stop | Bad(cause: NameError) | Found(raw: RawRecord, next: nat)

  /** The part of a record behind its name. */
  function ReadBody(data: seq<byte>, p: nat): (s: Step)
    ensures s.Found? ==> p < s.next <= |data|
  {
    if p + 10 > |data| then Stop
    else
      var end := p + 10 + U16(data[p + 8], data[p + 9]);
      if end > |data| then Stop
      else Found(RawRecord(U16(data[p], data[p + 1]), data[p + 10..end]), end)
  }

  function ReadRecord(data: seq<byte>, pos: nat): (s: Step)
  {
    if pos >= |data| then Stop
    else
      match SkipName(data, pos)
      case Failure(e) => Bad(e)
      case Success(p) => ReadBody(data, p)
  }

  /** The complete records at `pos`, at most `count` of them. */
  function ReadRecords(data: seq<byte>, pos: nat, count: nat): Result<seq<RawRecord>, NameError>
    decreases count
  {
    if count == 0 then Success([])
    else
      match ReadRecord(data, pos)
      case Stop => Success([])
      case Bad(e) => Failure(e)
      case Found(raw, next) => After([raw], ReadRecords(data, next, count - 1))
  }

  /** What is still to be read, put behind the records already found. */
  function After(found: seq<RawRecord>, rest: Result<seq<RawRecord>, NameError>): Result<seq<RawRecord>, NameError> {
    match rest
    case Failure(e) => Failure(e)
    case Success(raws) => Success(found + raws)
  }

  function SkipQuestions(data: seq<byte>, pos: nat, count: nat): (r: Result<nat, ResponseError>)
    ensures r.Failure? ==> r.error.BadName? || r.error.TruncatedQuestion?
    decreases count
  {
    if count == 0 then Success(pos)
    else
      match SkipName(data, pos)
      case Failure(e) => Failure(BadName(e))
      case Success(p) => if p + 4 > |data| then Failure(TruncatedQuestion) else SkipQuestions(data, p + 4, count - 1)
  }

  function Conclude(results: seq<string>): Result<seq<string>, ResponseError> {
    if results == [] then Failure(NoMatchingRecords) else Success(results)
  }

  function ParseResponse(data: seq<byte>, wanted: RecordType, std: Std): Result<seq<string>, ResponseError> {
    if |data| < 12 then Failure(ResponseTooShort)
    else if data[3] % 16 != 0 then Failure(DnsErrorResponse)
    else
      var questionCount, answerCount := U16(data[4], data[5]), U16(data[6], data[7]);
      if answerCount == 0 then Failure(NoAnswers)
      else
        match SkipQuestions(data, 12, questionCount)
        case Failure(e) => Failure(e)
        case Success(pos) =>
          match ReadRecords(data, pos, answerCount)
          case Failure(e) => Failure(BadName(e))
          case Success(raws) => Conclude(Payloads(raws, wanted, std))
  }

  // ---------------------------------------------------------------------------
  // The parser
  // ---------------------------------------------------------------------------

  /** What the string at `pos` adds, if all of it is there. */
  lemma TextStep(txt: string, rdata: seq<byte>, pos: nat, std: Std)
    requires pos < |rdata| && pos + 1 + rdata[pos] <= |rdata|
    ensures
      var next := pos + 1 + rdata[pos];
      var decoded := std.fromUtf8(rdata[pos + 1..next]);
      txt + TextOf(rdata[pos..], std) == (if decoded.Some? then txt + decoded.value else txt) + TextOf(rdata[next..], std)
  {
    hide *;
    var rest := rdata[pos..];
    var len: nat := rdata[pos];
    assert rest[0] == len;
    assert rest[1..1 + len] == rdata[pos + 1..pos + 1 + len];
    assert rest[1 + len..] == rdata[pos + 1 + len..];
    TextUnfolds(txt, rest, std);
  }

  lemma TextEnds(rdata: seq<byte>, pos: nat, std: Std)
    requires pos == |rdata| || (pos < |rdata| && pos + 1 + rdata[pos] > |rdata|)
    ensures TextOf(rdata[pos..], std) == ""
  {
  }

  lemma TextUnfolds(txt: string, rest: seq<byte>, std: Std)
    requires rest != [] && 1 + rest[0] <= |rest|
    ensures
      var len: nat := rest[0];
      var decoded := std.fromUtf8(rest[1..1 + len]);
      txt + TextOf(rest, std) == (if decoded.Some? then txt + decoded.value else txt) + TextOf(rest[1 + len..], std)
  {
  }

  /** The loop over the length-prefixed strings of a TXT record. */
  method ReadText(rdata: seq<byte>, std: Std) returns (txt: string)
    ensures txt == TextOf(rdata, std)
  {
    hide *;
    var txtPos: nat := 0;
    txt := "";
    assert rdata[0..] == rdata;
    while txtPos < |rdata|
      invariant txtPos <= |rdata|
      invariant txt + TextOf(rdata[txtPos..], std) == TextOf(rdata, std)
      decreases |rdata| - txtPos
    {
      ghost var start := txtPos;
      var len: nat := rdata[txtPos];
      txtPos := txtPos + 1;
      if txtPos + len <= |rdata| {
        TextStep(txt, rdata, start, std);
        var decoded := std.fromUtf8(rdata[txtPos..txtPos + len]);
        if decoded.Some? {
          txt := txt + decoded.value;
        }
        txtPos := txtPos + len;
      } else {
        TextEnds(rdata, start, std);
        assert txt + "" == txt;
        return;
      }
    }
    TextEnds(rdata, txtPos, std);
    assert txt + "" == txt;
  }

  method PushPayload(found: seq<string>, rtype: u16, rdata: seq<byte>, wanted: RecordType, std: Std)
    returns (results: seq<string>)
    ensures results == found + Payload(rtype, rdata, wanted, std)
  {
    results := found;
    if rtype == wanted.ToU16() {
      match wanted {
        case A =>
          if |rdata| == 4 {
            results := results + [ShowV4([rdata[0], rdata[1], rdata[2], rdata[3]])];
            assert rdata == [rdata[0], rdata[1], rdata[2], rdata[3]];
          }
        case Aaaa =>
          if |rdata| == 16 {
            results := results + [std.showV6(rdata)];
          }
        case Txt =>
          var txt := ReadText(rdata, std);
          if txt != "" {
            results := results + [txt];
          }
      }
    }
  }

  /** The record at `pos`, if all of it is there. */
  method NextRecord(data: seq<byte>, start: nat) returns (s: Step)
    ensures s == ReadRecord(data, start)
  {
    if start >= |data| {
      return Stop;
    }
    var name := WalkName(data, start);
    if name.Failure? {
      return Bad(name.error);
    }
    var pos := name.value;
    if pos + 10 > |data| {
      return Stop;
    }
    var rtype := U16(data[pos], data[pos + 1]);
    var rdlength := U16(data[pos + 8], data[pos + 9]);
    pos := pos + 10;
    if pos + rdlength > |data| {
      return Stop;
    }
    s := Found(RawRecord(rtype, data[pos..pos + rdlength]), pos + rdlength);
  }

  /** Results already pushed, and what is still to come. */
  function Onto(results: seq<string>, rest: Result<seq<string>, NameError>): Result<seq<string>, NameError> {
    match rest
    case Failure(e) => Failure(e)
    case Success(more) => Success(results + more)
  }

  lemma AnswersStop(data: seq<byte>, pos: nat, count: nat, results: seq<string>, wanted: RecordType, std: Std)
    requires count > 0 && !ReadRecord(data, pos).Found?
    ensures Onto(results, Contributed(ReadRecords(data, pos, count), wanted, std)) ==
      if ReadRecord(data, pos).Bad? then Failure(ReadRecord(data, pos).cause) else Success(results)
  {
    assert results + [] == results;
  }

  lemma AnswersGoOn(data: seq<byte>, pos: nat, count: nat)
    requires count > 0 && ReadRecord(data, pos).Found?
    ensures ReadRecords(data, pos, count) ==
      After([ReadRecord(data, pos).raw], ReadRecords(data, ReadRecord(data, pos).next, count - 1))
  {
  }

  lemma AnswersEnd(data: seq<byte>, pos: nat, results: seq<string>, wanted: RecordType, std: Std)
    ensures Onto(results, Contributed(ReadRecords(data, pos, 0), wanted, std)) == Success(results)
  {
    assert results + [] == results;
  }

  lemma ContributedMore(
      results: seq<string>, raw: RawRecord, rest: Result<seq<RawRecord>, NameError>, wanted: RecordType, std: Std)
    ensures Onto(results, Contributed(After([raw], rest), wanted, std))
      == Onto(results + Payload(raw.recordType, raw.rdata, wanted, std), Contributed(rest, wanted, std))
  {
    if rest.Success? {
      assert ([raw] + rest.value)[1..] == rest.value;
      var p := Payload(raw.recordType, raw.rdata, wanted, std);
      assert results + (p + Payloads(rest.value, wanted, std)) == results + p + Payloads(rest.value, wanted, std);
    }
  }

  lemma OntoNothing(rest: Result<seq<string>, NameError>)
    ensures Onto([], rest) == rest
  {
    if rest.Success? {
      assert [] + rest.value == rest.value;
    }
  }

  /**
   * One round of the answer loop: either the parse is over, or a record was
   * read and its results pushed. `all` is what comes out in the end.
   */
  method AnswerRound(
      data: seq<byte>, pos: nat, ghost left: nat, found: seq<string>, wanted: RecordType, std: Std,
      ghost all: Result<seq<string>, NameError>)
    returns (done: Option<Result<seq<string>, NameError>>, next: nat, results: seq<string>)
    requires left > 0 && Onto(found, Contributed(ReadRecords(data, pos, left), wanted, std)) == all
    ensures done.Some? ==> done.value == all
    ensures done.None? ==> Onto(results, Contributed(ReadRecords(data, next, left - 1), wanted, std)) == all
  {
    done, next, results := None, pos, found;
    var step := NextRecord(data, pos);
    match step {
      case Stop =>
        AnswersStop(data, pos, left, found, wanted, std);
        done := Some(Success(results));
      case Bad(e) =>
        AnswersStop(data, pos, left, found, wanted, std);
        done := Some(Failure(e));
      case Found(raw, end) =>
        AnswersGoOn(data, pos, left);
        ContributedMore(found, raw, ReadRecords(data, end, left - 1), wanted, std);
        results := PushPayload(results, raw.recordType, raw.rdata, wanted, std);
        next := end;
    }
  }

  /** The answer loop. It ends silently where a record is cut off. */
  method ParseAnswers(data: seq<byte>, start: nat, ancount: nat, wanted: RecordType, std: Std)
    returns (r: Result<seq<string>, NameError>)
    ensures r == Contributed(ReadRecords(data, start, ancount), wanted, std)
  {
    hide *;
    var pos: nat := start;
    var results: seq<string> := [];
    ghost var left := ancount;
    ghost var all := Contributed(ReadRecords(data, start, ancount), wanted, std);
    OntoNothing(all);
    for i := 0 to ancount
      invariant left == ancount - i
      invariant Onto(results, Contributed(ReadRecords(data, pos, left), wanted, std)) == all
    {
      var done;
      done, pos, results := AnswerRound(data, pos, left, results, wanted, std, all);
      if done.Some? {
        return done.value;
      }
      left := left - 1;
    }
    AnswersEnd(data, pos, results, wanted, std);
    r := Success(results);
  }

  method Parse(data: seq<byte>, wanted: RecordType, std: Std) returns (r: Result<seq<string>, ResponseError>)
    ensures r == ParseResponse(data, wanted, std)
  {
    if |data| < 12 {
      return Failure(ResponseTooShort);
    }
    ByteMasks(data[3]);
    var rcode := BitAnd(data[3], 0x0F);
    if rcode != 0 {
      return Failure(DnsErrorResponse);
    }
    var qdcount := U16(data[4], data[5]);
    var ancount := U16(data[6], data[7]);
    if ancount == 0 {
      return Failure(NoAnswers);
    }
    var pos: nat := 12;
    for i := 0 to qdcount
      invariant SkipQuestions(data, 12, qdcount) == SkipQuestions(data, pos, qdcount - i)
    {
      var next := WalkName(data, pos);
      if next.Failure? {
        return Failure(BadName(next.error));
      }
      pos := next.value;
      if pos + 4 > |data| {
        return Failure(TruncatedQuestion);
      }
      pos := pos + 4;
    }
    var results := ParseAnswers(data, pos, ancount, wanted, std);
    if results.Failure? {
      return Failure(BadName(results.error));
    }
    if results.value == [] {
      return Failure(NoMatchingRecords);
    }
    r := Success(results.value);
  }
}
