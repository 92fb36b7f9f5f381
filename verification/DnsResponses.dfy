/** What the response parser guarantees: exactness, truncation, totality and the round trip. */
module DnsResponses {
  import opened Types
  import opened Bytes
  import opened Text
  import opened DnsNames
  import opened DnsQuery
  import opened DnsProtocol

  // ---------------------------------------------------------------------------
  // One record
  // ---------------------------------------------------------------------------

  function Raw(r: Record): RawRecord { RawRecord(r.recordType, r.rdata) }

  function Raws(records: seq<Record>): seq<RawRecord> {
    if records == [] then [] else [Raw(records[0])] + Raws(records[1..])
  }

  lemma BodyFields(r: Record, data: seq<byte>, p: nat)
    requires p + |RecordBody(r)| <= |data| && data[p..p + |RecordBody(r)|] == RecordBody(r)
    ensures U16(data[p], data[p + 1]) == r.recordType
    ensures U16(data[p + 8], data[p + 9]) == |r.rdata|
    ensures data[p + 10..p + 10 + |r.rdata|] == r.rdata
  {
    var w := RecordBody(r);
    assert data[p] == w[0] && data[p + 1] == w[1] && data[p + 8] == w[8] && data[p + 9] == w[9];
    U16RoundTrip(r.recordType);
    U16RoundTrip(|r.rdata|);
    SliceOfSlice(data, p, p + |w|, 10, |w|);
    assert w[10..] == r.rdata;
  }

  /** The encoding of `r` stands at `pos`. */
  ghost predicate RecordAt(data: seq<byte>, pos: nat, r: Record) {
    pos <= |data| && EncodeRecord(r) <= data[pos..]
  }

  lemma RecordAtParts(data: seq<byte>, pos: nat, r: Record)
    ensures RecordAt(data, pos, r) <==>
      var p := pos + NameSize(r.name);
      && pos + RecordSize(r) <= |data|
      && data[pos..p] == EncodeName(r.name)
      && data[p..p + 10 + |r.rdata|] == RecordBody(r)
  {
    if pos <= |data| {
      PrefixAt(data, pos, EncodeRecord(r));
      if pos + RecordSize(r) <= |data| {
        ConcatAt(data, pos, EncodeName(r.name), RecordBody(r));
      }
    }
  }

  lemma RecordIsRead(data: seq<byte>, pos: nat, r: Record)
    requires RecordAt(data, pos, r)
    ensures ReadRecord(data, pos) == Found(Raw(r), pos + RecordSize(r))
  {
    var p := pos + NameSize(r.name);
    RecordAtParts(data, pos, r);
    NameStands(data, pos, r.name);
    assert ReadBody(data, p) == Found(Raw(r), p + 10 + |r.rdata|) by {
      BodyFields(r, data, p);
    }
  }

  lemma NameStands(data: seq<byte>, pos: nat, n: Name)
    requires pos + NameSize(n) <= |data| && data[pos..pos + NameSize(n)] == EncodeName(n)
    ensures SkipName(data, pos) == Success(pos + NameSize(n))
  {
    assert data[pos..][..NameSize(n)] == EncodeName(n);
    NameIsSkipped(data, pos, n);
  }

  lemma ReadIsRecord(data: seq<byte>, pos: nat) returns (r: Record)
    requires ReadRecord(data, pos).Found?
    ensures RecordAt(data, pos, r)
    ensures ReadRecord(data, pos) == Found(Raw(r), pos + RecordSize(r))
  {
    var n := SkippedIsName(data, pos);
    var p := pos + NameSize(n);
    var next := ReadRecord(data, pos).next;
    r := Record(n, U16(data[p], data[p + 1]), U16(data[p + 2], data[p + 3]), data[p + 4..p + 8], data[p + 10..next]);
    BodyIsData(data, p, r);
    assert data[pos..p] == data[pos..][..p - pos];
    RecordAtParts(data, pos, r);
  }

  lemma BodyIsData(data: seq<byte>, p: nat, r: Record)
    requires p + 10 + |r.rdata| <= |data|
    requires r.recordType == U16(data[p], data[p + 1]) && r.class_ == U16(data[p + 2], data[p + 3])
    requires r.ttl == data[p + 4..p + 8] && |r.rdata| == U16(data[p + 8], data[p + 9])
    requires r.rdata == data[p + 10..p + 10 + |r.rdata|]
    ensures RecordBody(r) == data[p..p + 10 + |r.rdata|]
  {
    U16Field(r.recordType, data[p], data[p + 1]);
    U16Field(r.class_, data[p + 2], data[p + 3]);
    U16Field(|r.rdata|, data[p + 8], data[p + 9]);
    assert data[p..p + 10 + |r.rdata|]
      == [data[p], data[p + 1]] + [data[p + 2], data[p + 3]] + data[p + 4..p + 8] + [data[p + 8], data[p + 9]]
         + data[p + 10..p + 10 + |r.rdata|];
  }

  // ---------------------------------------------------------------------------
  // Character strings
  // ---------------------------------------------------------------------------

  type CharacterString = s: seq<byte> | |s| < 256 witness []

  function EncodeStrings(strings: seq<CharacterString>): seq<byte> {
    if strings == [] then [] else [|strings[0]|] + strings[0] + EncodeStrings(strings[1..])
  }

  function Decoded(s: seq<byte>, std: Std): string {
    match std.fromUtf8(s)
    case Some(text) => text
    case None => ""
  }

  function Concatenation(strings: seq<CharacterString>, std: Std): string {
    if strings == [] then "" else Decoded(strings[0], std) + Concatenation(strings[1..], std)
  }

  /** No complete character string is left. */
  predicate IsCut(rest: seq<byte>) { rest == [] || 1 + rest[0] > |rest| }

  /** TXT data is the concatenation of its strings; an over-long last string is dropped with all that follows. */
  lemma {:induction false} TextRoundTrip(strings: seq<CharacterString>, rest: seq<byte>, std: Std)
    requires IsCut(rest)
    ensures TextOf(EncodeStrings(strings) + rest, std) == Concatenation(strings, std)
  {
    var w := EncodeStrings(strings) + rest;
    if strings == [] {
      assert w == rest;
    } else {
      var s := strings[0];
      assert w[1..1 + |s|] == s;
      assert w[1 + |s|..] == EncodeStrings(strings[1..]) + rest;
      TextRoundTrip(strings[1..], rest, std);
    }
  }

  /** All TXT data consists of character strings, and perhaps a cut one. */
  lemma {:induction false} TextParts(rdata: seq<byte>) returns (strings: seq<CharacterString>, rest: seq<byte>)
    ensures rdata == EncodeStrings(strings) + rest && IsCut(rest)
  {
    if IsCut(rdata) {
      strings, rest := [], rdata;
    } else {
      var len: nat := rdata[0];
      strings, rest := TextParts(rdata[1 + len..]);
      var s: CharacterString := rdata[1..1 + len];
      assert rdata == [len] + s + rdata[1 + len..];
      assert ([s] + strings)[1..] == strings;
      strings := [s] + strings;
    }
  }

  // ---------------------------------------------------------------------------
  // What a record contributes
  // ---------------------------------------------------------------------------

  /** The record's data are character strings that concatenate to `text`, whatever is cut off behind them. */
  ghost predicate Spells(rdata: seq<byte>, text: string, std: Std) {
    exists strings, rest ::
      rdata == EncodeStrings(strings) + rest && IsCut(rest) && text == Concatenation(strings, std)
  }

  /** `result` is what a record stands for: an IPv4 address, an IPv6 address or a text, as wanted. */
  ghost predicate Contributes(r: Record, wanted: RecordType, std: Std, result: string) {
    match wanted
    case A => r.recordType == 1 && |r.rdata| == 4 && result == ShowV4(r.rdata)
    case Aaaa => r.recordType == 28 && |r.rdata| == 16 && result == std.showV6(r.rdata)
    case Txt => r.recordType == 16 && result != "" && Spells(r.rdata, result, std)
  }

  /** The results are what the records stand for, in order; records that stand for nothing are left out. */
  ghost predicate AreResults(records: seq<Record>, wanted: RecordType, std: Std, results: seq<string>) {
    if records == [] then results == []
    else if results != [] && Contributes(records[0], wanted, std, results[0]) then
      AreResults(records[1..], wanted, std, results[1..])
    else
      && (forall result :: !Contributes(records[0], wanted, std, result))
      && AreResults(records[1..], wanted, std, results)
  }

  lemma FirstResult(records: seq<Record>, wanted: RecordType, std: Std, result: string, rest: seq<string>)
    requires records != [] && AreResults(records[1..], wanted, std, rest)
    ensures Contributes(records[0], wanted, std, result) ==> AreResults(records, wanted, std, [result] + rest)
    ensures (forall other :: !Contributes(records[0], wanted, std, other)) ==> AreResults(records, wanted, std, rest)
  {
    hide Contributes;
    assert ([result] + rest)[1..] == rest;
  }

  lemma SpellsExact(rdata: seq<byte>, text: string, std: Std)
    ensures Spells(rdata, text, std) <==> TextOf(rdata, std) == text
  {
    var strings, rest := TextParts(rdata);
    TextRoundTrip(strings, rest, std);
    forall others, more | rdata == EncodeStrings(others) + more && IsCut(more)
      ensures TextOf(rdata, std) == Concatenation(others, std)
    {
      TextRoundTrip(others, more, std);
    }
  }

  lemma PayloadExact(r: Record, wanted: RecordType, std: Std, result: string)
    ensures Payload(r.recordType, r.rdata, wanted, std) == [result] <==> Contributes(r, wanted, std, result)
  {
    hide Spells, TextOf;
    SpellsExact(r.rdata, result, std);
  }

  lemma NoPayloadExact(r: Record, wanted: RecordType, std: Std)
    ensures Payload(r.recordType, r.rdata, wanted, std) == [] <==> forall result :: !Contributes(r, wanted, std, result)
  {
    hide Contributes;
    forall result ensures Payload(r.recordType, r.rdata, wanted, std) == [result] <==> Contributes(r, wanted, std, result) {
      PayloadExact(r, wanted, std, result);
    }
    var p := Payload(r.recordType, r.rdata, wanted, std);
    if p != [] {
      assert p == [p[0]];
    }
  }

  lemma {:induction false} PayloadsExact(records: seq<Record>, wanted: RecordType, std: Std, results: seq<string>)
    ensures Payloads(Raws(records), wanted, std) == results <==> AreResults(records, wanted, std, results)
  {
    hide Contributes, Payload;
    if records != [] {
      var r, p := records[0], Payload(records[0].recordType, records[0].rdata, wanted, std);
      var rest := Payloads(Raws(records[1..]), wanted, std);
      assert Payloads(Raws(records), wanted, std) == p + rest;
      NoPayloadExact(r, wanted, std);
      if results != [] {
        PayloadExact(r, wanted, std, results[0]);
        PayloadsExact(records[1..], wanted, std, results[1..]);
      }
      PayloadsExact(records[1..], wanted, std, results);
      HeadAndRest(p, rest, results);
    }
  }

  lemma HeadAndRest(p: seq<string>, rest: seq<string>, results: seq<string>)
    requires |p| <= 1
    ensures p + rest == results <==>
      if p == [] then rest == results else results != [] && p == [results[0]] && rest == results[1..]
  {
    if results != [] {
      assert results == [results[0]] + results[1..];
    }
    if p != [] {
      assert p == [p[0]] && (p + rest)[1..] == rest;
    }
  }

  // ---------------------------------------------------------------------------
  // The answer section, exactly
  // ---------------------------------------------------------------------------

  /** A record starts at `p`, at least its name does, but not all of it is there. */
  ghost predicate CutOff(data: seq<byte>, p: nat) {
    p >= |data| || (SkipName(data, p).Success? && forall r :: !RecordAt(data, p, r))
  }

  /** `records` are the complete records at `pos`: `count` of them, or fewer if the data ends. */
  ghost predicate Carries(data: seq<byte>, pos: nat, count: nat, records: seq<Record>)
    decreases count
  {
    if records == [] then count == 0 || CutOff(data, pos)
    else
      && count > 0
      && RecordAt(data, pos, records[0])
      && Carries(data, pos + RecordSize(records[0]), count - 1, records[1..])
  }

  lemma StopIsCutOff(data: seq<byte>, p: nat)
    ensures ReadRecord(data, p) == Stop <==> CutOff(data, p)
  {
    if p < |data| {
      if ReadRecord(data, p).Found? {
        var r := ReadIsRecord(data, p);
      }
      forall r | RecordAt(data, p, r) ensures ReadRecord(data, p).Found? {
        RecordIsRead(data, p, r);
      }
    }
  }

  lemma FirstOfRecords(records: seq<Record>, data: seq<byte>, pos: nat)
    requires records != [] && pos <= |data|
    ensures EncodeRecords(records) <= data[pos..] <==>
      && RecordAt(data, pos, records[0])
      && EncodeRecords(records[1..]) <= data[pos + RecordSize(records[0])..]
  {
    var a, b := EncodeRecord(records[0]), EncodeRecords(records[1..]);
    PrefixAt(data, pos, a + b);
    PrefixAt(data, pos, a);
    if pos + |a| <= |data| {
      PrefixAt(data, pos + |a|, b);
      if pos + |a| + |b| <= |data| {
        ConcatAt(data, pos, a, b);
      }
    }
  }

  /** The encodings of `records` stand at `pos`: `count` of them, or fewer if the next one is cut off. */
  ghost predicate StandAt(data: seq<byte>, pos: nat, count: nat, records: seq<Record>)
    requires pos <= |data|
  {
    && |records| <= count
    && EncodeRecords(records) <= data[pos..]
    && (|records| == count || CutOff(data, pos + RecordsSize(records)))
  }

  lemma RecordFits(data: seq<byte>, pos: nat, r: Record)
    requires RecordAt(data, pos, r)
    ensures pos + RecordSize(r) <= |data|
  {
    PrefixAt(data, pos, EncodeRecord(r));
  }

  lemma StandAtStep(data: seq<byte>, pos: nat, count: nat, records: seq<Record>)
    requires records != [] && count > 0 && RecordAt(data, pos, records[0])
    ensures pos + RecordSize(records[0]) <= |data|
    ensures StandAt(data, pos, count, records) <==>
      StandAt(data, pos + RecordSize(records[0]), count - 1, records[1..])
  {
    hide CutOff, RecordAt, EncodeRecord, EncodeRecords, RecordSize;
    RecordFits(data, pos, records[0]);
    FirstOfRecords(records, data, pos);
    assert pos + RecordsSize(records) == pos + RecordSize(records[0]) + RecordsSize(records[1..]);
  }

  /** Carrying records means: their encodings, one after the other, and enough of them. */
  lemma {:induction false} CarriesIsEncoding(data: seq<byte>, pos: nat, count: nat, records: seq<Record>)
    requires pos <= |data|
    ensures Carries(data, pos, count, records) <==> StandAt(data, pos, count, records)
    decreases count
  {
    hide CutOff, RecordAt, EncodeRecord;
    if records != [] && count > 0 {
      if RecordAt(data, pos, records[0]) {
        StandAtStep(data, pos, count, records);
        CarriesIsEncoding(data, pos + RecordSize(records[0]), count - 1, records[1..]);
      } else {
        FirstOfRecords(records, data, pos);
      }
    }
  }

  lemma ReadOne(data: seq<byte>, pos: nat, count: nat, r: Record, rest: seq<RawRecord>)
    requires count > 0 && RecordAt(data, pos, r)
    requires ReadRecords(data, pos + RecordSize(r), count - 1) == Success(rest)
    ensures ReadRecords(data, pos, count) == Success([Raw(r)] + rest)
  {
    RecordIsRead(data, pos, r);
  }

  lemma {:induction false} RecordsComplete(data: seq<byte>, pos: nat, count: nat, records: seq<Record>)
    requires Carries(data, pos, count, records)
    ensures ReadRecords(data, pos, count) == Success(Raws(records))
    decreases count
  {
    hide CutOff, RecordAt, ReadBody, EncodeRecord;
    if records == [] {
      StopIsCutOff(data, pos);
    } else {
      RecordsComplete(data, pos + RecordSize(records[0]), count - 1, records[1..]);
      ReadOne(data, pos, count, records[0], Raws(records[1..]));
    }
  }

  lemma CarriesMore(data: seq<byte>, pos: nat, count: nat, r: Record, rest: seq<Record>)
    requires count > 0 && RecordAt(data, pos, r) && Carries(data, pos + RecordSize(r), count - 1, rest)
    ensures Carries(data, pos, count, [r] + rest) && Raws([r] + rest) == [Raw(r)] + Raws(rest)
  {
    assert ([r] + rest)[1..] == rest;
  }

  lemma {:induction false} RecordsSound(data: seq<byte>, pos: nat, count: nat) returns (records: seq<Record>)
    requires ReadRecords(data, pos, count).Success?
    ensures Carries(data, pos, count, records)
    ensures ReadRecords(data, pos, count).value == Raws(records)
    decreases count
  {
    hide CutOff, RecordAt, ReadBody, EncodeRecord;
    if count > 0 && ReadRecord(data, pos).Found? {
      var r := ReadIsRecord(data, pos);
      var rest := RecordsSound(data, pos + RecordSize(r), count - 1);
      records := [r] + rest;
      CarriesMore(data, pos, count, r, rest);
      ReadOne(data, pos, count, r, Raws(rest));
    } else {
      records := [];
      StopIsCutOff(data, pos);
    }
  }

  /**
   * The answer loop succeeds exactly if the data carries records there, and
   * sees exactly those records, in order.
   */
  lemma RecordsExact(data: seq<byte>, pos: nat, count: nat, raws: seq<RawRecord>)
    ensures ReadRecords(data, pos, count) == Success(raws) <==>
      exists records :: Carries(data, pos, count, records) && raws == Raws(records)
  {
    if ReadRecords(data, pos, count) == Success(raws) {
      var records := RecordsSound(data, pos, count);
    }
    forall records | Carries(data, pos, count, records)
      ensures ReadRecords(data, pos, count) == Success(Raws(records))
    {
      RecordsComplete(data, pos, count, records);
    }
  }

  lemma {:induction false} RecordsBounded(data: seq<byte>, pos: nat, count: nat)
    ensures ReadRecords(data, pos, count).Success? ==> |ReadRecords(data, pos, count).value| <= count
    decreases count
  {
    if count > 0 && ReadRecord(data, pos).Found? {
      RecordsBounded(data, ReadRecord(data, pos).next, count - 1);
    }
  }

  lemma {:induction false} PayloadsBounded(raws: seq<RawRecord>, wanted: RecordType, std: Std)
    ensures |Payloads(raws, wanted, std)| <= |raws|
  {
    if raws != [] {
      PayloadsBounded(raws[1..], wanted, std);
    }
  }

  /** A successful parse has at least one result and never more than the announced answers. */
  lemma ResultsBounded(data: seq<byte>, wanted: RecordType, std: Std)
    requires ParseResponse(data, wanted, std).Success?
    ensures 1 <= |ParseResponse(data, wanted, std).value| <= U16(data[6], data[7])
  {
    var pos := SkipQuestions(data, 12, U16(data[4], data[5])).value;
    var raws := ReadRecords(data, pos, U16(data[6], data[7]));
    RecordsBounded(data, pos, U16(data[6], data[7]));
    PayloadsBounded(raws.value, wanted, std);
  }

  // ---------------------------------------------------------------------------
  // The whole response, exactly
  // ---------------------------------------------------------------------------

  /** From `pos` up to `next` stand questions about `names`, each with its type and class. */
  ghost predicate QuestionsAt(data: seq<byte>, pos: nat, names: seq<Name>, next: nat)
    decreases names
  {
    if names == [] then next == pos
    else
      && NameAt(data, pos, names[0])
      && pos + NameSize(names[0]) + 4 <= |data|
      && QuestionsAt(data, pos + NameSize(names[0]) + 4, names[1..], next)
  }

  lemma {:induction false} QuestionsAreSkipped(data: seq<byte>, pos: nat, names: seq<Name>, next: nat)
    requires QuestionsAt(data, pos, names, next)
    ensures SkipQuestions(data, pos, |names|) == Success(next)
    decreases names
  {
    if names != [] {
      NameIsSkipped(data, pos, names[0]);
      QuestionsAreSkipped(data, pos + NameSize(names[0]) + 4, names[1..], next);
    }
  }

  lemma {:induction false} SkippedAreQuestions(data: seq<byte>, pos: nat, count: nat) returns (names: seq<Name>)
    requires SkipQuestions(data, pos, count).Success?
    ensures |names| == count && QuestionsAt(data, pos, names, SkipQuestions(data, pos, count).value)
    decreases count
  {
    if count == 0 {
      names := [];
    } else {
      var n := SkippedIsName(data, pos);
      var rest := SkippedAreQuestions(data, pos + NameSize(n) + 4, count - 1);
      names := [n] + rest;
      assert names[1..] == rest;
    }
  }

  /** A response without an error code and with answers: its questions, and then its complete records. */
  ghost predicate IsResponse(data: seq<byte>, names: seq<Name>, pos: nat, records: seq<Record>) {
    && |data| >= 12 && data[3] % 16 == 0 && U16(data[6], data[7]) > 0
    && |names| == U16(data[4], data[5]) && QuestionsAt(data, 12, names, pos)
    && Carries(data, pos, U16(data[6], data[7]), records)
  }

  /** The parser returns results exactly for the responses whose records contribute them, and exactly those. */
  lemma ParseExact(data: seq<byte>, wanted: RecordType, std: Std, results: seq<string>)
    ensures ParseResponse(data, wanted, std) == Success(results) <==>
      results != [] && exists names, pos, records ::
        IsResponse(data, names, pos, records) && AreResults(records, wanted, std, results)
  {
    if ParseResponse(data, wanted, std) == Success(results) {
      var names := SkippedAreQuestions(data, 12, U16(data[4], data[5]));
      var pos := SkipQuestions(data, 12, U16(data[4], data[5])).value;
      var records := RecordsSound(data, pos, U16(data[6], data[7]));
      assert IsResponse(data, names, pos, records);
      PayloadsExact(records, wanted, std, results);
    }
    forall names, pos, records | IsResponse(data, names, pos, records) && AreResults(records, wanted, std, results)
      ensures ParseResponse(data, wanted, std) == Conclude(results)
    {
      ResponseIsParsed(data, names, pos, records, wanted, std);
      PayloadsExact(records, wanted, std, results);
    }
  }

  lemma ResponseIsParsed(
      data: seq<byte>, names: seq<Name>, pos: nat, records: seq<Record>, wanted: RecordType, std: Std)
    requires IsResponse(data, names, pos, records)
    ensures ParseResponse(data, wanted, std) == Conclude(Payloads(Raws(records), wanted, std))
  {
    QuestionsAreSkipped(data, 12, names, pos);
    RecordsComplete(data, pos, U16(data[6], data[7]), records);
  }

  /** A question starts at `next`, behind fewer than `count` others; at least its name does, but it is cut off. */
  ghost predicate QuestionIsCut(data: seq<byte>, pos: nat, count: nat, names: seq<Name>, next: nat, n: Name) {
    && |names| < count && QuestionsAt(data, pos, names, next)
    && NameAt(data, next, n) && next + NameSize(n) + 4 > |data|
  }

  lemma {:induction false} CutQuestionFails(
      data: seq<byte>, pos: nat, count: nat, names: seq<Name>, next: nat, n: Name)
    requires QuestionIsCut(data, pos, count, names, next, n)
    ensures SkipQuestions(data, pos, count) == Failure(TruncatedQuestion)
    decreases count
  {
    hide NameAt, EncodeName, SkipLabels;
    if names == [] {
      NameIsSkipped(data, pos, n);
    } else {
      NameIsSkipped(data, pos, names[0]);
      CutQuestionFails(data, pos + NameSize(names[0]) + 4, count - 1, names[1..], next, n);
    }
  }

  lemma {:induction false} FailedQuestionIsCut(data: seq<byte>, pos: nat, count: nat)
    returns (names: seq<Name>, next: nat, n: Name)
    requires SkipQuestions(data, pos, count) == Failure(TruncatedQuestion)
    ensures QuestionIsCut(data, pos, count, names, next, n)
    decreases count
  {
    hide NameAt, EncodeName, SkipLabels;
    var first := SkippedIsName(data, pos);
    var behind := pos + NameSize(first) + 4;
    if behind > |data| {
      names, next, n := [], pos, first;
    } else {
      names, next, n := FailedQuestionIsCut(data, behind, count - 1);
      assert ([first] + names)[1..] == names;
      names := [first] + names;
    }
  }

  /** Why a response is rejected: the first check that fails, and a name only if none of the others does. */
  lemma ParseErrors(data: seq<byte>, wanted: RecordType, std: Std)
    ensures ParseResponse(data, wanted, std) == Failure(ResponseTooShort) <==> |data| < 12
    ensures ParseResponse(data, wanted, std) == Failure(DnsErrorResponse) <==> |data| >= 12 && data[3] % 16 != 0
    ensures ParseResponse(data, wanted, std) == Failure(NoAnswers) <==>
      |data| >= 12 && data[3] % 16 == 0 && data[6] == 0 && data[7] == 0
    ensures ParseResponse(data, wanted, std) == Failure(TruncatedQuestion) <==>
      && |data| >= 12 && data[3] % 16 == 0 && !(data[6] == 0 && data[7] == 0)
      && exists names, next, n :: QuestionIsCut(data, 12, U16(data[4], data[5]), names, next, n)
    ensures ParseResponse(data, wanted, std) == Failure(NoMatchingRecords) <==>
      exists names, pos, records :: IsResponse(data, names, pos, records) && AreResults(records, wanted, std, [])
  {
    hide QuestionIsCut, AreResults, Payloads;
    if |data| >= 12 {
      var count := U16(data[4], data[5]);
      if SkipQuestions(data, 12, count) == Failure(TruncatedQuestion) {
        var names, next, n := FailedQuestionIsCut(data, 12, count);
      }
      forall names, next, n | QuestionIsCut(data, 12, count, names, next, n)
        ensures SkipQuestions(data, 12, count) == Failure(TruncatedQuestion)
      {
        CutQuestionFails(data, 12, count, names, next, n);
      }
    }
    if ParseResponse(data, wanted, std) == Failure(NoMatchingRecords) {
      var names := SkippedAreQuestions(data, 12, U16(data[4], data[5]));
      var pos := SkipQuestions(data, 12, U16(data[4], data[5])).value;
      var records := RecordsSound(data, pos, U16(data[6], data[7]));
      assert IsResponse(data, names, pos, records);
      PayloadsExact(records, wanted, std, []);
    }
    forall names, pos, records | IsResponse(data, names, pos, records) && AreResults(records, wanted, std, [])
      ensures ParseResponse(data, wanted, std) == Failure(NoMatchingRecords)
    {
      ResponseIsParsed(data, names, pos, records, wanted, std);
      PayloadsExact(records, wanted, std, []);
    }
  }

  // ---------------------------------------------------------------------------
  // Truncation
  // ---------------------------------------------------------------------------

  lemma SkipNameOfCut(data: seq<byte>, cut: nat, pos: nat)
    requires cut <= |data| && SkipName(data[..cut], pos).Success?
    ensures SkipName(data, pos) == SkipName(data[..cut], pos)
  {
    SkipLabelsIsLocal(data[..cut], data[cut..], pos);
    assert data[..cut] + data[cut..] == data;
  }

  lemma ReadRecordOfCut(data: seq<byte>, cut: nat, pos: nat)
    requires cut <= |data| && ReadRecord(data[..cut], pos).Found?
    ensures ReadRecord(data, pos) == ReadRecord(data[..cut], pos)
  {
    SkipNameOfCut(data, cut, pos);
    var p := SkipName(data, pos).value;
    var next := ReadRecord(data[..cut], pos).next;
    assert data[..cut][p + 10..next] == data[p + 10..next];
  }

  lemma {:induction false} RecordsOfCut(data: seq<byte>, cut: nat, pos: nat, count: nat)
    requires cut <= |data|
    requires ReadRecords(data[..cut], pos, count).Success? && ReadRecords(data, pos, count).Success?
    ensures ReadRecords(data[..cut], pos, count).value <= ReadRecords(data, pos, count).value
    decreases count
  {
    if count > 0 && ReadRecord(data[..cut], pos).Found? {
      ReadRecordOfCut(data, cut, pos);
      RecordsOfCut(data, cut, ReadRecord(data, pos).next, count - 1);
    }
  }

  lemma {:induction false} PayloadsOfPrefix(a: seq<RawRecord>, b: seq<RawRecord>, wanted: RecordType, std: Std)
    requires a <= b
    ensures Payloads(a, wanted, std) <= Payloads(b, wanted, std)
  {
    if a != [] {
      PayloadsOfPrefix(a[1..], b[1..], wanted, std);
    }
  }

  lemma {:induction false} QuestionsOfCut(data: seq<byte>, cut: nat, pos: nat, count: nat)
    requires cut <= |data| && SkipQuestions(data[..cut], pos, count).Success?
    ensures SkipQuestions(data, pos, count) == SkipQuestions(data[..cut], pos, count)
    decreases count
  {
    if count > 0 {
      SkipNameOfCut(data, cut, pos);
      QuestionsOfCut(data, cut, SkipName(data, pos).value + 4, count - 1);
    }
  }

  /** Cutting a response short can lose results at the end, but never changes or reorders them. */
  lemma TruncationGivesPrefix(data: seq<byte>, cut: nat, wanted: RecordType, std: Std)
    requires cut <= |data|
    requires ParseResponse(data, wanted, std).Success? && ParseResponse(data[..cut], wanted, std).Success?
    ensures ParseResponse(data[..cut], wanted, std).value <= ParseResponse(data, wanted, std).value
  {
    var short := data[..cut];
    var questionCount, answerCount := U16(data[4], data[5]), U16(data[6], data[7]);
    QuestionsOfCut(data, cut, 12, questionCount);
    var pos := SkipQuestions(short, 12, questionCount).value;
    RecordsOfCut(data, cut, pos, answerCount);
    PayloadsOfPrefix(ReadRecords(short, pos, answerCount).value, ReadRecords(data, pos, answerCount).value, wanted, std);
  }

  // ---------------------------------------------------------------------------
  // Round trip
  // ---------------------------------------------------------------------------

  /** The header of a response: the query's with other flags and another number of answers. */
  function ReplyHeader(header: seq<byte>, flags2: byte, flags3: byte, count: u16): (h: seq<byte>)
    requires |header| == 12
    ensures |h| == 12
  {
    header[..2] + [flags2, flags3] + header[4..6] + U16Bytes(count) + header[8..]
  }

  /** A query turned into a response: the answers stand behind the question. */
  function Reply(query: seq<byte>, flags2: byte, flags3: byte, records: seq<Record>): seq<byte>
    requires |query| >= 12 && |records| < 0x1_0000
  {
    ReplyHeader(query[..12], flags2, flags3, |records|) + query[12..] + EncodeRecords(records)
  }

  lemma ReplyHeaderFields(header: seq<byte>, flags2: byte, flags3: byte, count: u16)
    requires |header| == 12
    ensures
      var h := ReplyHeader(header, flags2, flags3, count);
      && h[..2] == header[..2] && h[2] == flags2 && h[3] == flags3
      && h[4] == header[4] && h[5] == header[5] && U16(h[6], h[7]) == count
  {
    U16RoundTrip(count);
  }

  /** One question is skipped, wherever it stands. */
  lemma QuestionIsSkipped(header: seq<byte>, labels: seq<Label>, fields: seq<byte>, rest: seq<byte>)
    requires |fields| == 4
    ensures
      var name := EncodeLabels(labels) + [0];
      SkipQuestions(header + name + (fields + rest), |header|, 1) == Success(|header| + |name| + 4)
  {
    var p := |header| + LabelsSize(labels) + 1;
    NameBeforeRest(header, labels, fields + rest);
    assert SkipQuestions(header + (EncodeLabels(labels) + [0]) + (fields + rest), p + 4, 0) == Success(p + 4);
  }

  lemma {:induction false} RecordsBehind(before: seq<byte>, records: seq<Record>, trailer: seq<byte>)
    ensures Carries(before + (EncodeRecords(records) + trailer), |before|, |records|, records)
  {
    var data := before + (EncodeRecords(records) + trailer);
    assert data[|before|..] == EncodeRecords(records) + trailer;
    CarriesIsEncoding(data, |before|, |records|, records);
  }

  /** What the parser makes of a reply with these answer records. */
  function ReplyResults(records: seq<Record>, wanted: RecordType, std: Std): Result<seq<string>, ResponseError> {
    if records == [] then Failure(NoAnswers) else Conclude(Payloads(Raws(records), wanted, std))
  }

  /**
   * Round trip: for every accepted domain and every list of answer records,
   * with plain or compressed names, the reply yields what the records stand
   * for, in order, whatever sections follow; and an error exactly if they stand
   * for nothing.
   */
  lemma ReplyRoundTrip(
      domain: seq<byte>, recordType: RecordType, class_: DnsClass, id: QueryId,
      flags2: byte, flags3: byte, records: seq<Record>, trailer: seq<byte>,
      wanted: RecordType, std: Std, results: seq<string>)
    requires QueryFor(domain, recordType, class_, id).Success?
    requires |records| < 0x1_0000
    requires flags3 % 16 == 0 && AreResults(records, wanted, std, results)
    ensures
      var query := QueryFor(domain, recordType, class_, id).value;
      ParseResponse(Reply(query, flags2, flags3, records) + trailer, wanted, std) ==
        if records == [] then Failure(NoAnswers)
        else if results == [] then Failure(NoMatchingRecords)
        else Success(results)
  {
    ReplyIsRead(domain, recordType, class_, id, flags2, flags3, records, trailer, wanted, std);
    PayloadsExact(records, wanted, std, results);
  }

  lemma {:induction false} ReplyIsRead(
      domain: seq<byte>, recordType: RecordType, class_: DnsClass, id: QueryId,
      flags2: byte, flags3: byte, records: seq<Record>, trailer: seq<byte>, wanted: RecordType, std: Std)
    requires QueryFor(domain, recordType, class_, id).Success?
    requires |records| < 0x1_0000
    requires flags3 % 16 == 0
    ensures
      var query := QueryFor(domain, recordType, class_, id).value;
      ParseResponse(Reply(query, flags2, flags3, records) + trailer, wanted, std) == ReplyResults(records, wanted, std)
  {
    var labels := LabelsOf(domain);
    var header := ReplyHeader(QueryHeader(id), flags2, flags3, |records|);
    var query := QueryHeader(id) + Question(labels, recordType, class_);
    NoErrorMeansOk(labels);
    ReplyHeaderFields(QueryHeader(id), flags2, flags3, |records|);
    assert query[..12] == QueryHeader(id) && query[12..] == Question(labels, recordType, class_);
    if records == [] {
      NoAnswersDecide(Reply(query, flags2, flags3, records) + trailer, header, wanted, std);
    } else {
      ReplyIsParsed(header, labels, QuestionFields(recordType, class_), records, trailer, wanted, std);
    }
  }

  lemma NoAnswersDecide(data: seq<byte>, header: seq<byte>, wanted: RecordType, std: Std)
    requires |header| == 12 && header <= data && header[3] % 16 == 0 && U16(header[6], header[7]) == 0
    ensures ParseResponse(data, wanted, std) == Failure(NoAnswers)
  {
  }

  lemma {:induction false} ReplyIsParsed(
      header: seq<byte>, labels: seq<Label>, fields: seq<byte>,
      records: seq<Record>, trailer: seq<byte>, wanted: RecordType, std: Std)
    requires |header| == 12 && header[3] % 16 == 0 && |fields| == 4
    requires U16(header[4], header[5]) == 1 && U16(header[6], header[7]) == |records| >= 1
    ensures ParseResponse(header + (EncodeLabels(labels) + [0] + fields) + EncodeRecords(records) + trailer, wanted, std)
         == Conclude(Payloads(Raws(records), wanted, std))
  {
    var name := EncodeLabels(labels) + [0];
    var before := header + (name + fields);
    var data := before + EncodeRecords(records) + trailer;
    QuestionOfReply(header, labels, fields, EncodeRecords(records), trailer);
    Concatenate3(before, EncodeRecords(records), trailer);
    RecordsBehind(before, records, trailer);
    RecordsComplete(data, |before|, |records|, records);
    HeaderDecides(data, header, |before|, wanted, std);
  }

  lemma QuestionOfReply(header: seq<byte>, labels: seq<Label>, fields: seq<byte>, answers: seq<byte>, trailer: seq<byte>)
    requires |fields| == 4
    ensures
      var before := header + (EncodeLabels(labels) + [0] + fields);
      SkipQuestions(before + answers + trailer, |header|, 1) == Success(|before|)
  {
    var name := EncodeLabels(labels) + [0];
    QuestionIsSkipped(header, labels, fields, answers + trailer);
    Concatenate3(header, name, fields);
    Concatenate3(header + name, fields, answers + trailer);
    Concatenate3(header + (name + fields), answers, trailer);
  }

  /** What a parse depends on, once the question is skipped and the records are read. */
  lemma HeaderDecides(data: seq<byte>, header: seq<byte>, pos: nat, wanted: RecordType, std: Std)
    requires |header| == 12 && header <= data && header[3] % 16 == 0
    requires U16(header[4], header[5]) == 1 && U16(header[6], header[7]) >= 1
    requires SkipQuestions(data, 12, 1) == Success(pos)
    requires ReadRecords(data, pos, U16(header[6], header[7])).Success?
    ensures ParseResponse(data, wanted, std)
         == Conclude(Payloads(ReadRecords(data, pos, U16(header[6], header[7])).value, wanted, std))
  {
  }
}
