/** Building the query packet (RFC 1035 sections 2.3.4, 3.1 and 4.1.1 to 4.1.2). */
module DnsQuery {
  import opened Types
  import opened Bytes
  import opened Text
  import opened DnsNames

  /** The two octets the operating system supplies as transaction id. */
  type QueryId = s: seq<byte> | |s| == 2 witness [0, 0]

  datatype QueryError = EmptyLabel | LabelTooLong(len: nat) | DomainTooLong(size: nat)

  function TrimEndDots(domain: seq<byte>): (t: seq<byte>)
    ensures t <= domain && (t == [] || t[|t| - 1] != DOT)
    ensures forall i :: |t| <= i < |domain| ==> domain[i] == DOT
  {
    if domain != [] && domain[|domain| - 1] == DOT then TrimEndDots(domain[..|domain| - 1]) else domain
  }

  function LabelsOf(domain: seq<byte>): seq<seq<byte>> { Split(TrimEndDots(domain), DOT) }

  function FirstLabelError(labels: seq<seq<byte>>): Option<QueryError> {
    if labels == [] then None
    else if labels[0] == [] then Some(EmptyLabel)
    else if |labels[0]| > 63 then Some(LabelTooLong(|labels[0]|))
    else FirstLabelError(labels[1..])
  }

  function QueryHeader(id: QueryId): (h: seq<byte>)
    ensures |h| == 12
  {
    id + [0x01, 0x00] + [0x00, 0x01, 0x00, 0x00, 0x00, 0x00, 0x00, 0x00]
  }

  function QuestionFields(recordType: RecordType, class_: DnsClass): (f: seq<byte>)
    ensures |f| == 4
  {
    U16Bytes(recordType.ToU16()) + U16Bytes(class_.ToU16())
  }

  function Question(labels: seq<seq<byte>>, recordType: RecordType, class_: DnsClass): seq<byte> {
    EncodeLabels(labels) + [0x00] + QuestionFields(recordType, class_)
  }

  /** What `build_query` makes of a domain. */
  function QueryFor(domain: seq<byte>, recordType: RecordType, class_: DnsClass, id: QueryId)
    : Result<seq<byte>, QueryError>
  {
    var labels := LabelsOf(domain);
    var size := LabelsSize(labels) + 1;
    match FirstLabelError(labels)
    case Some(e) => Failure(e)
    case None =>
      if size > 253 then Failure(DomainTooLong(size))
      else Success(QueryHeader(id) + Question(labels, recordType, class_))
  }

  lemma {:induction false} NoErrorMeansOk(labels: seq<seq<byte>>)
    ensures FirstLabelError(labels).None? <==> forall l <- labels :: 1 <= |l| <= 63
    ensures FirstLabelError(labels).Some? ==> !FirstLabelError(labels).value.DomainTooLong?
  {
    if labels != [] {
      NoErrorMeansOk(labels[1..]);
      assert labels == [labels[0]] + labels[1..];
    }
  }

  lemma {:induction false} EncodeLabelsAppend(labels: seq<seq<byte>>, l: seq<byte>)
    ensures EncodeLabels(labels + [l]) == EncodeLabels(labels) + [LengthOctet(|l|)] + l
    ensures LabelsSize(labels + [l]) == LabelsSize(labels) + 1 + |l|
  {
    if labels == [] {
      assert labels + [l] == [l];
      assert EncodeLabels([l]) == [LengthOctet(|l|)] + l + EncodeLabels([l][1..]);
    } else {
      EncodeLabelsAppend(labels[1..], l);
      assert (labels + [l])[1..] == labels[1..] + [l];
    }
  }

  /** The label loop: the labels behind what is already in the packet, and their size. */
  method PushLabels(start: seq<byte>, labels: seq<seq<byte>>)
    returns (packet: seq<byte>, totalLen: nat, error: Option<QueryError>)
    ensures error == FirstLabelError(labels)
    ensures error.None? ==> packet == start + EncodeLabels(labels) && totalLen == LabelsSize(labels)
  {
    packet := start;
    totalLen := 0;
    ghost var done: seq<seq<byte>> := [];
    for i := 0 to |labels|
      invariant done == labels[..i]
      invariant FirstLabelError(labels) == FirstLabelError(labels[i..])
      invariant totalLen == LabelsSize(done)
      invariant packet == start + EncodeLabels(done)
    {
      var l := labels[i];
      if l == [] {
        return packet, totalLen, Some(EmptyLabel);
      }
      var len := |l|;
      if len > 63 {
        return packet, totalLen, Some(LabelTooLong(len));
      }
      totalLen := totalLen + len + 1;
      packet := packet + [LengthOctet(len)];
      packet := packet + l;
      EncodeLabelsAppend(done, l);
      done := done + [l];
    }
    assert done == labels;
    error := None;
  }

  method BuildQuery(domain: seq<byte>, recordType: RecordType, class_: DnsClass, id: QueryId)
    returns (r: Result<seq<byte>, QueryError>)
    ensures r == QueryFor(domain, recordType, class_, id)
  {
    var packet: seq<byte> := id;
    packet := packet + [0x01, 0x00];
    packet := packet + [0x00, 0x01, 0x00, 0x00, 0x00, 0x00, 0x00, 0x00];

    var labels := LabelsOf(domain);
    var totalLen, error;
    packet, totalLen, error := PushLabels(packet, labels);
    if error.Some? {
      return Failure(error.value);
    }
    totalLen := totalLen + 1;
    if totalLen > 253 {
      return Failure(DomainTooLong(totalLen));
    }
    packet := packet + [0x00];
    packet := packet + U16Bytes(recordType.ToU16());
    packet := packet + U16Bytes(class_.ToU16());
    assert packet == QueryHeader(id) + Question(labels, recordType, class_);
    r := Success(packet);
  }

  /** A domain is accepted exactly if its labels and its encoded name are short enough. */
  lemma QueryAcceptance(domain: seq<byte>, recordType: RecordType, class_: DnsClass, id: QueryId)
    ensures QueryFor(domain, recordType, class_, id).Success? <==>
      (forall l <- LabelsOf(domain) :: 1 <= |l| <= 63) && LabelsSize(LabelsOf(domain)) + 1 <= 253
  {
    NoErrorMeansOk(LabelsOf(domain));
  }

  /** Label `i` is the first one that breaks the length rule. */
  ghost predicate IsFirstBad(labels: seq<seq<byte>>, i: int) {
    0 <= i < |labels| && !(1 <= |labels[i]| <= 63) && forall j | 0 <= j < i :: 1 <= |labels[j]| <= 63
  }

  /** A rejection names the first offending label, and the total size only when every label is fine. */
  lemma {:induction false} LabelErrorIsFirst(labels: seq<seq<byte>>, i: int)
    requires IsFirstBad(labels, i)
    ensures FirstLabelError(labels) == Some(if labels[i] == [] then EmptyLabel else LabelTooLong(|labels[i]|))
  {
    if i > 0 {
      assert forall j | 0 <= j < i - 1 :: labels[1..][j] == labels[j + 1];
      LabelErrorIsFirst(labels[1..], i - 1);
    }
  }

  /** A reader of uncompressed names as section 3.1 describes them. */
  function ReadLabels(w: seq<byte>): Option<seq<Label>> {
    if w == [] then None
    else if w[0] == 0 then Some([])
    else
      var len: nat := w[0];
      if len > 63 || |w| < 1 + len then None
      else
        match ReadLabels(w[1 + len..])
        case None => None
        case Some(rest) => Some([w[1..1 + len]] + rest)
  }

  lemma {:induction false} LabelsReadBack(labels: seq<Label>, after: seq<byte>)
    requires forall l <- labels :: 1 <= |l| <= 63
    ensures ReadLabels(EncodeLabels(labels) + [0] + after) == Some(labels)
  {
    var w := EncodeLabels(labels) + [0] + after;
    if labels != [] {
      var l := labels[0];
      assert w[1..1 + |l|] == l;
      assert w[1 + |l|..] == EncodeLabels(labels[1..]) + [0] + after;
      LabelsReadBack(labels[1..], after);
      assert [l] + labels[1..] == labels;
    }
  }

  /**
   * An accepted query: its size, where its name ends, and that the name in it
   * is the domain that was asked for.
   */
  lemma QueryIsReadable(domain: seq<byte>, recordType: RecordType, class_: DnsClass, id: QueryId)
    requires QueryFor(domain, recordType, class_, id).Success?
    ensures
      var packet := QueryFor(domain, recordType, class_, id).value;
      && |packet| == 12 + LabelsSize(LabelsOf(domain)) + 1 + 4 <= 269
      && SkipName(packet, 12) == Success(|packet| - 4)
      && ReadLabels(packet[12..]) == Some(LabelsOf(domain))
      && Join(LabelsOf(domain), DOT) == TrimEndDots(domain)
      && packet[..12] == id + [0x01, 0x00, 0x00, 0x01, 0x00, 0x00, 0x00, 0x00, 0x00, 0x00]
      && packet[|packet| - 4..] == [0, TypeNumber(recordType), 0, ClassNumber(class_)]
  {
    hide ReadLabels, SkipName, EncodeLabels, QuestionFields, QueryHeader, LabelsSize;
    var packet := QueryFor(domain, recordType, class_, id).value;
    var labels := LabelsOf(domain);
    NoErrorMeansOk(labels);
    assert packet == QueryHeader(id) + Question(labels, recordType, class_);
    QuestionParts(QueryHeader(id), labels, QuestionFields(recordType, class_));
    SplitJoins(TrimEndDots(domain), DOT);
    FieldOctets(packet, id, recordType, class_);
  }

  lemma FieldOctets(packet: seq<byte>, id: QueryId, recordType: RecordType, class_: DnsClass)
    requires |packet| >= 16 && packet[..12] == QueryHeader(id)
    requires packet[|packet| - 4..] == QuestionFields(recordType, class_)
    ensures packet[..12] == id + [0x01, 0x00, 0x00, 0x01, 0x00, 0x00, 0x00, 0x00, 0x00, 0x00]
    ensures packet[|packet| - 4..] == [0, TypeNumber(recordType), 0, ClassNumber(class_)]
  {
  }

  /** TYPE values of RFC 1035 section 3.2.2 and RFC 3596 section 2.1. */
  function TypeNumber(recordType: RecordType): byte {
    match recordType
    case A => 1
    case Aaaa => 28
    case Txt => 16
  }

  /** CLASS values of RFC 1035 section 3.2.4. */
  function ClassNumber(class_: DnsClass): byte {
    match class_
    case In => 1
    case Cs => 2
    case Ch => 3
    case Hs => 4
  }

  /** A domain is rejected as too long only if every label is fine, and with the size it would take. */
  lemma TooLongIsLast(domain: seq<byte>, recordType: RecordType, class_: DnsClass, id: QueryId, size: nat)
    ensures QueryFor(domain, recordType, class_, id) == Failure(DomainTooLong(size)) <==>
      (forall l <- LabelsOf(domain) :: 1 <= |l| <= 63) && size == LabelsSize(LabelsOf(domain)) + 1 > 253
  {
    NoErrorMeansOk(LabelsOf(domain));
  }

  lemma QuestionParts(header: seq<byte>, labels: seq<seq<byte>>, fields: seq<byte>)
    requires |header| == 12 && |fields| == 4 && forall l <- labels :: 1 <= |l| <= 63
    ensures
      var packet := header + (EncodeLabels(labels) + [0] + fields);
      && |packet| == 12 + LabelsSize(labels) + 1 + 4
      && SkipName(packet, 12) == Success(|packet| - 4)
      && ReadLabels(packet[12..]) == Some(labels)
      && packet[..12] == header && packet[|packet| - 4..] == fields
  {
    LabelsReadBack(labels, fields);
    NameBeforeRest(header, labels, fields);
    Concatenate3(header, EncodeLabels(labels) + [0], fields);
  }

  lemma NameBeforeRest(header: seq<byte>, labels: seq<Label>, rest: seq<byte>)
    ensures SkipName(header + (EncodeLabels(labels) + [0]) + rest, |header|) == Success(|header| + LabelsSize(labels) + 1)
  {
    var n := Name(labels, Root);
    assert EncodeName(n) == EncodeLabels(labels) + [0];
    EncodedNameIsSkipped(header, n, rest);
  }

  /** Dots at the end make no difference. */
  lemma TrailingDotIsIgnored(domain: seq<byte>, recordType: RecordType, class_: DnsClass, id: QueryId)
    ensures QueryFor(domain + [DOT], recordType, class_, id) == QueryFor(domain, recordType, class_, id)
  {
    assert (domain + [DOT])[..|domain|] == domain;
  }
}
