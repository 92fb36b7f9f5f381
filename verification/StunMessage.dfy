/** STUN messages: the wire format of RFC 5389 sections 6, 15, 15.1 and 15.2, and the codec for it. */
module StunMessage {
  import opened Types
  import opened Bytes

  const MAGIC_COOKIE: u32 := 0x2112A442

  const COOKIE_OCTETS: Octets4 := [0x21, 0x12, 0xA4, 0x42]

  type TransactionId = s: seq<byte> | |s| == 12 witness [0, 0, 0, 0, 0, 0, 0, 0, 0, 0, 0, 0]

  datatype Method = Request | Response | ErrorResponse {
    function ToU16(): u16 {
      match this
      case Request => 0x0001
      case Response => 0x0101
      case ErrorResponse => 0x0111
    }

    static function FromU16(v: u16): (r: Option<Method>)
      ensures forall m: Method :: r == Some(m) <==> m.ToU16() == v
    {
      if v == 0x0001 then Some(Request)
      else if v == 0x0101 then Some(Response)
      else if v == 0x0111 then Some(ErrorResponse)
      else None
    }
  }

  datatype AttributeType = MappedAddress | XorMappedAddress | Unknown(code: u16) {
    /** `Unknown` is only ever built for codes that have no constructor of their own. */
    predicate Canonical() {
      Unknown? ==> code != 0x0001 && code != 0x0020
    }

    function ToU16(): u16 {
      match this
      case MappedAddress => 0x0001
      case XorMappedAddress => 0x0020
      case Unknown(c) => c
    }

    static function FromU16(v: u16): (r: AttributeType)
      ensures forall t: AttributeType :: r == t <==> t.Canonical() && t.ToU16() == v
    {
      if v == 0x0001 then MappedAddress
      else if v == 0x0020 then XorMappedAddress
      else Unknown(v)
    }
  }

  datatype Attribute = Attribute(attrType: AttributeType, value: seq<byte>)

  datatype Message = Message(msgType: Method, transactionId: TransactionId, attributes: seq<Attribute>)

  datatype DecodeError =
    | MessageTooShort
    | UnknownMessageType
    | InvalidMagicCookie
    | InvalidMessageLength
    | MessageLengthOverflow
    | TruncatedMessage
    | AttributeLengthOverflow
    | TruncatedAttributeHeader
    | AttributeExceedsMessage
    | InvalidAttributePadding

  // ---------------------------------------------------------------------------
  // The wire format, as a relation between messages and octets
  // ---------------------------------------------------------------------------

  function Padding(len: nat): (p: nat)
    ensures p < 4 && (len + p) % 4 == 0
  {
    (4 - len % 4) % 4
  }

  /** Header, value and padding of an attribute. */
  function WireSize(a: Attribute): (n: nat)
    ensures n % 4 == 0 && 4 + |a.value| <= n < 8 + |a.value|
  {
    4 + |a.value| + Padding(|a.value|)
  }

  /** An aligned attribute whose value fits into an aligned rest fits with its padding. */
  lemma PaddingFits(size: nat, rest: nat)
    requires size % 4 == 0 && rest % 4 == 0 && size < rest + 4
    ensures size <= rest && (rest - size) % 4 == 0
  {
  }

  function BodySize(attributes: seq<Attribute>): nat {
    if attributes == [] then 0 else WireSize(attributes[0]) + BodySize(attributes[1..])
  }

  /** `w` starts with attribute `a`; nothing is said about the padding octets. */
  predicate AttributeOnWire(a: Attribute, w: seq<byte>) {
    && a.attrType.Canonical()
    && |a.value| < 0x1_0000
    && WireSize(a) <= |w|
    && w[..4] == U16Bytes(a.attrType.ToU16()) + U16Bytes(|a.value|)
    && w[4..4 + |a.value|] == a.value
  }

  /** `w` is exactly the attributes, one after the other. */
  predicate AttributesOnWire(attributes: seq<Attribute>, w: seq<byte>) {
    if attributes == [] then w == []
    else
      && AttributeOnWire(attributes[0], w)
      && AttributesOnWire(attributes[1..], w[WireSize(attributes[0])..])
  }

  function Header(msgType: Method, length: u16, transactionId: TransactionId): (h: seq<byte>)
    ensures |h| == 20
  {
    U16Bytes(msgType.ToU16()) + U16Bytes(length) + COOKIE_OCTETS + transactionId
  }

  /** The message types of RFC 5389, as octets: binding request, success response and error response. */
  function TypeOctets(msgType: Method): seq<byte> {
    match msgType
    case Request => [0x00, 0x01]
    case Response => [0x01, 0x01]
    case ErrorResponse => [0x01, 0x11]
  }

  /** `data` starts with the message `m`; octets behind the declared length are ignored. */
  predicate OnWire(m: Message, data: seq<byte>) {
    var size := BodySize(m.attributes);
    && size < 0x1_0000
    && 20 + size <= |data|
    && data[..20] == Header(m.msgType, size, m.transactionId)
    && AttributesOnWire(m.attributes, data[20..20 + size])
  }

  /** A sender of attributes: the padding is zero. */
  function EncodeAttributes(attributes: seq<Attribute>): (w: seq<byte>)
    requires forall a <- attributes :: |a.value| < 0x1_0000
    ensures |w| == BodySize(attributes)
  {
    if attributes == [] then []
    else
      var a := attributes[0];
      U16Bytes(a.attrType.ToU16()) + U16Bytes(|a.value|) + a.value
      + seq(Padding(|a.value|), _ => 0) + EncodeAttributes(attributes[1..])
  }

  /** A message every sender can produce. */
  predicate Sendable(m: Message) {
    && BodySize(m.attributes) < 0x1_0000
    && (forall a <- m.attributes :: |a.value| < 0x1_0000 && a.attrType.Canonical())
  }

  function EncodeMessage(m: Message): seq<byte>
    requires Sendable(m)
  {
    Header(m.msgType, BodySize(m.attributes), m.transactionId) + EncodeAttributes(m.attributes)
  }

  // ---------------------------------------------------------------------------
  // What the decoder computes
  // ---------------------------------------------------------------------------

  /** The attribute at the start of `body`, if its declared length stays inside. */
  function FirstAttribute(body: seq<byte>): (r: Option<Attribute>)
    requires |body| % 4 == 0 && body != []
    ensures r.Some? ==> WireSize(r.value) <= |body| && (|body| - WireSize(r.value)) % 4 == 0
  {
    var len := U16(body[2], body[3]);
    if 4 + len > |body| then None
    else
      var a := Attribute(AttributeType.FromU16(U16(body[0], body[1])), body[4..4 + len]);
      PaddingFits(WireSize(a), |body|);
      Some(a)
  }

  predicate IsFirstAttribute(body: seq<byte>, a: Attribute)
    requires |body| % 4 == 0 && body != []
  {
    FirstAttribute(body) == Some(a)
  }

  function ParseAttributes(body: seq<byte>): Result<seq<Attribute>, DecodeError>
    requires |body| % 4 == 0
  {
    if body == [] then Success([])
    else
      match FirstAttribute(body)
      case None => Failure(AttributeExceedsMessage)
      case Some(a) => Behind([a], ParseAttributes(body[WireSize(a)..]))
  }

  /** What is still to be parsed, put behind the attributes already found. */
  function Behind(found: seq<Attribute>, rest: Result<seq<Attribute>, DecodeError>)
    : Result<seq<Attribute>, DecodeError>
  {
    match rest
    case Failure(e) => Failure(e)
    case Success(attributes) => Success(found + attributes)
  }

  function Parse(data: seq<byte>): Result<Message, DecodeError> {
    if |data| < 20 then Failure(MessageTooShort)
    else if Method.FromU16(U16(data[0], data[1])).None? then Failure(UnknownMessageType)
    else if U32(data[4..8]) != MAGIC_COOKIE then Failure(InvalidMagicCookie)
    else
      var length := U16(data[2], data[3]);
      if length % 4 != 0 then Failure(InvalidMessageLength)
      else if |data| < 20 + length then Failure(TruncatedMessage)
      else
        match ParseAttributes(data[20..20 + length])
        case Failure(e) => Failure(e)
        case Success(attributes) =>
          Success(Message(Method.FromU16(U16(data[0], data[1])).value, data[8..20], attributes))
  }

  lemma BehindNothing(rest: Result<seq<Attribute>, DecodeError>)
    ensures Behind([], rest) == rest
  {
    if rest.Success? {
      assert [] + rest.value == rest.value;
    }
  }

  lemma FirstAttributeAt(data: seq<byte>, offset: nat, end: nat)
    requires offset < end <= |data| && (end - offset) % 4 == 0
    ensures
      var len := U16(data[offset + 2], data[offset + 3]);
      if offset + 4 + len > end then
        FirstAttribute(data[offset..end]) == None
      else
        FirstAttribute(data[offset..end])
        == Some(Attribute(AttributeType.FromU16(U16(data[offset], data[offset + 1])), data[offset + 4..offset + 4 + len]))
  {
    var body := data[offset..end];
    var len := U16(data[offset + 2], data[offset + 3]);
    assert body[0] == data[offset] && body[1] == data[offset + 1];
    assert body[2] == data[offset + 2] && body[3] == data[offset + 3];
    if offset + 4 + len <= end {
      SliceOfSlice(data, offset, end, 4, 4 + len);
    }
  }

  lemma BehindAppend(found: seq<Attribute>, a: Attribute, tail: Result<seq<Attribute>, DecodeError>)
    ensures Behind(found, Behind([a], tail)) == Behind(found + [a], tail)
  {
    if tail.Success? {
      assert found + ([a] + tail.value) == found + [a] + tail.value;
    }
  }

  lemma {:induction false} ParseStep(found: seq<Attribute>, rest: seq<byte>, a: Attribute)
    requires |rest| % 4 == 0 && rest != [] && FirstAttribute(rest) == Some(a)
    ensures Behind(found, ParseAttributes(rest)) == Behind(found + [a], ParseAttributes(rest[WireSize(a)..]))
  {
    var tail := ParseAttributes(rest[WireSize(a)..]);
    assert ParseAttributes(rest) == Behind([a], tail);
    BehindAppend(found, a, tail);
  }

  // ---------------------------------------------------------------------------
  // The codec
  // ---------------------------------------------------------------------------

  /** The 20-octet header only: the declared length is 0 whatever attributes `m` has. */
  method Encode(m: Message) returns (buf: seq<byte>)
    ensures buf == Header(m.msgType, 0, m.transactionId)
    ensures buf == TypeOctets(m.msgType) + [0x00, 0x00] + [0x21, 0x12, 0xA4, 0x42] + m.transactionId
  {
    buf := [];
    buf := buf + U16Bytes(m.msgType.ToU16());
    buf := buf + U16Bytes(0);
    buf := buf + U32Bytes(MAGIC_COOKIE);
    buf := buf + m.transactionId;
  }

  /**
   * One round of the attribute loop: the attribute at `offset` and where the
   * next one starts. `offset` and `end` are a multiple of four apart, which is
   * why only one of the errors can occur.
   */
  method DecodeAttribute(data: seq<byte>, offset: nat, end: nat, usizeMax: nat)
    returns (r: Result<(Attribute, nat), DecodeError>)
    requires usizeMax >= 0xFFFF_FFFF
    requires offset < end <= |data| && end < 0x2_0000 && (end - offset) % 4 == 0
    ensures r.Failure? ==> r.error == AttributeExceedsMessage && FirstAttribute(data[offset..end]) == None
    ensures r.Success? ==> IsFirstAttribute(data[offset..end], r.value.0) && r.value.1 == offset + WireSize(r.value.0)
  {
    FirstAttributeAt(data, offset, end);
    var headerEnd := CheckedAdd(offset, 4, usizeMax);
    if headerEnd.None? {
      return Failure(AttributeLengthOverflow);
    }
    if headerEnd.value > end {
      return Failure(TruncatedAttributeHeader);
    }
    var attrTypeRaw := U16(data[offset], data[offset + 1]);
    var attrLen := U16(data[offset + 2], data[offset + 3]);
    var valueEnd := CheckedAdd(offset + 4, attrLen, usizeMax);
    if valueEnd.None? {
      return Failure(AttributeLengthOverflow);
    }
    if valueEnd.value > end {
      return Failure(AttributeExceedsMessage);
    }
    var attribute := Attribute(AttributeType.FromU16(attrTypeRaw), data[offset + 4..valueEnd.value]);
    var next := CheckedAdd(valueEnd.value, Padding(attrLen), usizeMax);
    if next.None? {
      return Failure(AttributeLengthOverflow);
    }
    if next.value > end {
      return Failure(InvalidAttributePadding);
    }
    r := Success((attribute, next.value));
  }

  /** The attribute loop of the decoder. */
  method DecodeAttributes(data: seq<byte>, end: nat, usizeMax: nat) returns (r: Result<seq<Attribute>, DecodeError>)
    requires usizeMax >= 0xFFFF_FFFF
    requires 20 <= end <= |data| && end < 0x2_0000 && (end - 20) % 4 == 0
    ensures r == ParseAttributes(data[20..end])
  {
    hide ParseAttributes, FirstAttribute, WireSize, Padding, Behind;
    var attributes: seq<Attribute> := [];
    var offset := 20;
    ghost var rest := data[20..end];
    ghost var all := ParseAttributes(rest);
    BehindNothing(all);
    while offset < end
      invariant 20 <= offset <= end
      invariant rest == data[offset..end] && |rest| % 4 == 0
      invariant Behind(attributes, ParseAttributes(rest)) == all
      decreases end - offset
    {
      var step := DecodeAttribute(data, offset, end, usizeMax);
      if step.Failure? {
        ParseStops(attributes, rest);
        return Failure(step.error);
      }
      var attribute := step.value.0;
      ParseStep(attributes, rest, attribute);
      DropOfSlice(data, offset, end, WireSize(attribute));
      rest := rest[WireSize(attribute)..];
      attributes := attributes + [attribute];
      offset := step.value.1;
    }
    NothingLeft(attributes);
    r := Success(attributes);
  }

  lemma ParseStops(found: seq<Attribute>, rest: seq<byte>)
    requires |rest| % 4 == 0 && rest != [] && FirstAttribute(rest) == None
    ensures Behind(found, ParseAttributes(rest)) == Failure(AttributeExceedsMessage)
  {
  }

  lemma NothingLeft(found: seq<Attribute>)
    ensures Behind(found, ParseAttributes([])) == Success(found)
  {
    assert found + [] == found;
  }

  /**
   * The decoder, on machines whose words have at least 32 bits.
   */
  method Decode(data: seq<byte>, usizeMax: nat) returns (r: Result<Message, DecodeError>)
    requires usizeMax >= 0xFFFF_FFFF
    ensures r == Parse(data)
  {
    if |data| < 20 {
      return Failure(MessageTooShort);
    }
    var msgType := Method.FromU16(U16(data[0], data[1]));
    if msgType.None? {
      return Failure(UnknownMessageType);
    }
    var length := U16(data[2], data[3]);
    if U32(data[4..8]) != MAGIC_COOKIE {
      return Failure(InvalidMagicCookie);
    }
    var transactionId := data[8..20];
    if length % 4 != 0 {
      return Failure(InvalidMessageLength);
    }
    var checkedEnd := CheckedAdd(20, length, usizeMax);
    if checkedEnd.None? {
      return Failure(MessageLengthOverflow);
    }
    var end := checkedEnd.value;
    if |data| < end {
      return Failure(TruncatedMessage);
    }

    var attributes := DecodeAttributes(data, end, usizeMax);
    if attributes.Failure? {
      return Failure(attributes.error);
    }
    r := Success(Message(msgType.value, transactionId, attributes.value));
  }

  // ---------------------------------------------------------------------------
  // The decoder against the wire format
  // ---------------------------------------------------------------------------

  lemma AlignedSum(a: nat, b: nat)
    requires a % 4 == 0 && b % 4 == 0
    ensures (a + b) % 4 == 0
  {
  }

  lemma {:induction false} BodySizeIsAligned(attributes: seq<Attribute>)
    ensures BodySize(attributes) % 4 == 0
  {
    if attributes != [] {
      BodySizeIsAligned(attributes[1..]);
      AlignedSum(WireSize(attributes[0]), BodySize(attributes[1..]));
    }
  }

  lemma {:induction false} OnWireSize(attributes: seq<Attribute>, w: seq<byte>)
    requires AttributesOnWire(attributes, w)
    ensures |w| == BodySize(attributes)
  {
    if attributes != [] {
      OnWireSize(attributes[1..], w[WireSize(attributes[0])..]);
    }
  }

  /** Soundness: what is parsed is what the octets say. */
  lemma {:induction false} ParseAttributesSound(body: seq<byte>)
    requires |body| % 4 == 0
    ensures ParseAttributes(body).Success? ==> AttributesOnWire(ParseAttributes(body).value, body)
    ensures ParseAttributes(body).Failure? ==> ParseAttributes(body).error == AttributeExceedsMessage
  {
    if body != [] && FirstAttribute(body).Some? {
      var a := FirstAttribute(body).value;
      FirstAttributeOnWire(body);
      var rest := ParseAttributes(body[WireSize(a)..]);
      ParseAttributesSound(body[WireSize(a)..]);
      if rest.Success? {
        assert ([a] + rest.value)[1..] == rest.value;
      }
    }
  }

  lemma FirstAttributeOnWire(body: seq<byte>)
    requires |body| % 4 == 0 && body != [] && FirstAttribute(body).Some?
    ensures AttributeOnWire(FirstAttribute(body).value, body)
  {
    var a := FirstAttribute(body).value;
    U16Field(a.attrType.ToU16(), body[0], body[1]);
    U16Field(|a.value|, body[2], body[3]);
    assert body[..4] == [body[0], body[1]] + [body[2], body[3]];
  }

  /** Completeness: octets that carry attributes are parsed to them. */
  lemma {:induction false} ParseAttributesComplete(attributes: seq<Attribute>, body: seq<byte>)
    requires AttributesOnWire(attributes, body)
    ensures |body| % 4 == 0
    ensures ParseAttributes(body) == Success(attributes)
  {
    OnWireSize(attributes, body);
    BodySizeIsAligned(attributes);
    if attributes != [] {
      var a := attributes[0];
      assert body[0] == body[..4][0] && body[1] == body[..4][1] && body[2] == body[..4][2] && body[3] == body[..4][3];
      U16RoundTrip(a.attrType.ToU16());
      U16RoundTrip(|a.value|);
      assert AttributeType.FromU16(a.attrType.ToU16()) == a.attrType;
      ParseAttributesComplete(attributes[1..], body[WireSize(a)..]);
      assert [a] + attributes[1..] == attributes;
    }
  }

  lemma CookieField(b: Octets4)
    ensures b == COOKIE_OCTETS <==> U32(b) == MAGIC_COOKIE
  {
    U32RoundTrip(b);
    U32RoundTrip(COOKIE_OCTETS);
    assert U32(COOKIE_OCTETS) == MAGIC_COOKIE;
  }

  lemma HeaderSlices(msgType: Method, length: u16, transactionId: TransactionId, data: seq<byte>)
    requires |data| >= 20
    ensures data[..20] == Header(msgType, length, transactionId) <==>
      && [data[0], data[1]] == U16Bytes(msgType.ToU16())
      && [data[2], data[3]] == U16Bytes(length)
      && data[4..8] == COOKIE_OCTETS
      && data[8..20] == transactionId
  {
    var w := Header(msgType, length, transactionId);
    assert data[..20] == [data[0], data[1]] + [data[2], data[3]] + data[4..8] + data[8..20];
    assert w[..2] == U16Bytes(msgType.ToU16()) && w[2..4] == U16Bytes(length);
    assert w[4..8] == COOKIE_OCTETS && w[8..] == transactionId;
    if data[..20] == w {
      assert data[4..8] == w[4..8] && data[8..20] == w[8..];
      assert [data[0], data[1]] == w[..2] && [data[2], data[3]] == w[2..4];
    }
  }

  lemma {:induction false} HeaderFields(msgType: Method, length: u16, transactionId: TransactionId, data: seq<byte>)
    requires |data| >= 20
    ensures data[..20] == Header(msgType, length, transactionId) <==>
      && Method.FromU16(U16(data[0], data[1])) == Some(msgType)
      && U16(data[2], data[3]) == length
      && U32(data[4..8]) == MAGIC_COOKIE
      && data[8..20] == transactionId
  {
    HeaderSlices(msgType, length, transactionId, data);
    U16Field(msgType.ToU16(), data[0], data[1]);
    U16Field(length, data[2], data[3]);
    CookieField(data[4..8]);
  }

  lemma {:induction false} WireIsParsed(data: seq<byte>, m: Message)
    requires OnWire(m, data)
    ensures Parse(data) == Success(m)
  {
    hide Header, AttributesOnWire, ParseAttributes, FirstAttribute;
    var size := BodySize(m.attributes);
    BodySizeIsAligned(m.attributes);
    HeaderFields(m.msgType, size, m.transactionId, data);
    ParseAttributesComplete(m.attributes, data[20..20 + size]);
  }

  lemma ParsedIsOnWire(data: seq<byte>, m: Message)
    requires Parse(data) == Success(m)
    ensures OnWire(m, data)
  {
    var length := U16(data[2], data[3]);
    var body := data[20..20 + length];
    ParseAttributesSound(body);
    OnWireSize(m.attributes, body);
    HeaderFields(m.msgType, length, m.transactionId, data);
  }

  /**
   * The decoder succeeds on exactly the octets that carry a message, and with
   * exactly that message.
   */
  lemma {:induction false} DecodeExact(data: seq<byte>, m: Message)
    ensures OnWire(m, data) ==> Parse(data) == Success(m)
    ensures Parse(data) == Success(m) ==> OnWire(m, data)
  {
    if OnWire(m, data) {
      WireIsParsed(data, m);
    }
    if Parse(data) == Success(m) {
      ParsedIsOnWire(data, m);
    }
  }

  /** The header of a message, apart from its length. */
  predicate HasHeader(data: seq<byte>, msgType: Method) {
    |data| >= 20 && [data[0], data[1]] == TypeOctets(msgType) && data[4..8] == [0x21, 0x12, 0xA4, 0x42]
  }

  lemma HeaderOctets(data: seq<byte>, msgType: Method)
    requires |data| >= 20
    ensures [data[0], data[1]] == TypeOctets(msgType) <==> Method.FromU16(U16(data[0], data[1])) == Some(msgType)
    ensures data[4..8] == [0x21, 0x12, 0xA4, 0x42] <==> U32(data[4..8]) == MAGIC_COOKIE
  {
    CookieField(data[4..8]);
  }

  /** The octets that stand for an attribute's type. */
  predicate HasCode(attrType: AttributeType, high: byte, low: byte) {
    match attrType
    case MappedAddress => high == 0x00 && low == 0x01
    case XorMappedAddress => high == 0x00 && low == 0x20
    case Unknown(code) => U16(high, low) == code && !(high == 0x00 && (low == 0x01 || low == 0x20))
  }

  /** Type, length and value of the attribute stand at `p`. */
  predicate AttributeAt(a: Attribute, data: seq<byte>, p: nat) {
    && p + 4 + |a.value| <= |data|
    && HasCode(a.attrType, data[p], data[p + 1])
    && U16(data[p + 2], data[p + 3]) == |a.value|
    && data[p + 4..p + 4 + |a.value|] == a.value
  }

  lemma {:induction false} AttributeStands(attributes: seq<Attribute>, w: seq<byte>, i: nat)
    requires AttributesOnWire(attributes, w) && i < |attributes|
    ensures BodySize(attributes[..i]) <= |w| && AttributeOnWire(attributes[i], w[BodySize(attributes[..i])..])
  {
    if i == 0 {
      assert attributes[..0] == [] && w[0..] == w;
    } else {
      var n := WireSize(attributes[0]);
      AttributeStands(attributes[1..], w[n..], i - 1);
      assert attributes[..i][1..] == attributes[1..][..i - 1];
      var rest := BodySize(attributes[1..][..i - 1]);
      assert BodySize(attributes[..i]) == n + rest;
      assert w[n..][rest..] == w[n + rest..];
    }
  }

  lemma AttributeOctets(a: Attribute, data: seq<byte>, p: nat, end: nat)
    requires p <= end <= |data| && AttributeOnWire(a, data[p..end])
    ensures AttributeAt(a, data, p)
  {
    var w := data[p..end];
    var fields := U16Bytes(a.attrType.ToU16()) + U16Bytes(|a.value|);
    assert w[..4] == fields;
    assert data[p] == w[..4][0] && data[p + 1] == w[..4][1] && data[p + 2] == w[..4][2] && data[p + 3] == w[..4][3];
    U16RoundTrip(a.attrType.ToU16());
    U16RoundTrip(|a.value|);
    SliceOfSlice(data, p, end, 4, 4 + |a.value|);
  }

  /** A decoded message, octet by octet: its type, cookie and id, and each attribute behind those before it. */
  lemma MessageOctets(data: seq<byte>, m: Message, i: nat)
    ensures Parse(data) == Success(m) ==>
      && HasHeader(data, m.msgType) && data[8..20] == m.transactionId
      && (i < |m.attributes| ==> AttributeAt(m.attributes[i], data, 20 + BodySize(m.attributes[..i])))
  {
    hide Parse, Header, AttributesOnWire, AttributeOnWire, AttributeAt, BodySize;
    if Parse(data) == Success(m) {
      DecodeExact(data, m);
      WireOctets(data, m, i);
    }
  }

  lemma WireOctets(data: seq<byte>, m: Message, i: nat)
    requires OnWire(m, data)
    ensures HasHeader(data, m.msgType) && data[8..20] == m.transactionId
    ensures i < |m.attributes| ==> AttributeAt(m.attributes[i], data, 20 + BodySize(m.attributes[..i]))
  {
    hide Parse, Header, AttributesOnWire, AttributeOnWire, AttributeAt, BodySize;
    HeaderOctets(data, m.msgType);
    var end := 20 + BodySize(m.attributes);
    HeaderFields(m.msgType, BodySize(m.attributes), m.transactionId, data);
    if i < |m.attributes| {
      var p := BodySize(m.attributes[..i]);
      AttributeStands(m.attributes, data[20..end], i);
      DropOfSlice(data, 20, end, p);
      AttributeOctets(m.attributes[i], data, 20 + p, end);
    }
  }

  /**
   * Every error, exactly: the first check that fails. With the header and the
   * declared length checked, an attribute that runs past the end is the only
   * thing left to go wrong.
   */
  lemma DecodeErrors(data: seq<byte>)
    requires Parse(data).Failure?
    ensures Parse(data).error ==
      if |data| < 20 then MessageTooShort
      else if [data[0], data[1]] !in {[0x00, 0x01], [0x01, 0x01], [0x01, 0x11]} then UnknownMessageType
      else if data[4..8] != [0x21, 0x12, 0xA4, 0x42] then InvalidMagicCookie
      else if data[3] % 4 != 0 then InvalidMessageLength
      else if |data| < 20 + U16(data[2], data[3]) then TruncatedMessage
      else AttributeExceedsMessage
  {
    if |data| >= 20 {
      HeaderOctets(data, Request);
      HeaderOctets(data, Response);
      HeaderOctets(data, ErrorResponse);
      var length := U16(data[2], data[3]);
      LowDigits(data[2], data[3]);
      if length % 4 == 0 && |data| >= 20 + length {
        ParseAttributesSound(data[20..20 + length]);
      }
    }
  }

  lemma LowDigits(high: byte, low: byte)
    ensures U16(high, low) % 4 == low % 4
  {
  }

  /** Octet `p` of a body that carries `attributes` is padding. */
  predicate IsPadding(attributes: seq<Attribute>, p: nat) {
    attributes != [] &&
    var a := attributes[0];
    if p < WireSize(a) then 4 + |a.value| <= p else IsPadding(attributes[1..], p - WireSize(a))
  }

  lemma {:induction false} PaddingIsFree(attributes: seq<Attribute>, w: seq<byte>, v: seq<byte>)
    requires AttributesOnWire(attributes, w) && |v| == |w|
    requires forall p :: 0 <= p < |w| && !IsPadding(attributes, p) ==> v[p] == w[p]
    ensures AttributesOnWire(attributes, v)
  {
    if attributes != [] {
      var a := attributes[0];
      var n := WireSize(a);
      forall i | 0 <= i < 4 + |a.value| ensures v[i] == w[i] {
        assert !IsPadding(attributes, i);
      }
      assert v[..4] == w[..4] && v[4..4 + |a.value|] == w[4..4 + |a.value|];
      forall p | 0 <= p < |w[n..]| && !IsPadding(attributes[1..], p) ensures v[n..][p] == w[n..][p] {
        assert !IsPadding(attributes, p + n);
      }
      PaddingIsFree(attributes[1..], w[n..], v[n..]);
    }
  }

  /** Neither padding octets nor octets behind the message change what is decoded. */
  lemma {:induction false} DecodeIgnoresPaddingAndTrailer(m: Message, data: seq<byte>, other: seq<byte>)
    requires Parse(data) == Success(m)
    requires |other| >= 20 + BodySize(m.attributes)
    requires forall p | 0 <= p < 20 + BodySize(m.attributes) && p < |data| ::
      (p >= 20 && IsPadding(m.attributes, p - 20)) || other[p] == data[p]
    ensures Parse(other) == Success(m)
  {
    DecodeExact(data, m);
    DecodeExact(other, m);
    var end := 20 + BodySize(m.attributes);
    assert other[..20] == data[..20];
    var w, v := data[20..end], other[20..end];
    forall p | 0 <= p < |w| && !IsPadding(m.attributes, p) ensures v[p] == w[p] {
      assert w[p] == data[p + 20] && v[p] == other[p + 20];
    }
    PaddingIsFree(m.attributes, w, v);
  }

  lemma {:induction false} EncodedAttributesOnWire(attributes: seq<Attribute>)
    requires forall a <- attributes :: |a.value| < 0x1_0000 && a.attrType.Canonical()
    ensures AttributesOnWire(attributes, EncodeAttributes(attributes))
  {
    if attributes != [] {
      var a := attributes[0];
      var w := EncodeAttributes(attributes);
      EncodedAttributesOnWire(attributes[1..]);
      assert w[..4] == U16Bytes(a.attrType.ToU16()) + U16Bytes(|a.value|);
      assert w[4..4 + |a.value|] == a.value;
      assert w[WireSize(a)..] == EncodeAttributes(attributes[1..]);
    }
  }

  /** Round trip: type, transaction id and the attributes in order, whatever follows the message. */
  lemma EncodeDecodeRoundTrip(m: Message, trailer: seq<byte>)
    requires Sendable(m)
    ensures Parse(EncodeMessage(m) + trailer) == Success(m)
  {
    var data := EncodeMessage(m) + trailer;
    var size := BodySize(m.attributes);
    EncodedAttributesOnWire(m.attributes);
    assert data[..20] == Header(m.msgType, size, m.transactionId);
    assert data[20..20 + size] == EncodeAttributes(m.attributes);
    DecodeExact(data, m);
  }

  /** The code's own `encode` loses the attributes, so it round-trips exactly when there are none. */
  lemma OwnEncodingRoundTrip(m: Message)
    ensures Parse(Header(m.msgType, 0, m.transactionId)) == Success(m.(attributes := []))
    ensures Parse(Header(m.msgType, 0, m.transactionId)) == Success(m) <==> m.attributes == []
  {
    var bare := m.(attributes := []);
    EncodeDecodeRoundTrip(bare, []);
    assert EncodeMessage(bare) + [] == Header(m.msgType, 0, m.transactionId);
  }
}
