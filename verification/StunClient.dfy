/** Reading the public address out of a STUN response (RFC 5389 sections 15.1 and 15.2). */
module StunClient {
  import opened Types
  import opened Bytes
  import opened StunMessage

  // ---------------------------------------------------------------------------
  // Address attributes
  // ---------------------------------------------------------------------------

  function Octets(ip: IpAddr): (o: seq<byte>)
    ensures |o| == 4 || |o| == 16
  {
    match ip
    case V4(o) => o
    case V6(o) => o
  }

  function Family(ip: IpAddr): byte { if ip.V4? then 0x01 else 0x02 }

  function XorKey(transactionId: TransactionId): (k: seq<byte>)
    ensures |k| == 16
  {
    COOKIE_OCTETS + transactionId
  }

  /** A MAPPED-ADDRESS value that carries `ip`: family in octet 1, address from octet 4. */
  predicate CarriesPlain(value: seq<byte>, ip: IpAddr) {
    match ip
    case V4(o) => |value| >= 8 && value[1] == 0x01 && forall i | 0 <= i < 4 :: o[i] == value[4 + i]
    case V6(o) => |value| >= 20 && value[1] == 0x02 && forall i | 0 <= i < 16 :: o[i] == value[4 + i]
  }

  /**
   * An XOR-MAPPED-ADDRESS value that carries `ip`: the same, but the first four
   * octets of the address are masked with the magic cookie, and the other
   * twelve of an IPv6 address with the transaction id.
   */
  predicate CarriesXored(value: seq<byte>, ip: IpAddr, transactionId: TransactionId) {
    match ip
    case V4(o) =>
      && |value| >= 8 && value[1] == 0x01
      && forall i | 0 <= i < 4 :: o[i] == XorByte(value[4 + i], [0x21, 0x12, 0xA4, 0x42][i])
    case V6(o) =>
      && |value| >= 20 && value[1] == 0x02
      && (forall i | 0 <= i < 4 :: o[i] == XorByte(value[4 + i], [0x21, 0x12, 0xA4, 0x42][i]))
      && (forall i | 4 <= i < 16 :: o[i] == XorByte(value[4 + i], transactionId[i - 4]))
  }

  /** The attribute value a server sends. */
  function XorAddressValue(ip: IpAddr, port: u16, transactionId: TransactionId): seq<byte> {
    [0, Family(ip)] + XorBytes(U16Bytes(port), COOKIE_OCTETS) + XorBytes(Octets(ip), XorKey(transactionId))
  }

  function ParseMappedAddress(value: seq<byte>): Option<IpAddr> {
    if |value| < 4 then None
    else if value[1] == 0x01 then
      if |value| < 8 then None else Some(V4([value[4], value[5], value[6], value[7]]))
    else if value[1] == 0x02 then
      if |value| < 20 then None else Some(V6(value[4..20]))
    else None
  }

  function ParseXorMappedAddress(value: seq<byte>, transactionId: TransactionId): Option<IpAddr> {
    if |value| < 4 then None
    else if value[1] == 0x01 then
      if |value| < 8 then None else Some(V4(XorBytes(value[4..8], COOKIE_OCTETS)))
    else if value[1] == 0x02 then
      if |value| < 20 then None else Some(V6(XorBytes(value[4..20], XorKey(transactionId))))
    else None
  }

  /**
   * The decoder of an XOR-MAPPED-ADDRESS. IPv4 goes through a 32-bit word,
   * IPv6 through a loop over sixteen octets.
   */
  method DecodeXorMappedAddress(value: seq<byte>, transactionId: TransactionId) returns (r: Option<IpAddr>)
    ensures r == ParseXorMappedAddress(value, transactionId)
  {
    if |value| < 4 {
      return None;
    }
    var family := value[1];
    if family == 0x01 {
      if |value| < 8 {
        return None;
      }
      XorWithCookie(value[4..8]);
      var address := BitXor(U32(value[4..8]), MAGIC_COOKIE);
      return Some(V4(U32Bytes(address)));
    } else if family == 0x02 {
      if |value| < 20 {
        return None;
      }
      var xorKey := U32Bytes(MAGIC_COOKIE) + transactionId;
      CookieField(U32Bytes(MAGIC_COOKIE));
      var octets := new byte[16](_ => 0);
      for i := 0 to 16
        invariant octets[..i] == XorBytes(value[4..20], xorKey)[..i]
      {
        octets[i] := XorByte(value[4 + i], xorKey[i]);
        assert octets[..i + 1] == octets[..i] + [octets[i]];
      }
      assert octets[..] == octets[..16] == XorBytes(value[4..20], xorKey);
      return Some(V6(octets[..]));
    }
    return None;
  }

  /** The word-wide mask of the IPv4 path is the octet-wise mask with the first four octets of the key. */
  lemma XorWithCookie(address: Octets4)
    ensures BitXor(U32(address), MAGIC_COOKIE) < 0x1_0000_0000
    ensures U32Bytes(BitXor(U32(address), MAGIC_COOKIE)) == XorBytes(address, COOKIE_OCTETS)
  {
    CookieField(COOKIE_OCTETS);
    XorWordIsBytewise(address, COOKIE_OCTETS);
    U32RoundTrip(XorBytes(address, COOKIE_OCTETS));
  }

  lemma KeyOctets(transactionId: TransactionId)
    ensures forall i | 0 <= i < 4 :: XorKey(transactionId)[i] == [0x21, 0x12, 0xA4, 0x42][i]
    ensures forall i | 4 <= i < 16 :: XorKey(transactionId)[i] == transactionId[i - 4]
  {
  }

  /** The key's octets, one by one: an address is read exactly from the values that carry it. */
  lemma XorMappedAddressExact(value: seq<byte>, transactionId: TransactionId, ip: IpAddr)
    ensures ParseXorMappedAddress(value, transactionId) == Some(ip) <==> CarriesXored(value, ip, transactionId)
  {
    match ip
    case V4(o) =>
      if |value| >= 8 {
        XorOctets(value, 4, COOKIE_OCTETS);
        SameElements(o, XorBytes(value[4..8], COOKIE_OCTETS));
      }
    case V6(o) =>
      if |value| >= 20 {
        KeyOctets(transactionId);
        XorOctets(value, 16, XorKey(transactionId));
        SameElements(o, XorBytes(value[4..20], XorKey(transactionId)));
      }
  }

  lemma XorOctets(value: seq<byte>, n: nat, key: seq<byte>)
    requires |value| >= 4 + n && |key| == n
    ensures |XorBytes(value[4..4 + n], key)| == n
    ensures forall i | 0 <= i < n :: XorBytes(value[4..4 + n], key)[i] == XorByte(value[4 + i], key[i])
  {
  }

  lemma MappedAddressExact(value: seq<byte>, ip: IpAddr)
    ensures ParseMappedAddress(value) == Some(ip) <==> CarriesPlain(value, ip)
  {
    match ip
    case V4(o) =>
      if |value| >= 8 {
        SameElements(o, [value[4], value[5], value[6], value[7]]);
      }
    case V6(o) =>
      if |value| >= 20 {
        SameElements(o, value[4..20]);
      }
  }

  lemma ServerValueCarriesAddress(ip: IpAddr, port: u16, transactionId: TransactionId)
    ensures CarriesXored(XorAddressValue(ip, port, transactionId), ip, transactionId)
  {
    hide XorByte, BitXor, XorKey;
    var value, key, o := XorAddressValue(ip, port, transactionId), XorKey(transactionId), Octets(ip);
    KeyOctets(transactionId);
    assert value[4..] == XorBytes(o, key);
    forall i | 0 <= i < |o| ensures o[i] == XorByte(value[4 + i], key[i]) {
      assert value[4 + i] == XorBytes(o, key)[i];
      XorByteInvolutive(o[i], key[i]);
    }
  }

  // ---------------------------------------------------------------------------
  // The response
  // ---------------------------------------------------------------------------

  /** The value of the first attribute of the given type. */
  function FirstValue(attributes: seq<Attribute>, attrType: AttributeType): Option<seq<byte>> {
    if attributes == [] then None
    else if attributes[0].attrType == attrType then Some(attributes[0].value)
    else FirstValue(attributes[1..], attrType)
  }

  function GetMappedAddress(m: Message): Option<IpAddr> {
    match FirstValue(m.attributes, XorMappedAddress)
    case Some(value) => ParseXorMappedAddress(value, m.transactionId)
    case None =>
      match FirstValue(m.attributes, MappedAddress)
      case Some(value) => ParseMappedAddress(value)
      case None => None
  }

  datatype ResponseError = Malformed(cause: DecodeError) | TransactionIdMismatch | NotASuccessResponse | NoMappedAddress

  function ProcessResponse(request: Message, buf: seq<byte>): Result<IpAddr, ResponseError> {
    match Parse(buf)
    case Failure(e) => Failure(Malformed(e))
    case Success(response) =>
      if response.transactionId != request.transactionId then Failure(TransactionIdMismatch)
      else if response.msgType != Response then Failure(NotASuccessResponse)
      else
        match GetMappedAddress(response)
        case None => Failure(NoMappedAddress)
        case Some(ip) => Success(ip)
  }

  /** Attribute `i` is the first of its type. */
  ghost predicate IsFirst(attributes: seq<Attribute>, attrType: AttributeType, i: int) {
    && 0 <= i < |attributes|
    && attributes[i].attrType == attrType
    && forall j | 0 <= j < i :: attributes[j].attrType != attrType
  }

  ghost predicate Lacks(attributes: seq<Attribute>, attrType: AttributeType) {
    forall a <- attributes :: a.attrType != attrType
  }

  /**
   * The message reports `ip`: through its first XOR-MAPPED-ADDRESS or, only
   * when it has none at all, through its first MAPPED-ADDRESS.
   */
  ghost predicate Reports(m: Message, ip: IpAddr) {
    if Lacks(m.attributes, XorMappedAddress) then
      exists i :: IsFirst(m.attributes, MappedAddress, i) && CarriesPlain(m.attributes[i].value, ip)
    else
      exists i :: IsFirst(m.attributes, XorMappedAddress, i) && CarriesXored(m.attributes[i].value, ip, m.transactionId)
  }

  lemma {:induction false} FirstValueExact(attributes: seq<Attribute>, attrType: AttributeType)
    ensures FirstValue(attributes, attrType).None? <==> Lacks(attributes, attrType)
    ensures forall i :: IsFirst(attributes, attrType, i) ==> FirstValue(attributes, attrType) == Some(attributes[i].value)
    ensures FirstValue(attributes, attrType).Some? ==> exists i :: IsFirst(attributes, attrType, i)
  {
    if attributes != [] {
      if attributes[0].attrType == attrType {
        assert IsFirst(attributes, attrType, 0);
      } else {
        var rest := attributes[1..];
        FirstValueExact(rest, attrType);
        forall i | IsFirst(attributes, attrType, i) ensures IsFirst(rest, attrType, i - 1) {
        }
        if FirstValue(rest, attrType).Some? {
          var i :| IsFirst(rest, attrType, i);
          assert IsFirst(attributes, attrType, i + 1);
        }
      }
    }
  }

  lemma GetMappedAddressExact(m: Message, ip: IpAddr)
    ensures GetMappedAddress(m) == Some(ip) <==> Reports(m, ip)
  {
    FirstValueExact(m.attributes, XorMappedAddress);
    FirstValueExact(m.attributes, MappedAddress);
    forall i | IsFirst(m.attributes, XorMappedAddress, i)
      ensures ParseXorMappedAddress(m.attributes[i].value, m.transactionId) == Some(ip)
              <==> CarriesXored(m.attributes[i].value, ip, m.transactionId)
    {
      XorMappedAddressExact(m.attributes[i].value, m.transactionId, ip);
    }
    forall i | IsFirst(m.attributes, MappedAddress, i)
      ensures ParseMappedAddress(m.attributes[i].value) == Some(ip) <==> CarriesPlain(m.attributes[i].value, ip)
    {
      MappedAddressExact(m.attributes[i].value, ip);
    }
  }

  /**
   * A response is accepted with `ip` exactly if its octets carry a success
   * response to this request that reports `ip`.
   */
  lemma ProcessResponseExact(request: Message, buf: seq<byte>, ip: IpAddr)
    ensures ProcessResponse(request, buf) == Success(ip) <==>
      exists m ::
        && OnWire(m, buf)
        && m.transactionId == request.transactionId
        && m.msgType == Response
        && Reports(m, ip)
  {
    if ProcessResponse(request, buf) == Success(ip) {
      var m := Parse(buf).value;
      DecodeExact(buf, m);
      GetMappedAddressExact(m, ip);
    }
    forall m | OnWire(m, buf) && m.transactionId == request.transactionId && m.msgType == Response && Reports(m, ip)
      ensures ProcessResponse(request, buf) == Success(ip)
    {
      DecodeExact(buf, m);
      GetMappedAddressExact(m, ip);
    }
  }

  /** Why a response is rejected: the first check that fails. */
  lemma ProcessResponseErrors(request: Message, buf: seq<byte>, m: Message)
    ensures (forall n :: !OnWire(n, buf)) <==>
      ProcessResponse(request, buf).Failure? && ProcessResponse(request, buf).error.Malformed?
    ensures Parse(buf).Failure? ==> ProcessResponse(request, buf) == Failure(Malformed(Parse(buf).error))
    ensures OnWire(m, buf) ==>
      match ProcessResponse(request, buf)
      case Failure(TransactionIdMismatch) => m.transactionId != request.transactionId
      case Failure(NotASuccessResponse) => m.transactionId == request.transactionId && m.msgType != Response
      case Failure(NoMappedAddress) =>
        && m.transactionId == request.transactionId && m.msgType == Response
        && forall ip :: !Reports(m, ip)
      case Failure(Malformed(_)) => false
      case Success(ip) => m.transactionId == request.transactionId && m.msgType == Response && Reports(m, ip)
  {
    if Parse(buf).Success? {
      DecodeExact(buf, Parse(buf).value);
    }
    forall n | OnWire(n, buf) ensures Parse(buf) == Success(n) {
      DecodeExact(buf, n);
    }
    forall ip ensures GetMappedAddress(m) == Some(ip) <==> Reports(m, ip) {
      GetMappedAddressExact(m, ip);
    }
  }

  lemma ReportingAttribute(m: Message, ip: IpAddr) returns (i: nat)
    requires GetMappedAddress(m) == Some(ip)
    ensures i < |m.attributes|
    ensures
      var a := m.attributes[i];
      || (a.attrType == XorMappedAddress && CarriesXored(a.value, ip, m.transactionId))
      || (a.attrType == MappedAddress && CarriesPlain(a.value, ip))
  {
    GetMappedAddressExact(m, ip);
    var k: int;
    if Lacks(m.attributes, XorMappedAddress) {
      k :| IsFirst(m.attributes, MappedAddress, k) && CarriesPlain(m.attributes[k].value, ip);
    } else {
      k :| IsFirst(m.attributes, XorMappedAddress, k) && CarriesXored(m.attributes[k].value, ip, m.transactionId);
    }
    i := k;
  }

  /** At `p` stands an address attribute, code 0x0020 or 0x0001, that carries `ip`. */
  ghost predicate AddressAt(buf: seq<byte>, p: nat, len: nat, ip: IpAddr, transactionId: TransactionId) {
    && 20 <= p && p + 4 + len <= |buf| && buf[p] == 0x00 && len == U16(buf[p + 2], buf[p + 3])
    && var value := buf[p + 4..p + 4 + len];
       || (buf[p + 1] == 0x20 && CarriesXored(value, ip, transactionId))
       || (buf[p + 1] == 0x01 && CarriesPlain(value, ip))
  }

  lemma AcceptedMessage(request: Message, buf: seq<byte>, ip: IpAddr) returns (m: Message)
    requires ProcessResponse(request, buf) == Success(ip)
    ensures Parse(buf) == Success(m) && m.transactionId == request.transactionId && m.msgType == Response
    ensures GetMappedAddress(m) == Some(ip)
  {
    m := Parse(buf).value;
  }

  lemma AddressStands(buf: seq<byte>, p: nat, a: Attribute, ip: IpAddr, transactionId: TransactionId)
    requires 20 <= p && AttributeAt(a, buf, p)
    requires
      || (a.attrType == XorMappedAddress && CarriesXored(a.value, ip, transactionId))
      || (a.attrType == MappedAddress && CarriesPlain(a.value, ip))
    ensures AddressAt(buf, p, |a.value|, ip, transactionId)
  {
    hide CarriesXored, CarriesPlain;
  }

  /** An accepted response, octet by octet: success type, cookie, the request's id, and an address attribute. */
  lemma AcceptedOctets(request: Message, buf: seq<byte>, ip: IpAddr)
    ensures ProcessResponse(request, buf) == Success(ip) ==>
      && |buf| >= 20 && buf[0] == 0x01 && buf[1] == 0x01 && buf[4..8] == [0x21, 0x12, 0xA4, 0x42]
      && buf[8..20] == request.transactionId
      && exists p, len :: AddressAt(buf, p, len, ip, request.transactionId)
  {
    hide ProcessResponse, Parse, AddressAt, AttributeAt, GetMappedAddress, CarriesXored, CarriesPlain, BodySize;
    if ProcessResponse(request, buf) == Success(ip) {
      var m := AcceptedMessage(request, buf, ip);
      var i := ReportingAttribute(m, ip);
      MessageOctets(buf, m, i);
      AddressStands(buf, 20 + BodySize(m.attributes[..i]), m.attributes[i], ip, request.transactionId);
    }
  }

  /** What a server answers: its address attribute between attributes of its own. */
  function Reply(request: Message, ip: IpAddr, port: u16, before: seq<Attribute>, after: seq<Attribute>): Message {
    Message(Response, request.transactionId,
            before + [Attribute(XorMappedAddress, XorAddressValue(ip, port, request.transactionId))] + after)
  }

  /** End to end: the address a server saw is the address the client reports. */
  lemma {:induction false} ReplyIsUnderstood(
      request: Message, ip: IpAddr, port: u16, before: seq<Attribute>, after: seq<Attribute>, trailer: seq<byte>)
    requires Lacks(before, XorMappedAddress)
    requires Sendable(Reply(request, ip, port, before, after))
    ensures ProcessResponse(request, EncodeMessage(Reply(request, ip, port, before, after)) + trailer) == Success(ip)
  {
    var m := Reply(request, ip, port, before, after);
    EncodeDecodeRoundTrip(m, trailer);
    ServerValueCarriesAddress(ip, port, request.transactionId);
    var i := |before|;
    assert m.attributes[i] == Attribute(XorMappedAddress, XorAddressValue(ip, port, request.transactionId));
    assert m.attributes[i] in m.attributes;
    assert IsFirst(m.attributes, XorMappedAddress, i);
    GetMappedAddressExact(m, ip);
  }

  /** A first XOR-MAPPED-ADDRESS that carries no address is fatal, whatever else is in the message. */
  lemma NoFallbackToMappedAddress(m: Message, i: int)
    requires IsFirst(m.attributes, XorMappedAddress, i)
    ensures GetMappedAddress(m).None? <==> forall ip :: !CarriesXored(m.attributes[i].value, ip, m.transactionId)
  {
    FirstValueExact(m.attributes, XorMappedAddress);
    var value := m.attributes[i].value;
    forall ip
      ensures ParseXorMappedAddress(value, m.transactionId) == Some(ip) <==> CarriesXored(value, ip, m.transactionId)
    {
      XorMappedAddressExact(value, m.transactionId, ip);
    }
    if GetMappedAddress(m).Some? {
      assert CarriesXored(value, GetMappedAddress(m).value, m.transactionId);
    }
  }

  // ---------------------------------------------------------------------------
  // Choosing the server address
  // ---------------------------------------------------------------------------

  /** `find(is_ipv4)` or `find(is_ipv6)`. */
  function FindAddress(addresses: seq<IpAddr>, v4: bool): Option<IpAddr> {
    if addresses == [] then None
    else if addresses[0].V4? == v4 then Some(addresses[0])
    else FindAddress(addresses[1..], v4)
  }

  function SelectAddress(addresses: seq<IpAddr>, version: IpVersion): Option<IpAddr> {
    match version
    case OnlyV4 => FindAddress(addresses, true)
    case OnlyV6 => FindAddress(addresses, false)
    case AnyVersion =>
      match FindAddress(addresses, true)
      case Some(ip) => Some(ip)
      case None => if addresses == [] then None else Some(addresses[0])
  }

  /** `ip` is the first address of its family. */
  ghost predicate IsFirstOfItsFamily(addresses: seq<IpAddr>, ip: IpAddr) {
    exists i :: 0 <= i < |addresses| && addresses[i] == ip && forall j | 0 <= j < i :: addresses[j].V4? != ip.V4?
  }

  lemma {:induction false} FindAddressFindsFirst(addresses: seq<IpAddr>, v4: bool)
    ensures FindAddress(addresses, v4).None? <==> forall a <- addresses :: a.V4? != v4
    ensures FindAddress(addresses, v4).Some? ==>
      FindAddress(addresses, v4).value.V4? == v4 && IsFirstOfItsFamily(addresses, FindAddress(addresses, v4).value)
  {
    if addresses != [] {
      var rest := addresses[1..];
      FindAddressFindsFirst(rest, v4);
      if addresses[0].V4? == v4 {
        assert IsFirstOfItsFamily(addresses, addresses[0]);
      } else if FindAddress(rest, v4).Some? {
        var ip := FindAddress(rest, v4).value;
        var i :| 0 <= i < |rest| && rest[i] == ip && forall j | 0 <= j < i :: rest[j].V4? != ip.V4?;
        assert addresses[i + 1] == ip && forall j | 0 < j < i + 1 :: addresses[j] == rest[j - 1];
      }
    }
  }

  /**
   * The server address: the first one of the family asked for, and none only
   * if there is none. When either family will do, the first IPv4 address, and
   * the first address of all if there is no IPv4 address.
   */
  lemma SelectAddressExact(addresses: seq<IpAddr>, version: IpVersion)
    ensures SelectAddress(addresses, version).None? <==>
      forall a <- addresses :: (version.OnlyV4? && a.V6?) || (version.OnlyV6? && a.V4?)
    ensures SelectAddress(addresses, version).Some? ==>
      var ip := SelectAddress(addresses, version).value;
      && IsFirstOfItsFamily(addresses, ip)
      && (version.OnlyV4? ==> ip.V4?) && (version.OnlyV6? ==> ip.V6?)
      && (version.AnyVersion? && ip.V6? ==> ip == addresses[0] && forall a <- addresses :: a.V6?)
  {
    FindAddressFindsFirst(addresses, true);
    FindAddressFindsFirst(addresses, false);
    if addresses != [] {
      assert addresses[0] in addresses;
      assert IsFirstOfItsFamily(addresses, addresses[0]);
    }
  }
}
