/** The small types shared by every part of the library. */
module Types {

  datatype Option<+T> = None | Some(value: T)

  datatype Result<+T, +E> = Success(value: T) | Failure(error: E)

  type byte = x: int | 0 <= x < 256

  type u16 = x: int | 0 <= x < 0x1_0000

  type u32 = x: int | 0 <= x < 0x1_0000_0000

  type Octets4 = s: seq<byte> | |s| == 4 witness [0, 0, 0, 0]

  type Octets16 = s: seq<byte> | |s| == 16
    witness [0, 0, 0, 0, 0, 0, 0, 0, 0, 0, 0, 0, 0, 0, 0, 0]

  datatype IpAddr = V4(octets4: Octets4) | V6(octets16: Octets16)

  /** The caller's preference; `matches` of the source is `Matches`. */
  datatype IpVersion = OnlyV4 | OnlyV6 | AnyVersion {
    predicate Matches(ip: IpAddr) {
      match this
      case OnlyV4 => ip.V4?
      case OnlyV6 => ip.V6?
      case AnyVersion => true
    }
  }

  datatype Protocol = Dns | Http | Stun

  /** What the resolvers know of a provider, whose name need not be unique. */
  datatype Provider = Provider(name: string, protocol: Protocol, v4: bool, v6: bool) {
    predicate Supports(version: IpVersion) {
      match version
      case OnlyV4 => v4
      case OnlyV6 => v6
      case AnyVersion => v4 || v6
    }
  }

  /** A provider's error. Custom providers may put any name into theirs. */
  datatype ProviderError = ProviderError(provider: string, message: string)

  /** `latency` is a duration in clock ticks. */
  datatype ProviderResult = ProviderResult(ip: IpAddr, provider: string, protocol: Protocol, latency: nat)

  datatype Error =
    | AllProvidersFailed(errors: seq<ProviderError>)
    | NoProvidersForVersion
    | ConsensusNotReached(required: nat, got: nat, consensusErrors: seq<ProviderError>)

  /** `checked_add`, on machine words as on points in time: there is no sum above `max`. */
  function CheckedAdd(a: nat, b: nat, max: nat): (r: Option<nat>)
    ensures r.None? <==> max < a + b
    ensures r.Some? ==> r.value - a == b
  {
    if a + b <= max then Some(a + b) else None
  }

  function TimeoutError(name: string): ProviderError {
    ProviderError(name, "timeout")
  }

  function DisconnectedError(name: string): ProviderError {
    ProviderError(name, "provider worker disconnected")
  }

  /** What both resolvers make of an answer whose address family was not asked for. */
  function ValidateIp(name: string, version: IpVersion, ip: IpAddr): (r: Result<IpAddr, ProviderError>)
    ensures r.Success? <==> version.AnyVersion? || (version.OnlyV4? && ip.V4?) || (version.OnlyV6? && ip.V6?)
    ensures r.Success? ==> r.value == ip
    ensures r.Failure? ==> r.error.provider == name && r.error.message == "provider returned unexpected IP version"
  {
    if version.Matches(ip) then Success(ip)
    else Failure(ProviderError(name, "provider returned unexpected IP version"))
  }
}
