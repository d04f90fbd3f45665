/**
 * Start-up of the probe (`runLoop` before its loop): the destination is
 * required and resolved, the source is resolved when given and otherwise
 * chosen from the interface addresses, and the socket is bound to it.
 * Resolution, interface enumeration and binding are the `net` package's;
 * their results are parameters here.
 */
module Startup {
  import opened Results
  import opened Addresses
  import SourceAddress

  datatype StartupError =
    | DestinationRequired                     // "Destination address is required"
    | ResolveFailed(msg: string)              // `net.ResolveUDPAddr` of -d or -s failed
    | LookupFailed(err: SourceAddress.LookupError)
    | ListenFailed(msg: string)               // `net.ListenUDP` failed

  /** What start-up hands to the loop: both endpoints and the socket's local address. */
  datatype Setup = Setup(dst: UdpAddr, src: UdpAddr, local: NetAddr)

  /** A flag value that is present and non-empty. */
  predicate Given(arg: Option<string>) { arg.Some? && arg.value != "" }

  /**
   * `dstArg` and `srcArg` are the -d and -s flags; `resolve` stands for
   * `net.ResolveUDPAddr("udp", _)`, `interfaces` for the result of
   * `net.InterfaceAddrs()` and `listen` for `net.ListenUDP("udp", _)`
   * followed by `LocalAddr()`.
   */
  function Start(dstArg: Option<string>, srcArg: Option<string>,
                 resolve: string -> Result<UdpAddr, string>,
                 interfaces: Result<seq<InterfaceAddr>, string>,
                 listen: UdpAddr -> Result<NetAddr, string>): (r: Result<Setup, StartupError>)
    ensures !Given(dstArg) ==> r == Err(DestinationRequired)
    ensures Given(dstArg) && resolve(dstArg.value).Err? ==> r == Err(ResolveFailed(resolve(dstArg.value).error))
    ensures r.Ok? ==> Given(dstArg) && resolve(dstArg.value) == Ok(r.value.dst)
    ensures r.Ok? && Given(srcArg) ==> resolve(srcArg.value) == Ok(r.value.src)
    ensures r.Ok? && !Given(srcArg) ==>
              interfaces.Ok? && SourceAddress.SelectSource(interfaces.value) == Ok(r.value.src)
    ensures r.Ok? ==> listen(r.value.src) == Ok(r.value.local)
    // The failures after the destination resolved, each with its own error.
    ensures Given(dstArg) && resolve(dstArg.value).Ok? && Given(srcArg) && resolve(srcArg.value).Err? ==>
              r == Err(ResolveFailed(resolve(srcArg.value).error))
    ensures Given(dstArg) && resolve(dstArg.value).Ok? && !Given(srcArg) && interfaces.Err? ==>
              r == Err(LookupFailed(SourceAddress.InterfaceAddrsFailed(interfaces.error)))
    ensures Given(dstArg) && resolve(dstArg.value).Ok? && !Given(srcArg) && interfaces.Ok? &&
            SourceAddress.SelectSource(interfaces.value).Err? ==>
              r == Err(LookupFailed(SourceAddress.NoSourceAddress))
    ensures Given(dstArg) && resolve(dstArg.value).Ok? && Given(srcArg) && resolve(srcArg.value).Ok? ==>
              (listen(resolve(srcArg.value).value).Err? ==>
                 r == Err(ListenFailed(listen(resolve(srcArg.value).value).error))) &&
              (listen(resolve(srcArg.value).value).Ok? ==>
                 r == Ok(Setup(resolve(dstArg.value).value, resolve(srcArg.value).value,
                               listen(resolve(srcArg.value).value).value)))
    ensures Given(dstArg) && resolve(dstArg.value).Ok? && !Given(srcArg) && interfaces.Ok? &&
            SourceAddress.SelectSource(interfaces.value).Ok? ==>
              var src := SourceAddress.SelectSource(interfaces.value).value;
              (listen(src).Err? ==> r == Err(ListenFailed(listen(src).error))) &&
              (listen(src).Ok? ==> r == Ok(Setup(resolve(dstArg.value).value, src, listen(src).value)))
  {
    if !Given(dstArg) then Err(DestinationRequired)
    else match resolve(dstArg.value)
      case Err(e) => Err(ResolveFailed(e))
      case Ok(dst) =>
        var src :=
          if Given(srcArg) then
            match resolve(srcArg.value)
            case Err(e) => Err(ResolveFailed(e))
            case Ok(a) => Ok(a)
          else
            match interfaces
            case Err(e) => Err(LookupFailed(SourceAddress.InterfaceAddrsFailed(e)))
            case Ok(addrs) =>
              match SourceAddress.SelectSource(addrs)
              case Err(e) => Err(LookupFailed(e))
              case Ok(a) => Ok(a);
        match src
        case Err(e) => Err(e)
        case Ok(s) =>
          match listen(s)
          case Err(e) => Err(ListenFailed(e))
          case Ok(local) => Ok(Setup(dst, s, local))
  }

  /** A configured source makes the interface list irrelevant. */
  lemma ExplicitSourceWins(dstArg: Option<string>, srcArg: Option<string>,
                           resolve: string -> Result<UdpAddr, string>,
                           interfaces1: Result<seq<InterfaceAddr>, string>,
                           interfaces2: Result<seq<InterfaceAddr>, string>,
                           listen: UdpAddr -> Result<NetAddr, string>)
    requires Given(srcArg)
    ensures Start(dstArg, srcArg, resolve, interfaces1, listen) == Start(dstArg, srcArg, resolve, interfaces2, listen)
  {
  }

  /** No socket is bound when a step before binding fails: the result does not depend on `listen`. */
  lemma NoBindAfterEarlierError(dstArg: Option<string>, srcArg: Option<string>,
                                resolve: string -> Result<UdpAddr, string>,
                                interfaces: Result<seq<InterfaceAddr>, string>,
                                listen1: UdpAddr -> Result<NetAddr, string>,
                                listen2: UdpAddr -> Result<NetAddr, string>)
    requires Start(dstArg, srcArg, resolve, interfaces, listen1).Err?
    requires !Start(dstArg, srcArg, resolve, interfaces, listen1).error.ListenFailed?
    ensures Start(dstArg, srcArg, resolve, interfaces, listen2) == Start(dstArg, srcArg, resolve, interfaces, listen1)
  {
  }
}
