/**
 * The flow-table flush (`deleteUDPConntrack`): deletes the connection
 * tracking entry of the probe's own UDP endpoint with the external
 * `conntrack` tool, restricted by `--dst-nat` so that the destination-NAT
 * redirect entry is kept. Running the tool is not modelled; its result is
 * an input.
 */
module Conntrack {
  import opened Results
  import opened Addresses
  import opened Decimal

  datatype FlushError =
    | NotUDP(addr: string)   // "Expected UDP address, but got %s"
    | ExecFailed(msg: string) // the tool could not start or exited non-zero

  /** The argument vector handed to the tool, or the rejection of a non-UDP address. */
  function ConntrackArgs(addr: NetAddr): (r: Result<seq<string>, FlushError>)
    ensures r.Err? <==> addr.OtherNetAddr?
    ensures r.Err? ==> r.error == NotUDP(addr.text)
    ensures r.Ok? ==> |r.value| == 9 && r.value[0] == "conntrack" && r.value[8] == "--dst-nat"
    ensures r.Ok? ==> r.value[1..5] == ["-D", "-p", "udp", "--src"] && r.value[6] == "--sport"
    ensures r.Ok? ==> r.value[5] == addr.udp.ip.text && r.value[7] == Itoa(addr.udp.port)
  {
    match addr
    case OtherNetAddr(text) => Err(NotUDP(text))
    case UDP(u) =>
      Ok(["conntrack", "-D", "-p", "udp",
          "--src", u.ip.text, "--sport", Itoa(u.port),
          "--dst-nat"])
  }

  /** The endpoint a well-formed argument vector deletes, read back from it. */
  function TargetOf(argv: seq<string>): Option<(string, int)> {
    if |argv| == 9 && argv[..5] == ["conntrack", "-D", "-p", "udp", "--src"] &&
       argv[6] == "--sport" && argv[8] == "--dst-nat"
    then
      match ParseDecimal(argv[7])
      case Some(port) => Some((argv[5], port))
      case None => None
    else None
  }

  /** The command deletes exactly the entry of the given source IP and port. */
  lemma ArgsTargetSource(u: UdpAddr)
    ensures ConntrackArgs(UDP(u)).Ok?
    ensures TargetOf(ConntrackArgs(UDP(u)).value) == Some((u.ip.text, u.port))
  {
    ParseItoa(u.port);
  }

  /** Two UDP endpoints get the same command only if they have the same IP text and port. */
  lemma ArgsInjective(a: UdpAddr, b: UdpAddr)
    requires ConntrackArgs(UDP(a)) == ConntrackArgs(UDP(b))
    ensures a.ip.text == b.ip.text && a.port == b.port
  {
    ArgsTargetSource(a);
    ArgsTargetSource(b);
  }

  /**
   * `deleteUDPConntrack`: `exec` gives what running a command line
   * returns. A non-UDP address is rejected before any command runs, so
   * `exec` is not consulted then; otherwise the command run is exactly
   * `ConntrackArgs(addr)`.
   */
  function DeleteUDPConntrack(addr: NetAddr, exec: seq<string> -> Outcome<string>): (r: Outcome<FlushError>)
    ensures addr.OtherNetAddr? ==> r == Fail(NotUDP(addr.text))
    ensures addr.UDP? ==> (r == Pass <==> exec(ConntrackArgs(addr).value) == Pass)
    ensures addr.UDP? && exec(ConntrackArgs(addr).value).Fail? ==>
              r == Fail(ExecFailed(exec(ConntrackArgs(addr).value).error))
  {
    match ConntrackArgs(addr)
    case Err(e) => Fail(e)
    case Ok(argv) =>
      match exec(argv)
      case Fail(msg) => Fail(ExecFailed(msg))
      case Pass => Pass
  }
}
