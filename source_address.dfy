/**
 * Choosing the local address to bind when none is configured
 * (`lookupSrcAddrFromInterfaces`): the first interface address, in the
 * order the system lists them, that is an IP network address, not a
 * loopback address and an IPv4 address, with port 0 so that the
 * operating system picks the port.
 */
module SourceAddress {
  import opened Results
  import opened Addresses

  datatype LookupError =
    | InterfaceAddrsFailed(msg: string)  // `net.InterfaceAddrs` itself failed
    | NoSourceAddress                    // "Could not find src IP address from interfaces"

  /** The filter applied to each interface address. */
  predicate Usable(a: InterfaceAddr) {
    a.IPNet? && !a.ip.loopback && a.ip.v4
  }

  /** Index of the first usable entry, if any. */
  function FirstUsable(addrs: seq<InterfaceAddr>): (r: Option<nat>)
    ensures r.Some? ==> r.value < |addrs| && Usable(addrs[r.value])
    ensures r.Some? ==> forall j :: 0 <= j < r.value ==> !Usable(addrs[j])
    ensures r.None? <==> forall j :: 0 <= j < |addrs| ==> !Usable(addrs[j])
  {
    if addrs == [] then None
    else if Usable(addrs[0]) then Some(0)
    else match FirstUsable(addrs[1..])
      case Some(k) => Some(k + 1)
      case None => None
  }

  /** The address the scan selects from an enumerated list. */
  function SelectSource(addrs: seq<InterfaceAddr>): (r: Result<UdpAddr, LookupError>)
    ensures r.Ok? ==> r.value.port == 0
    ensures r.Ok? ==> exists k :: 0 <= k < |addrs| && Usable(addrs[k]) && addrs[k].ip == r.value.ip &&
                                  forall j :: 0 <= j < k ==> !Usable(addrs[j])
    ensures r.Err? <==> forall j :: 0 <= j < |addrs| ==> !Usable(addrs[j])
    ensures r.Err? ==> r.error == NoSourceAddress
  {
    match FirstUsable(addrs)
    case Some(k) => Ok(UdpAddr(addrs[k].ip, 0))
    case None => Err(NoSourceAddress)
  }

  /**
   * The scan itself: walks the list in order and returns at the first
   * usable entry. `enumerated` is what `net.InterfaceAddrs` returned.
   */
  method LookupSrcAddrFromInterfaces(enumerated: Result<seq<InterfaceAddr>, string>)
    returns (r: Result<UdpAddr, LookupError>)
    ensures enumerated.Err? ==> r == Err(InterfaceAddrsFailed(enumerated.error))
    ensures enumerated.Ok? ==> r == SelectSource(enumerated.value)
  {
    if enumerated.Err? {
      return Err(InterfaceAddrsFailed(enumerated.error));
    }
    var addrs := enumerated.value;
    var i := 0;
    while i < |addrs|
      invariant 0 <= i <= |addrs|
      invariant forall j :: 0 <= j < i ==> !Usable(addrs[j])
    {
      var a := addrs[i];
      if a.IPNet? && !a.ip.loopback {
        if a.ip.v4 {
          assert FirstUsable(addrs) == Some(i);
          return Ok(UdpAddr(a.ip, 0));
        }
      }
      i := i + 1;
    }
    return Err(NoSourceAddress);
  }

  /** Entries after the selected one do not influence the choice. */
  lemma {:induction false} SelectionIgnoresLaterEntries(addrs: seq<InterfaceAddr>, later: seq<InterfaceAddr>)
    requires SelectSource(addrs).Ok?
    ensures SelectSource(addrs + later) == SelectSource(addrs)
  {
    FirstUsablePrefix(addrs, later);
  }

  lemma {:induction false} FirstUsablePrefix(addrs: seq<InterfaceAddr>, later: seq<InterfaceAddr>)
    requires FirstUsable(addrs).Some?
    ensures FirstUsable(addrs + later) == FirstUsable(addrs)
  {
    if !Usable(addrs[0]) {
      assert (addrs + later)[1..] == addrs[1..] + later;
      FirstUsablePrefix(addrs[1..], later);
    }
  }

  /** Entries that fail the filter may be dropped from the front without changing the choice. */
  lemma UnusableEntriesAreSkipped(skipped: seq<InterfaceAddr>, addrs: seq<InterfaceAddr>)
    requires forall j :: 0 <= j < |skipped| ==> !Usable(skipped[j])
    ensures SelectSource(skipped + addrs) == SelectSource(addrs)
  {
    FirstUsableAfterSkipped(skipped, addrs);
    var k := FirstUsable(addrs);
    if k.Some? {
      assert (skipped + addrs)[k.value + |skipped|] == addrs[k.value];
    }
  }

  lemma {:induction false} FirstUsableAfterSkipped(skipped: seq<InterfaceAddr>, addrs: seq<InterfaceAddr>)
    requires forall j :: 0 <= j < |skipped| ==> !Usable(skipped[j])
    ensures FirstUsable(skipped + addrs) ==
            match FirstUsable(addrs)
            case Some(k) => Some(k + |skipped|)
            case None => None
  {
    if skipped == [] {
      assert skipped + addrs == addrs;
    } else {
      assert (skipped + addrs)[0] == skipped[0];
      assert (skipped + addrs)[1..] == skipped[1..] + addrs;
      FirstUsableAfterSkipped(skipped[1..], addrs);
    }
  }
}
