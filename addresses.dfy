/**
 * The address values the probe handles. The `net` package's own logic
 * (`IP.String`, `IP.IsLoopback`, `IP.To4`) is not modelled: an IP carries
 * its textual form and the answers of those two tests as plain values.
 */
module Addresses {

  /** An IP address: its `String()` text, whether it is loopback, whether `To4()` succeeds. */
  datatype IP = IP(text: string, loopback: bool, v4: bool)

  /** A `*net.UDPAddr`. Go keeps the port in an `int`. */
  datatype UdpAddr = UdpAddr(ip: IP, port: int)

  /** A `net.Addr`: either a UDP address or some other implementation, known by its text. */
  datatype NetAddr = UDP(udp: UdpAddr) | OtherNetAddr(text: string)

  /** An entry of `net.InterfaceAddrs()`: a `*net.IPNet` or another `net.Addr` kind. */
  datatype InterfaceAddr = IPNet(ip: IP) | OtherInterfaceAddr(text: string)
}
