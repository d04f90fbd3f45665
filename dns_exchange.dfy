/**
 * The probe's exchange with the DNS server, with the wire format and the
 * socket abstracted away: sending is a success or an error, and a receive
 * is one event — the deadline could not be set, the read failed or timed
 * out, or one datagram arrived and either unpacked to a header ID or did not.
 */
module DnsExchange {
  import opened Results

  /** Go's `uint16`. */
  newtype uint16 = x: int | 0 <= x < 0x1_0000

  /** What unpacking the received datagram gave. */
  datatype Unpacked = Decoded(headerId: uint16) | Malformed(msg: string)

  /** What one call of `waitForDNSResp` sees: at most one datagram. */
  datatype RecvEvent =
    | DeadlineFailed(msg: string)
    | TimedOut
    | ReadFailed(msg: string)
    | Datagram(unpacked: Unpacked)

  datatype RecvError =
    | DeadlineError(msg: string)
    | Timeout
    | ReadError(msg: string)
    | UnpackError(msg: string)

  /**
   * `waitForDNSResp(conn, id, buf)`. The expected `id` is only printed next
   * to the reply's ID, never compared, so any datagram that unpacks is a
   * success whatever its ID.
   */
  function WaitForDNSResp(id: uint16, ev: RecvEvent): (r: Outcome<RecvError>)
    ensures r == Pass <==> ev.Datagram? && ev.unpacked.Decoded?
    ensures ev.DeadlineFailed? ==> r == Fail(DeadlineError(ev.msg))
    ensures ev == TimedOut ==> r == Fail(Timeout)
    ensures ev.ReadFailed? ==> r == Fail(ReadError(ev.msg))
    ensures ev.Datagram? && ev.unpacked.Malformed? ==> r == Fail(UnpackError(ev.unpacked.msg))
  {
    match ev
    case DeadlineFailed(msg) => Fail(DeadlineError(msg))
    case TimedOut => Fail(Timeout)
    case ReadFailed(msg) => Fail(ReadError(msg))
    case Datagram(Malformed(msg)) => Fail(UnpackError(msg))
    case Datagram(Decoded(_)) => Pass
  }

  /** A reply carrying another transaction's ID is received just like the expected one. */
  lemma MismatchedIdIsSuccess(id: uint16, replyId: uint16)
    requires replyId != id
    ensures WaitForDNSResp(id, Datagram(Decoded(replyId))) == Pass
    ensures WaitForDNSResp(id, Datagram(Decoded(replyId))) == WaitForDNSResp(replyId, Datagram(Decoded(replyId)))
  {
  }
}
