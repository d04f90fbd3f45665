/**
 * The probe loop (`runLoop` from its counter on): every cycle increments
 * the 16-bit transaction ID, sends a query, waits for one reply and, only
 * when both succeeded, flushes the connection-tracking entry. The logs of
 * sent, awaited and flushed IDs are ghost: they record what the loop did
 * so that its behaviour over many cycles can be stated.
 */
module ProbeLoop {
  import opened Results
  import opened Addresses
  import opened DnsExchange
  import opened Conntrack
  import opened Startup

  /** `id++` on a Go `uint16`: wraps from 65535 to 0. */
  function Inc(x: uint16): (r: uint16)
    ensures r as int == (x as int + 1) % 0x1_0000
  {
    if x == 0xFFFF then 0 else x + 1
  }

  /** The ID carried by the k-th send attempt (counting from 1) of a loop whose counter starts at 0. */
  function AttemptId(k: nat): uint16 {
    (k % 0x1_0000) as uint16
  }

  /**
   * The results of the I/O one cycle performs: `send` of `sendDNSQuery`,
   * `recv` of the read in `waitForDNSResp`, and `exec` gives what running a
   * command line would return. A result is only consulted when the cycle
   * reaches that step.
   */
  datatype CycleInput = CycleInput(send: Outcome<string>, recv: RecvEvent, exec: seq<string> -> Outcome<string>)

  /** How a cycle ended. A flush error is reported but ends nothing. */
  datatype CycleOutcome =
    | SendFailed(msg: string)
    | ReceiveFailed(err: RecvError)
    | Completed(flush: Outcome<FlushError>)

  /** The query went out and one datagram came back and unpacked, whatever its ID. */
  predicate Completes(c: CycleInput) {
    c.send == Pass && c.recv.Datagram? && c.recv.unpacked.Decoded?
  }

  predicate QuerySent(c: CycleInput) {
    c.send == Pass
  }

  /** The outcome of the cycle that sends transaction `id`, with the socket bound to `local`. */
  function OutcomeOf(local: NetAddr, id: uint16, c: CycleInput): (o: CycleOutcome)
    ensures c.send.Fail? ==> o == SendFailed(c.send.error)
    ensures o.Completed? <==> Completes(c)
    ensures o.Completed? ==> o.flush == DeleteUDPConntrack(local, c.exec)
    ensures c.send == Pass && c.recv == TimedOut ==> o == ReceiveFailed(Timeout)
  {
    match c.send
    case Fail(e) => SendFailed(e)
    case Pass =>
      match WaitForDNSResp(id, c.recv)
      case Fail(e) => ReceiveFailed(e)
      case Pass => Completed(DeleteUDPConntrack(local, c.exec))
  }

  /** The counter and the logs of IDs sent, awaited and flushed. */
  datatype ProbeTrace = ProbeTrace(id: uint16, sent: seq<uint16>, waited: seq<uint16>, flushed: seq<uint16>)

  /** One cycle's effect on the trace. */
  function Step(t: ProbeTrace, c: CycleInput): ProbeTrace {
    var id := Inc(t.id);
    ProbeTrace(id, t.sent + [id],
               if QuerySent(c) then t.waited + [id] else t.waited,
               if Completes(c) then t.flushed + [id] else t.flushed)
  }

  /**
   * The trace of a cycle agrees with the outcome that cycle reports: it
   * sends the next ID, it waits exactly when its outcome is not a send
   * failure, and it flushes exactly when its outcome is `Completed`, on
   * whatever local address the socket is bound to. Earlier log entries are
   * kept.
   */
  lemma StepMatchesOutcome(t: ProbeTrace, local: NetAddr, c: CycleInput)
    ensures Step(t, c).id == Inc(t.id) && Step(t, c).sent == t.sent + [Inc(t.id)]
    ensures |Step(t, c).waited| > |t.waited| <==> !OutcomeOf(local, Inc(t.id), c).SendFailed?
    ensures |Step(t, c).flushed| > |t.flushed| <==> OutcomeOf(local, Inc(t.id), c).Completed?
    ensures |Step(t, c).waited| <= |t.waited| + 1 && |Step(t, c).flushed| <= |t.flushed| + 1
    ensures Step(t, c).waited[..|t.waited|] == t.waited && Step(t, c).flushed[..|t.flushed|] == t.flushed
    ensures |Step(t, c).flushed| > |t.flushed| ==> Step(t, c).flushed[|t.flushed|] == Inc(t.id)
  {
  }

  /** The state of the loop before its first cycle. */
  function Initial(): ProbeTrace {
    ProbeTrace(0, [], [], [])
  }

  /** The trace after running the given cycles from `t`. */
  function RunFrom(t: ProbeTrace, ins: seq<CycleInput>): (r: ProbeTrace)
    ensures |r.sent| == |t.sent| + |ins|
  {
    if |ins| == 0 then t
    else Step(RunFrom(t, ins[..|ins| - 1]), ins[|ins| - 1])
  }

  /** The trace after running the given cycles from the start of the loop. */
  function Run(ins: seq<CycleInput>): (r: ProbeTrace)
    ensures |r.sent| == |ins|
  {
    RunFrom(Initial(), ins)
  }

  /** The IDs of the cycles, among `ins`, that satisfy `p`, in order. */
  function IdsWhere(ins: seq<CycleInput>, p: CycleInput -> bool): seq<uint16> {
    if |ins| == 0 then []
    else IdsWhere(ins[..|ins| - 1], p) + (if p(ins[|ins| - 1]) then [AttemptId(|ins|)] else [])
  }

  lemma IncAttemptId(k: nat)
    ensures Inc(AttemptId(k)) == AttemptId(k + 1)
  {
  }

  /** The k-th send attempt carries ID k mod 65536, whatever the earlier cycles' outcomes. */
  lemma {:induction false} RunIds(ins: seq<CycleInput>)
    ensures Run(ins).id == AttemptId(|ins|)
    ensures |Run(ins).sent| == |ins|
    ensures forall k :: 0 <= k < |ins| ==> Run(ins).sent[k] == AttemptId(k + 1)
  {
    if |ins| != 0 {
      RunIds(ins[..|ins| - 1]);
    }
  }

  /** A receive is attempted exactly in the cycles whose send succeeded, and a flush exactly in those that completed. */
  lemma {:induction false} RunFlushes(ins: seq<CycleInput>)
    ensures Run(ins).waited == IdsWhere(ins, QuerySent)
    ensures Run(ins).flushed == IdsWhere(ins, Completes)
  {
    if |ins| != 0 {
      var init := ins[..|ins| - 1];
      RunFlushes(init);
      RunIds(init);
      assert Run(ins).id == AttemptId(|ins|);
    }
  }

  /** Within any 65536 consecutive send attempts no ID repeats. */
  lemma IdsDistinctWithinWindow(ins: seq<CycleInput>, i: nat, j: nat)
    requires i < j < |ins| && j - i < 0x1_0000
    ensures Run(ins).sent[i] != Run(ins).sent[j]
  {
    RunIds(ins);
    ResiduesDiffer(i + 1, j + 1);
  }

  lemma ResiduesDiffer(a: nat, b: nat)
    requires a < b && b - a < 0x1_0000
    ensures a % 0x1_0000 != b % 0x1_0000
  {
    var qa, qb := a / 0x1_0000, b / 0x1_0000;
    var k, e := qb - qa, b % 0x1_0000 - a % 0x1_0000;
    assert a == qa * 0x1_0000 + a % 0x1_0000;
    assert b == qb * 0x1_0000 + b % 0x1_0000;
    assert b - a == k * 0x1_0000 + e;
    if k <= 0 {
      assert k * 0x1_0000 <= 0;
      assert e > 0;
    } else {
      assert k * 0x1_0000 >= 0x1_0000;
      assert e < 0;
    }
  }

  /** The attempt 65536 sends later carries the same ID again: the accepted collision across a wrap. */
  lemma IdsRepeatAfterWrap(ins: seq<CycleInput>, i: nat)
    requires i + 0x1_0000 < |ins|
    ensures Run(ins).sent[i] == Run(ins).sent[i + 0x1_0000]
  {
    RunIds(ins);
  }

  /** The loop's state, owned by the loop alone. */
  class Prober {
    const local: NetAddr
    var id: uint16
    ghost var sent: seq<uint16>
    ghost var waited: seq<uint16>
    ghost var flushed: seq<uint16>

    ghost function Trace(): ProbeTrace
      reads this
    {
      ProbeTrace(id, sent, waited, flushed)
    }

    /**
     * The counter is the number of send attempts modulo 65536; a cycle
     * waits only after a send and flushes only after a receive.
     */
    ghost predicate Valid()
      reads this
    {
      id == AttemptId(|sent|) && |flushed| <= |waited| <= |sent|
    }

    constructor (local: NetAddr)
      ensures Valid() && this.local == local && Trace() == Initial()
    {
      this.local := local;
      id := 0;
      sent, waited, flushed := [], [], [];
    }

    /** One iteration of the loop body; each `continue` of the source is a `return`. */
    method Cycle(c: CycleInput) returns (outcome: CycleOutcome)
      requires Valid()
      modifies this
      ensures Valid() && Trace() == Step(old(Trace()), c)
      ensures id == Inc(old(id)) && sent == old(sent) + [id]
      ensures waited == (if QuerySent(c) then old(waited) + [id] else old(waited))
      ensures flushed == (if Completes(c) then old(flushed) + [id] else old(flushed))
      ensures outcome == OutcomeOf(local, id, c)
    {
      IncAttemptId(|sent|);
      id := Inc(id);
      sent := sent + [id];
      if c.send.Fail? {
        outcome := SendFailed(c.send.error);
        return;
      }
      waited := waited + [id];
      var received := WaitForDNSResp(id, c.recv);
      if received.Fail? {
        outcome := ReceiveFailed(received.error);
        return;
      }
      flushed := flushed + [id];
      var flush := DeleteUDPConntrack(local, c.exec);
      outcome := Completed(flush);
    }

    /** The loop, run for the given cycles: every cycle runs, whatever the previous one's outcome. */
    method RunCycles(cycles: seq<CycleInput>) returns (outcomes: seq<CycleOutcome>)
      requires Valid()
      modifies this
      ensures Valid() && Trace() == RunFrom(old(Trace()), cycles)
      ensures |outcomes| == |cycles|
      ensures forall k :: 0 <= k < |cycles| ==>
                outcomes[k] == OutcomeOf(local, AttemptId(|old(sent)| + k + 1), cycles[k])
    {
      outcomes := [];
      ghost var t0 := Trace();
      var i := 0;
      while i < |cycles|
        invariant 0 <= i <= |cycles|
        invariant Valid() && Trace() == RunFrom(t0, cycles[..i])
        invariant |outcomes| == i
        invariant forall k :: 0 <= k < i ==>
                    outcomes[k] == OutcomeOf(local, AttemptId(|t0.sent| + k + 1), cycles[k])
      {
        var o := Cycle(cycles[i]);
        assert cycles[..i + 1][..i] == cycles[..i];
        outcomes := outcomes + [o];
        i := i + 1;
      }
      assert cycles[..i] == cycles;
    }
  }

  /**
   * `runLoop` over a finite prefix of its cycles: start-up, then the loop.
   * A start-up error returns before any socket is used or any cycle runs.
   * `trace` is the loop's ghost log: the IDs sent, awaited and flushed.
   */
  method RunLoop(dstArg: Option<string>, srcArg: Option<string>,
                 resolve: string -> Result<UdpAddr, string>,
                 interfaces: Result<seq<InterfaceAddr>, string>,
                 listen: UdpAddr -> Result<NetAddr, string>,
                 cycles: seq<CycleInput>)
    returns (r: Result<seq<CycleOutcome>, StartupError>, ghost trace: ProbeTrace)
    ensures Start(dstArg, srcArg, resolve, interfaces, listen).Err? ==>
              r == Err(Start(dstArg, srcArg, resolve, interfaces, listen).error) && trace == Initial()
    ensures Start(dstArg, srcArg, resolve, interfaces, listen).Ok? ==> trace == Run(cycles)
    ensures Start(dstArg, srcArg, resolve, interfaces, listen).Ok? ==>
              r.Ok? && |r.value| == |cycles| &&
              forall k :: 0 <= k < |cycles| ==>
                r.value[k] == OutcomeOf(Start(dstArg, srcArg, resolve, interfaces, listen).value.local,
                                        AttemptId(k + 1), cycles[k])
  {
    var setup := Start(dstArg, srcArg, resolve, interfaces, listen);
    if setup.Err? {
      return Err(setup.error), Initial();
    }
    var prober := new Prober(setup.value.local);
    assert |prober.sent| == 0;
    var outcomes := prober.RunCycles(cycles);
    return Ok(outcomes), prober.Trace();
  }
}
