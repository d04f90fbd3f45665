# DNS blackhole tester — a verified model

The tester is a periodic probe. It sends a DNS query over UDP to a fixed
destination once per interval and waits up to ten seconds for one reply.
After a successful exchange it deletes the kernel connection-tracking entry
of its own UDP endpoint with the `conntrack` tool, so that the next query
goes through the address-translation rules again. Any missing
destination-NAT rule for a service IP then shows up as a blackholed query.

This project models the deterministic part of `main.go` in Dafny:

- **Start-up** (`Startup.Start`). The `-d` destination is required. It and
  an explicit `-s` source are resolved. Without `-s`, the source is chosen
  from the interface addresses. Finally the socket is bound.
- **Source-address selection** (`SourceAddress`). The selector scans the
  interface addresses in order. It returns the first one that is an IP
  network address, is not loopback and is IPv4, with port 0. If no entry
  qualifies, it returns an error.
- **The conntrack command** (`Conntrack`). A non-UDP address is rejected.
  Otherwise the command is the 9-word argument vector
  `conntrack -D -p udp --src <ip> --sport <port> --dst-nat`. The port is
  written in decimal as `strconv.Itoa` writes it (`Decimal`).
- **The probe loop** (`ProbeLoop`). A `Prober` object holds the `uint16`
  transaction counter. Its `Cycle` method is one iteration of the `for`
  loop. The results of sending, receiving and running conntrack are
  inputs. Ghost logs record the IDs sent, the IDs waited for and the IDs
  whose cycle flushed. The pure functions `Step` and `Run` specify the
  same behaviour, and the lemmas about whole runs are stated on them.

Two details of the loop are easy to misread:

- A failed `waitForDNSResp` (a timeout or a malformed reply) goes to
  `continue` (main.go:76-79), so that cycle skips the flush. A cycle
  flushes exactly when the send and the receive both succeeded.
- The reply's ID is only printed next to the expected one (main.go:176).
  Any datagram that unpacks is a success, whatever its ID.

## Model

| member | source | states |
|---|---|---|
| `Decimal.Digits` | main.go:120 | the decimal digits of a natural number: at least one digit, all of them digits, and a leading '0' only for zero itself |
| `Decimal.Itoa` | main.go:120 | `strconv.Itoa`: the text starts with '-' exactly for negative numbers, everything after the sign is digits, at least one digit follows a sign, and there is no leading zero ("0" only for zero) |
| `Decimal.ParseItoa` | main.go:120 | reading the rendered port back gives the same number, so the rendering loses nothing |
| `Decimal.ItoaInjective` | main.go:120 | different ports are rendered as different strings |
| `SourceAddress.FirstUsable` | main.go:95-104 | the index found is the first one in list order that passes the IPNet, non-loopback and IPv4 test; no index is found exactly when no entry passes |
| `SourceAddress.SelectSource` | main.go:95-106 | the chosen address has port 0 and the IP of the first qualifying entry; the result is the "could not find" error exactly when no entry qualifies |
| `SourceAddress.LookupSrcAddrFromInterfaces` | main.go:89-107 | the scanning loop with its early return: a failed interface enumeration is passed on as an error, otherwise the result is the first-match selection |
| `SourceAddress.SelectionIgnoresLaterEntries` | main.go:95-104 | once an entry qualifies, appending any entries after it does not change the choice |
| `SourceAddress.UnusableEntriesAreSkipped` | main.go:95-104 | entries that fail the test can be removed from the front of the list without changing the choice |
| `Conntrack.ConntrackArgs` | main.go:111-122 | a non-UDP address yields the "Expected UDP address" error; a UDP address yields 9 words: `conntrack -D -p udp --src`, then the address's IP text, `--sport`, its port in decimal, and `--dst-nat` last |
| `Conntrack.ArgsTargetSource` | main.go:117-122 | the IP and the decimal port can be read back from the argument vector, so the command names exactly the probe's own endpoint |
| `Conntrack.ArgsInjective` | main.go:118-122 | two UDP endpoints get the same command only if they have the same IP text and port |
| `Conntrack.DeleteUDPConntrack` | main.go:111-132 | a non-UDP address fails before the tool is run, whatever running it would give; otherwise the command run is `ConntrackArgs` of the address, the flush succeeds exactly when that command succeeded, and its failure is reported as the error |
| `DnsExchange.WaitForDNSResp` | main.go:161-178 | a receive succeeds exactly when one datagram arrived and unpacked. The expected ID plays no part. A deadline error, a timeout, a read error and an unpack error each come back as their own error |
| `DnsExchange.MismatchedIdIsSuccess` | main.go:171-177 | a reply whose ID differs from the one sent is a success, just like the expected one |
| `Startup.Start` | main.go:32-58 | an empty or missing destination is an error before anything else; then, in order, a failed `-d` resolution, a failed `-s` resolution, a failed interface enumeration, no usable interface address and a failed bind each give their own error; when every step succeeds the result is the resolved `-d`, the source (the resolved `-s` when `-s` is given, the interface selection otherwise) and the local address of the socket bound to it, and a success is only ever that |
| `Startup.ExplicitSourceWins` | main.go:42-53 | with a non-empty `-s`, the interface list does not affect start-up |
| `Startup.NoBindAfterEarlierError` | main.go:33-58 | if start-up fails before the bind step, its result does not depend on binding, so no socket is opened |
| `ProbeLoop.Inc` | main.go:62-67 | `id++` on a `uint16` is the successor modulo 65536, so 65535 is followed by 0 |
| `ProbeLoop.OutcomeOf` | main.go:64-86 | a failed send ends the cycle with that error; the cycle completes (and flushes) exactly when the send succeeded and a datagram unpacked; a completed cycle reports the flush result; a timeout is a receive failure |
| `ProbeLoop.StepMatchesOutcome` | main.go:64-86 | the log of a cycle agrees with the outcome the cycle reports: it sends the next ID, logs a wait exactly when the outcome is not a send failure, and logs a flush of that ID exactly when the outcome is `Completed`; at most one entry is added to each log and earlier entries are kept |
| `ProbeLoop.RunFrom` | main.go:64-86 | every cycle makes exactly one send attempt, whatever the outcome of the cycle before it |
| `ProbeLoop.Run` | main.go:62-86 | from a fresh start, n cycles make n send attempts |
| `ProbeLoop.RunIds` | main.go:62-67 | the counter starts at 0 and is incremented before each send, so the k-th attempt carries ID k mod 65536, also after a failed send, and the counter ends at n mod 65536 |
| `ProbeLoop.RunFlushes` | main.go:70-85 | a wait happens in exactly the cycles whose send succeeded, and a flush in exactly those whose receive also succeeded. Both are listed by those cycles' IDs, in order |
| `ProbeLoop.IdsDistinctWithinWindow` | main.go:62-67 | no ID repeats within any 65536 consecutive send attempts |
| `ProbeLoop.IdsRepeatAfterWrap` | main.go:62-67 | the attempt 65536 sends later reuses the same ID: the collision across a wrap is real and not detected |
| `ProbeLoop.Prober.constructor` | main.go:62-63 | the counter starts at 0 with empty logs |
| `ProbeLoop.Prober.Cycle` | main.go:64-86 | one loop iteration: increments the counter and logs the send; on a failed send it returns without waiting; on a failed receive it returns without flushing; otherwise it flushes once. The state it leaves is `Step` of the old one, and the counter stays equal to the number of sends mod 65536 |
| `ProbeLoop.Prober.RunCycles` | main.go:64-86 | the loop runs every given cycle whatever the previous outcome, including a flush error. Its state is `RunFrom` of the old state, and the k-th outcome is that of the cycle carrying the k-th next ID |
| `ProbeLoop.RunLoop` | main.go:32-86 | a start-up error is returned before any cycle runs, leaving the loop's log empty. Otherwise the log is `Run` of the cycles, so cycle k (from 1) sends ID k mod 65536 (`RunIds`), and every cycle's outcome is that of the cycle on the bound local address, whose flush runs the conntrack command for that address |

## Left out

- DNS wire encoding and decoding (`sendDNSQuery`, `msg.Unpack`, main.go:134-178) belong to `golang.org/x/net/dns/dnsmessage`, which is not part of this model. A send is a success or an error, and a received datagram either unpacks to a header ID or is malformed.
- `dnsmessage.MustNewName` panics on a name it rejects (main.go:142), which would end the process. The library's name rules are not part of this model, so neither is that panic.
- Sockets, `ListenUDP`, `WriteToUDP`, `ReadFromUDPAddrPort` and `SetReadDeadline`: their results are inputs. The sleep of `-i` seconds between cycles (one by default, main.go:19 and main.go:65) and the ten-second read deadline are wall-clock timing and are not modelled.
- The 64 KiB receive buffer `recvBuf` is not modelled. Its bytes only feed the unpacker, which is outside the model.
- Running `conntrack` with `exec.Command(...).CombinedOutput()`: what running a command line returns is a function given as input, and the printed output is dropped.
- `net.InterfaceAddrs`, `net.ResolveUDPAddr`, `IP.IsLoopback`, `IP.To4` and `IP.String` are calls into the `net` package. An IP carries its text and the loopback and IPv4 answers as plain values. Resolution, enumeration and binding are parameters of `Startup.Start`.
- Flag parsing, `os.Exit` and all console logging (main.go:15-30 and the `fmt.Printf` calls) are not modelled. A missing flag is `None`, and an empty one is `Some("")`.
- ProbeLoop.Prober.RunCycles: the source loop never ends; the model runs a given finite sequence of cycles. Every property is stated for every finite prefix.
- Ports are rendered by an `Itoa` defined on unbounded integers, which agrees with `strconv.Itoa` on every value of Go's 64-bit `int`.
