# Verification of the UNP sample code

Dafny models of the parts of the `unpv13e` sources that hold an algorithm or a protocol, with proofs of what they
promise. `dafny verify dfyconfig.toml` checks all of it.

Code that works in place is modelled in place: the C functions become methods over arrays, and the C statics, records
and tables become classes, each method proved against a function on values. Where several parties share those
variables (a signal handler and its main loop, a client and its network, a parent and its children, threads), the same
functions are the steps of a state machine, and the properties are proved of every run of it, whatever the
interleaving. System calls are steps or arguments that may deliver anything their contract allows.

## What is modelled

| files | C code | what it does |
|---|---|---|
| Text, Inet4, InetAton | `inet_pton4`, `inet_ntop4`, `inet_aton` | dotted-quad text, and the laxer reader |
| Inet6, Inet6Parse | `inet_pton6` | a token-level reference, and the byte-by-byte parser with its in-place shift |
| Inet6Case | `inet_pton6` | digits and letters of either case |
| Inet6Print, Inet6RoundTrip, Inet6Embedded | `inet_ntop6` | the printer, the round trip, the canonical form, embedded IPv4 |
| Rfc4291 | `inet_pton6` | the text forms of section 2.2 of RFC 4291, and how far the parser accepts just those |
| Rtt, DgSendRecv, RequestReply | `lib/rtt.c`, `dg_send_recv` | estimators and timers, the client, and client, network and echo server together |
| Circular | the index arithmetic of three queues | the slots of a circular buffer |
| SigioEcho | `sigio/dgecho01.c` | the circular queue between a SIGIO handler and the main loop |
| AddrList, GaList | `ga_port`, `ga_clone`, `ga_serv`, `ga_aistruct` | the addrinfo list, on values and in the heap |
| Relay | `nonblock/strclinonb.c` | two linear buffers between four nonblocking ends |
| Dispatcher, Prefork | `serv05.c`, `child05.c` | the parent's tables, and parent, children and pipes together |
| ThreadPool, BoundedBuffer | `serv08.c`, `pthread08.c`, `example03.c` | two queues under mutexes and conditions, statement by statement |
| Readline | the three `readline` functions | buffered readers against the one-byte reader |
| Cksum | `in_cksum` | the Internet checksum with its 32-bit accumulator |
| WebClient | `web.c`, `start_connect.c`, `write_get_cmd.c` | the scheduler of nonblocking connections |

## Where the code does less than it says

The models follow the code. In these places it does not do what its comments, or a reader, would expect; each is stated
with the condition under which it does.

- `inet_pton.c:134` says that "::" in a full address is ignored. It zeroes everything after it
  (`Rfc4291.FullGapClearsTail`, `Rfc4291.FullGapExample`), and is ignored exactly when that is zero already
  (`Inet6.GapInFullAddress`).
- `inet_pton.c:131` says that valid addresses are accepted. They are, and so are texts with one colon at the end, with
  groups padded beyond four digits, with octets padded beyond three, and with "::" in a full address
  (`Rfc4291.TrailingColonExample`, `PaddedGroupExample`, `PaddedQuadExample`, `FullGapExample`), but nothing else
  (`Rfc4291.StandardUnlessQuirk`). The standard's octets may have leading zeros within three digits.
- `inet_aton` takes empty fields, and fields that wrap around an unsigned long, for bytes (`InetAton.EmptyFieldExample`,
  `InetAton.WrappingFieldExample`); that is all that it takes, with three dots, beyond `inet_pton4`
  (`InetAton.LaxMeetsStrict`).
- `inet_ntop4` compares the text's length without its terminator with the size given, so what it stores exceeds a size
  that is exactly that length, and no other that it accepts (`Inet4.InetNtop4`, `Inet4.TerminatorExample`).
- `dg_send_recv` matches replies by a 32-bit number, so call 2^32 + 1 can be answered by the reply to call 1
  (`RequestReply.StaleAfterWrap`); up to 2^32 calls it cannot happen (`RequestReply.NeverStale`).
- The SIGIO server exits with "receive overflow" on its eighth queued datagram, although it was stored
  (`SigioEcho.ExitsOnTheEighth`); the thread pool likewise on its thirty-second descriptor
  (`ThreadPool.OccupancyBound`).
- The relay returns at the server's end of file with what it has not written yet: all that the server sent is delivered
  exactly when the buffer for it is empty then (`Relay.ReturnDelivers`, `Relay.ReturnMayDropBytes`).
- `readline` returns the number of bytes it stored exactly if a newline is among the next maxlen - 1 bytes, or nothing
  is left to read; otherwise it returns one more (`Readline.ReturnedCounts`, `Readline.LibCounts`).
- `in_cksum` is right exactly when its accumulator does not overflow, for every length that fits an int
  (`Cksum.RightIffNoOverflow`, `Cksum.OverflowExample`).
- `web` with a connection limit below one waits for ever (`WebClient.SelectHasWork`).

## Model

| member | source | states |
|---|---|---|
| Inet4.Octets | Book Source Code/unpv13e/libfree/inet_pton.c:95-121 | the byte-by-byte scan of a dotted quad leaves the four values in the temporary buffer exactly when the text has four dot-separated, nonempty digit strings of value at most 255 |
| Inet4.InetPton4 | Book Source Code/unpv13e/libfree/inet_pton.c:76-125 | success is that grammar; the destination gets the four bytes at the given offset on success and is untouched otherwise |
| Inet4.NoQuad | Book Source Code/unpv13e/libfree/inet_pton.c:104-118 | once what has been read breaks a rule, no continuation of the text is a dotted quad, so the early returns of 0 lose nothing |
| Inet4.InetNtop4 | Book Source Code/unpv13e/libfree/inet_ntop.c:85-101 | what is stored is the four values joined by dots, with a terminator, or nothing exactly when the text alone is longer than the size; it fits the size unless the text is exactly as long |
| Inet4.TerminatorExample | Book Source Code/unpv13e/libfree/inet_ntop.c:95-99 | a size of 7 is accepted for 1.2.3.4, of which 8 characters are stored |
| Inet4.QuadRoundTrip | Book Source Code/unpv13e/libfree/inet_ntop.c:91-100 | the dotted-quad parser reads every printed four-byte address back as the same four bytes |
| Inet4.QuadTextShape | Book Source Code/unpv13e/libfree/inet_ntop.c:92-94 | a printed address has 7 to 15 characters, so it fits the local buffer |
| Inet4.QuadStartAsHex | Book Source Code/unpv13e/libfree/inet_pton.c:165-171 | any all-hexadecimal start of a dotted quad, accumulated in base sixteen as inet_pton6 does before it meets the dot, stays at or below 0xffff |
| Text.DecimalReadAsHex | Book Source Code/unpv13e/libfree/inet_pton.c:165-171 | a decimal numeral of value at most 255 has value at most 2457 when its digits are read as hexadecimal |
| Text.SplitJoin | Book Source Code/unpv13e/libfree/inet_pton.c:175-190 | cutting a joined text at its separator gives back the fields it was joined from |
| Text.JoinSplit | Book Source Code/unpv13e/libfree/inet_pton.c:175-190 | joining the fields of a prefix gives back that prefix |
| Text.DecReads | Book Source Code/unpv13e/libfree/inet_ntop.c:91-94 | a %u numeral reads back as its number and has no leading zero |
| Text.HexReads | Book Source Code/unpv13e/libfree/inet_ntop.c:181 | a %x numeral reads back as its number, in lower case, without a leading zero, in at most four digits for a 16-bit value |
| InetAton.InetAton | Book Source Code/unpv13e/libfree/inet_aton.c:22-75 | the do-while loop returns the address of the lax grammar: up to four fields, each a digit string whose value wrapped to an unsigned long is at most 255, possibly empty; for 32-bit and 64-bit longs |
| InetAton.LaxAcceptsQuads | Book Source Code/unpv13e/libfree/inet_aton.c:28-62 | every strict dotted quad is accepted with the same address |
| InetAton.LaxMeetsStrict | Book Source Code/unpv13e/libfree/inet_aton.c:41-57 | on texts with three dots inet_aton and inet_pton4 differ exactly when a field is empty or wraps around |
| InetAton.EmptyFieldExample | Book Source Code/unpv13e/libfree/inet_aton.c:45-57 | "1..2.3" is taken for 1.0.2.3 |
| InetAton.WrappingFieldExample | Book Source Code/unpv13e/libfree/inet_aton.c:41-57 | with a first field of 2^32 + 1, or 2^64 + 1 for a 64-bit long, 0.0.1 after it is taken for 1.0.0.1 |
| InetAton.MissingFieldsAreZero | Book Source Code/unpv13e/libfree/inet_aton.c:64-67 | with fewer than three dots the text means what it means with ".0" appended: the value read is not spread over the missing bytes |
| Inet6Parse.InetPton6 | Book Source Code/unpv13e/libfree/inet_pton.c:127-224 | the parser accepts exactly the texts that the token-level reference gives an address, stores that address, and leaves the destination alone otherwise |
| Inet6Parse.Tokens | Book Source Code/unpv13e/libfree/inet_pton.c:159-220 | from the current-token pointer on: the sixteen temporary bytes equal the reference address of the colon-separated fields |
| Inet6Parse.Colon | Book Source Code/unpv13e/libfree/inet_pton.c:175-190 | a colon either keeps the scan in step with the fields read so far (a group stored, or the place of the gap remembered) or no continuation is an address |
| Inet6Parse.Dot | Book Source Code/unpv13e/libfree/inet_pton.c:191-197 | a dot succeeds exactly when a dotted quad runs from the current token to the end of the text and there is room for it |
| Inet6Parse.LastToken | Book Source Code/unpv13e/libfree/inet_pton.c:199-204 | the terminator ends the last group, or the text has too many bytes for an address |
| Inet6Parse.ShiftTail | Book Source Code/unpv13e/libfree/inet_pton.c:205-218 | the in-place shift leaves the bytes before the gap, then zeros, then the tail; in an already full buffer it zeroes the tail |
| Inet6Parse.Finish | Book Source Code/unpv13e/libfree/inet_pton.c:205-220 | after the shift exactly sixteen bytes are there if and only if the fields denote an address |
| Inet6Parse.TooHigh | Book Source Code/unpv13e/libfree/inet_pton.c:170-171 | a token above 0xffff is in no accepted text, a dotted quad read as hexadecimal included |
| Inet6Parse.BadDot | Book Source Code/unpv13e/libfree/inet_pton.c:191-197 | a dot in any other place is in no accepted text |
| Inet6.GapInFullAddress | Book Source Code/unpv13e/libfree/inet_pton.c:134 | a "::" in a full address is ignored, as the notice promises, if and only if everything after it is zero |
| Inet6.DoneOkMeans | Book Source Code/unpv13e/libfree/inet_pton.c:175-190 | the tokens that colons end are groups, but for at most one empty one |
| Inet6Case.DigitValues | Book Source Code/unpv13e/libfree/inet_pton.c:145-168 | the values of the twenty-two hexadecimal digits, of either case, and that no other character is one |
| Inet6Case.CaseIsIgnored | Book Source Code/unpv13e/libfree/inet_pton.c:165-168 | exchanging the case of any letters of a text changes neither whether it is accepted nor its address |
| Inet6Case.UpperCaseExample | Book Source Code/unpv13e/libfree/inet_pton.c:145-174 | "ABCD::EF09" and "abcd::ef09" are ab cd, twelve zero bytes, ef 09 |
| Rfc4291.AcceptsStandard | Book Source Code/unpv13e/libfree/inet_pton.c:127-131 | every text form of section 2.2 of RFC 4291 is accepted |
| Rfc4291.FullAccepted | Book Source Code/unpv13e/libfree/inet_pton.c:159-204 | a text with all eight values (or six and a dotted quad) written out denotes exactly their bytes |
| Rfc4291.ShortAccepted | Book Source Code/unpv13e/libfree/inet_pton.c:205-218 | a text with "::" denotes the values before it, zeros, and the values after it |
| Rfc4291.DottedQuads | Book Source Code/unpv13e/libfree/inet_pton.c:191-197 | the dotted quads of the standard, four bytes of one to three digits, are those inet_pton4 takes with no octet padded beyond three digits |
| Rfc4291.StandardUnlessQuirk | Book Source Code/unpv13e/libfree/inet_pton.c:127-136 | a text is one of the standard if and only if the parser accepts it and it shows none of four liberties: a group of more than four digits, an octet of more than three, a single colon at the end, a "::" in a full address |
| Rfc4291.TrailingColonIgnored | Book Source Code/unpv13e/libfree/inet_pton.c:175-204 | a colon after eight written groups changes nothing, and makes the text none of the standard |
| Rfc4291.PaddedGroupTaken | Book Source Code/unpv13e/libfree/inet_pton.c:162-173 | a group padded with zeros is taken for its value, and is standard exactly up to four digits |
| Rfc4291.PaddedQuadTaken | Book Source Code/unpv13e/libfree/inet_pton.c:191-197 | "::" and any dotted quad, padded or not, is taken for its address, and is standard exactly if no octet has more than three digits |
| Rfc4291.TrailingColonExample | Book Source Code/unpv13e/libfree/inet_pton.c:175-204 | "1:2:3:4:5:6:7:8:" is accepted and is not standard |
| Rfc4291.PaddedGroupExample | Book Source Code/unpv13e/libfree/inet_pton.c:162-173 | "00001::" is accepted and is not standard |
| Rfc4291.PaddedQuadExample | Book Source Code/unpv13e/libfree/inet_pton.c:191-197 | "::0001.2.3.4" is accepted and is not standard |
| Rfc4291.FullGapExample | Book Source Code/unpv13e/libfree/inet_pton.c:213-216 | "1:2:3:4::5:6:7:8" is accepted, as 1:2:3:4:0:0:0:0, and is not standard |
| Rfc4291.FullGapClearsTail | Book Source Code/unpv13e/libfree/inet_pton.c:213-216 | a "::" in a full address makes every value after it read as zero, and the text none of the standard |
| Inet6Print.FindRun | Book Source Code/unpv13e/libfree/inet_ntop.c:135-156 | the scan finds the run that "::" is to stand for: the leftmost among the longest runs of zero groups, if it has two groups or more |
| Inet6Print.BestRun | Book Source Code/unpv13e/libfree/inet_ntop.c:135-156 | the run chosen is maximal, every run is at most as long and every run to its left is shorter; none is chosen exactly when no two neighbouring groups are zero |
| Inet6Print.BestRunUnique | Book Source Code/unpv13e/libfree/inet_ntop.c:145-153 | whatever run is leftmost and longest is the one chosen |
| Inet6Print.PrintGroups | Book Source Code/unpv13e/libfree/inet_ntop.c:161-183 | the formatting loop never runs past the local buffer and leaves the joined fields of the address, up to the colon of a trailing run |
| Inet6Print.InetNtop6 | Book Source Code/unpv13e/libfree/inet_ntop.c:103-198 | what is stored is the text of the address with its terminator, or nothing exactly when that exceeds the size given |
| Inet6RoundTrip.RoundTrip6 | Book Source Code/unpv13e/libfree/inet_ntop.c:132-197 | for all 2^128 addresses, parsing the printed text gives back the sixteen bytes |
| Inet6RoundTrip.PrintingInjective | Book Source Code/unpv13e/libfree/inet_ntop.c:132-197 | different addresses print differently |
| Inet6RoundTrip.ParsedIsFixed | Book Source Code/unpv13e/libfree/inet_pton.c:152-223 | whatever text an address was parsed from, printing it and parsing again gives the same address |
| Inet6RoundTrip.PrintsStandardText | Book Source Code/unpv13e/libfree/inet_ntop.c:158-188 | every printed text is one of section 2.2 of RFC 4291, so none of the four liberties is ever printed |
| Inet6RoundTrip.OnePairAtMost | Book Source Code/unpv13e/libfree/inet_ntop.c:163-169 | "::" occurs at most once in a printed text |
| Inet6RoundTrip.PairIffZeroRun | Book Source Code/unpv13e/libfree/inet_ntop.c:137-156 | "::" occurs in a printed text exactly when two neighbouring groups are zero (section 4.2 of RFC 5952) |
| Inet6RoundTrip.GroupsCanonical | Book Source Code/unpv13e/libfree/inet_ntop.c:170-182 | every field printed is empty, a lower-case group of one to four digits without leading zero (sections 4.1 and 4.3 of RFC 5952), or the closing dotted quad |
| Inet6RoundTrip.ShownParts | Book Source Code/unpv13e/libfree/inet_ntop.c:163-185 | with a run to shorten, the fields are the groups before it, one empty field, and the groups after it |
| Inet6RoundTrip.TextFits | Book Source Code/unpv13e/libfree/inet_ntop.c:122 | text and terminator never exceed 46 bytes |
| Inet6Embedded.EmbeddedBytes | Book Source Code/unpv13e/libfree/inet_ntop.c:173-175 | the test for an embedded IPv4 address holds exactly for ten zero bytes and two of ones, or twelve zero bytes and two not both zero |
| Inet6Embedded.QuadWhen | Book Source Code/unpv13e/libfree/inet_ntop.c:173-180 | a dotted quad ends the text exactly for these addresses, and then the text is "::ffff:" or "::", and the quad of the last four bytes |
| Inet6Embedded.MappedExample | Book Source Code/unpv13e/libfree/inet_ntop.c:173-180 | the mapped form of 1.2.3.4 prints as "::ffff:1.2.3.4" |
| Rtt.RttInfo.Initialize | Book Source Code/unpv13e/lib/rtt.c:22-35 | the structure afterwards is the initial one based at the current second |
| Rtt.InitValues | Book Source Code/unpv13e/lib/rtt.c:22-35 | after initialization nothing is measured, the deviation is 0.75 s, the timeout 3 s, and the timestamp counts from the current second |
| Rtt.RttInfo.StopTimer | Book Source Code/unpv13e/lib/rtt.c:79-102 | the structure afterwards is the one updated by the sample |
| Rtt.RttInfo.TimedOut | Book Source Code/unpv13e/lib/rtt.c:110-119 | the timeout doubles unclamped, the count goes up, and giving up is reported after RTT_MAXNREXMT retransmissions |
| Rtt.StopFollowsRfc6298 | Book Source Code/unpv13e/lib/rtt.c:85-101 | the in-place update equals the weighted means of section 2.3 of RFC 6298 with gains 1/8 and 1/4, the deviation taken from the old smoothed value, and the timeout is their combination wherever that lies within the limits |
| Rtt.TsDifference | Book Source Code/unpv13e/lib/rtt.c:45-54 | two timestamps with one base differ by the milliseconds between them, modulo 2^32 |
| Rtt.StopBounded | Book Source Code/unpv13e/lib/rtt.c:79-102 | a sample keeps the smoothed round trip between 0 and the largest sample and the deviation below max(0.75, largest sample), with the timeout in [2, 60] |
| Rtt.SmoothedBounded | Book Source Code/unpv13e/lib/rtt.c:79-102 | after samples of at most some number of seconds the smoothed round trip is between 0 and that number, and the deviation below that or 0.75 |
| Rtt.TimerRounds | Book Source Code/unpv13e/lib/rtt.c:62-67 | a timer is its timeout, doubled k times, to the nearest second |
| Rtt.TimersBounded | Book Source Code/unpv13e/lib/rtt.c:62-67 | from any first timeout in [2, 60], each of the four timers is at least 2 s and they sum to at most 900 s |
| DgSendRecv.Endpoint.Enter | Book Source Code/unpv13e/rtt/dg_send_recv.c:26-54 | entry initializes the estimators if needed, takes the next sequence number modulo 2^32 and resets the retransmission count |
| DgSendRecv.Endpoint.SendAgain | Book Source Code/unpv13e/rtt/dg_send_recv.c:56-63 | each transmission carries the current sequence number, a new timestamp and the caller's bytes, and starts a timer of the rounded timeout |
| DgSendRecv.Endpoint.OnAlarm | Book Source Code/unpv13e/rtt/dg_send_recv.c:68-79 | an alarm retransmits, or gives up and forgets the estimators |
| DgSendRecv.Endpoint.OnDatagram | Book Source Code/unpv13e/rtt/dg_send_recv.c:81-86 | only a datagram with the current sequence number ends the receive loop |
| DgSendRecv.Endpoint.Return | Book Source Code/unpv13e/rtt/dg_send_recv.c:88-92 | the returned bytes are the reply's, cut to the buffer, and the sample is the unsigned difference of timestamps |
| RequestReply.InvStep | Book Source Code/unpv13e/rtt/dg_send_recv.c:26-92 | each step of client, server, network or clock keeps the invariant |
| RequestReply.NeverStale | Book Source Code/unpv13e/rtt/dg_send_recv.c:81-92 | in every run of at most 2^32 calls over a network that loses, duplicates, delays and reorders, a call that returns delivers the first bytes of its own request, as many as its own length, 4088 and the buffer allow, and its sample is the time since the very transmission whose reply it took, modulo 2^32 ms |
| RequestReply.AcceptsIffCongruent | Book Source Code/unpv13e/rtt/dg_send_recv.c:86 | a reply ends the loop exactly when its call number is the current one modulo 2^32 |
| RequestReply.StaleAfterWrap | Book Source Code/unpv13e/rtt/dg_send_recv.c:32 | the bound is needed: there is a run in which call 2^32 + 1 delivers the reply to the first call |
| RequestReply.CallTimers | Book Source Code/unpv13e/rtt/dg_send_recv.c:54-79 | in every run a call makes at most 4 transmissions, each with one timer; the k-th timer is the first timeout (2 to 60 s) times 2^k, rounded; none is zero, they sum to at most 900 s, and exactly the alarm after the fourth gives up |
| RequestReply.EstimatorsAdapt | Book Source Code/unpv13e/rtt/dg_send_recv.c:26-90 | in every run the estimators are the formulas of section 2.3 of RFC 6298 folded over the round trips of the calls returned since one last gave up, from 0 and 0.75, and the first timer of a call is their clamped and rounded timeout |
| RequestReply.EstimatorsBounded | Book Source Code/unpv13e/lib/rtt.c:79-102 | so in every run the smoothed round trip is between 0 and any bound of these round trips, and the deviation below that or 0.75 |
| SigioEcho.EchoServer.SigIo | Book Source Code/unpv13e/sigio/dgecho01.c:77-108 | the handler stores what the socket holds, sender and first 4096 bytes, into the next slots, counts it, and exits when it finds the queue full |
| SigioEcho.EchoServer.EchoOne | Book Source Code/unpv13e/sigio/dgecho01.c:64-72 | from Sendto to the decrement, with no signal between, the loop takes the oldest queued datagram and leaves the rest of the queue in order |
| SigioEcho.LoopTurn | Book Source Code/unpv13e/sigio/dgecho01.c:57-73 | with something queued and no signal coming, seven steps of the loop send the oldest datagram and take it off the queue, and change nothing else |
| SigioEcho.StoreAllFills | Book Source Code/unpv13e/sigio/dgecho01.c:101-104 | the handler fills free slots in order and leaves the queued ones as they are |
| SigioEcho.InvStep | Book Source Code/unpv13e/sigio/dgecho01.c:56-107 | each arrival, signal or statement of the main loop keeps the invariant |
| SigioEcho.EchoedInOrder | Book Source Code/unpv13e/sigio/dgecho01.c:56-107 | for every interleaving, what arrived is what was echoed, then what the queue holds, then what the socket holds, in that order: nothing lost, repeated or reordered |
| SigioEcho.EchoesWhatCame | Book Source Code/unpv13e/sigio/dgecho01.c:64-99 | in every run the j-th echo goes to the sender of the j-th arrival, with the first 4096 bytes of its data or all of it |
| SigioEcho.SlotBeingSentIsSafe | Book Source Code/unpv13e/sigio/dgecho01.c:61-68 | a signal during Sendto leaves the slot being sent as it is |
| SigioEcho.AsleepMeansDone | Book Source Code/unpv13e/sigio/dgecho01.c:58-59 | while the loop sleeps with no signal pending, everything that arrived has been echoed |
| SigioEcho.ExitsOnTheEighth | Book Source Code/unpv13e/sigio/dgecho01.c:85-106 | the overflow exit is taken exactly when queued and newly read datagrams reach eight, although the eighth was stored and nothing has been lost |
| SigioEcho.HistogramAccounts | Book Source Code/unpv13e/sigio/dgecho01.c:85-107 | in every run the counters, each times its index, sum to the datagrams sent and queued together, but for those of a handler run that ended the program; the last counter is never used |
| GaList.GaClone | Book Source Code/unpv13e/libgai/ga_clone.c:7-30 | a fresh node with a fresh socket address goes in behind the original, with the family, type, protocol, address and port of the original, without AI_CLONE and the canonical name |
| GaList.Visit | Book Source Code/unpv13e/libgai/ga_port.c:37-63 | one turn of the walk replaces the entry by what the pass makes of it, keeps the list well linked with no sharing, and leaves the walk behind the clone |
| GaList.GaPort | Book Source Code/unpv13e/libgai/ga_port.c:29-66 | the walk ends although the list grows; the list afterwards is the pass applied to every original entry, and the count is that of the entries with a port that it reached |
| GaList.GaServ | Book Source Code/unpv13e/libgai/ga_serv.c:8-58 | the passes run are those the service string and socket type ask for, in order, and the code is success exactly when some pass found an entry |
| GaList.Builder.GaAistruct | Book Source Code/unpv13e/libgai/ga_aistruct.c:8-87 | the new entry, with the family, type, protocol and address asked for, no port and no canonical name, is linked in last, flagged for cloning when no socket type is asked for; the others stay as they are |
| GaList.BuiltEntries | Book Source Code/unpv13e/libgai/ga_aistruct.c:21-22 | entries built without a socket type are all open for cloning, and with one they all have it |
| AddrList.PassesMakeGroups | Book Source Code/unpv13e/libgai/ga_port.c:8-27 | from entries without a socket type, passes with distinct types leave each address as a contiguous group, addresses in order, and find each address with a port once a pass |
| AddrList.EachPassFindsAll | Book Source Code/unpv13e/libgai/ga_port.c:52-64 | each single pass returns the number of addresses that have ports |
| AddrList.GroupMembers | Book Source Code/unpv13e/libgai/ga_port.c:37-47 | a group has one entry a pass, field by field: the address itself for the first pass, and for each later one, the latest first, an unflagged entry without canonical name but with the same family, protocol and address, and the pass's type and port |
| AddrList.GroupGrows | Book Source Code/unpv13e/libgai/ga_port.c:37-64 | a further pass of a new type adds one entry behind the first of the group and leaves the ports of the earlier ones |
| AddrList.TwoAddressesTwoServices | Book Source Code/unpv13e/libgai/ga_port.c:8-17 | the four entries of the specification in the comment, field by field, for any two addresses and any two ports |
| AddrList.OthersUntouched | Book Source Code/unpv13e/libgai/ga_port.c:44-45 | entries without the flag and of another type are left alone |
| AddrList.NumericService | Book Source Code/unpv13e/libgai/ga_serv.c:16-31 | a service that starts with digits is the port they write, modulo 2^16, for the type asked for, or for both |
| AddrList.NamedService | Book Source Code/unpv13e/libgai/ga_serv.c:32-47 | any other is looked up for TCP and then for UDP, as far as the type asked for allows |
| AddrList.HttpExample | Book Source Code/unpv13e/libgai/ga_serv.c:16-31 | the service "80" is port 80 for both types |
| AddrList.OpenListServed | Book Source Code/unpv13e/libgai/ga_serv.c:50-56 | without a socket type, ga_serv succeeds if and only if the service gives at least one pass and some address has a port, and otherwise returns EAI_NONAME |
| AddrList.TypedListServed | Book Source Code/unpv13e/libgai/ga_serv.c:17-56 | with a socket type the list keeps its length, the one pass, if any, sets every port, and the code is success or EAI_SERVICE |
| Relay.Client.Ask | Book Source Code/unpv13e/nonblock/strclinonb.c:28-37 | the two sets passed to select name stdin before its end and the socket only with room to read into, and the outputs only with bytes to write |
| Relay.Client.OnStdin | Book Source Code/unpv13e/nonblock/strclinonb.c:42-62 | the stdin block moves the pointer past what it read, or notes end of file and sends FIN at once when nothing is buffered |
| Relay.Client.OnSocket | Book Source Code/unpv13e/nonblock/strclinonb.c:64-86 | the socket block stores what it read, or ends the function at end of file |
| Relay.Client.ToStdout | Book Source Code/unpv13e/nonblock/strclinonb.c:89-103 | what write took leaves the buffer from its front; an emptied buffer starts over |
| Relay.Client.ToSocket | Book Source Code/unpv13e/nonblock/strclinonb.c:105-122 | likewise towards the socket, with FIN after the last byte once stdin has ended |
| Relay.Client.Iterate | Book Source Code/unpv13e/nonblock/strclinonb.c:42-122 | one turn of the loop, block by block, is the turn of the specification, and what it writes is what the specification adds to the two outputs |
| Relay.TurnInv | Book Source Code/unpv13e/nonblock/strclinonb.c:27-123 | each turn keeps the account of both directions and the rules for FIN |
| Relay.TurnMoves | Book Source Code/unpv13e/nonblock/strclinonb.c:89-122 | in a turn that is not cut short, each output that is reported, or that there is new input for, takes exactly the bytes that write accepts from the front of what is pending, and another output none |
| Relay.AskedWhen | Book Source Code/unpv13e/nonblock/strclinonb.c:28-37 | in every run select is asked about an input exactly while it may deliver and there is room, and about an output exactly while bytes wait for it |
| Relay.NothingLostOrInvented | Book Source Code/unpv13e/nonblock/strclinonb.c:22-122 | after any number of turns with arbitrary short reads and writes, what was written, what is buffered and what is still to come are, in this order, all that stdin delivers and all that the server sends |
| Relay.FinExactlyWhenDone | Book Source Code/unpv13e/nonblock/strclinonb.c:51-53 | FIN is sent at most once with nothing after it, and is out exactly when stdin has ended and all that it delivered has been written |
| Relay.EndOfFileIsReal | Book Source Code/unpv13e/nonblock/strclinonb.c:43-76 | in every run, when the code has taken a return of 0 for the end of stdin, or of the socket, all that stdin delivers, or the server sends, has been read |
| Relay.AlwaysWaitsForSomething | Book Source Code/unpv13e/nonblock/strclinonb.c:28-39 | select always has a descriptor to wait for |
| Relay.ReturnDelivers | Book Source Code/unpv13e/nonblock/strclinonb.c:69-74 | at a normal return stdout has all that the server sent if and only if its buffer is empty, and else a prefix; likewise the server and stdin |
| Relay.ReturnMayDropBytes | Book Source Code/unpv13e/nonblock/strclinonb.c:69-74 | for every message that fits the buffer there is a run that returns normally with none of it written |
| Dispatcher.Parent.Assign | Book Source Code/unpv13e/server/serv05.c:54-62 | the first child with status 0 becomes busy and is counted; with none the tables stay as they are |
| Dispatcher.Parent.Scan | Book Source Code/unpv13e/server/serv05.c:70-80 | the children whose pipes are readable become free, until as many as select reported have been seen |
| Dispatcher.FirstFree | Book Source Code/unpv13e/server/serv05.c:54-56 | the child found is free and all before it are busy |
| Prefork.InvStep | Book Source Code/unpv13e/server/serv05.c:43-80 | each step of parent or child keeps the tables, the tokens and the scan in agreement |
| Prefork.AccountsAlwaysRight | Book Source Code/unpv13e/server/serv05.c:43-80 | in every run navail is the number of children with status 0, each count is the number of connections sent to that child, they sum to those accepted, and the "no available children" exit is never taken |
| Prefork.BusyMeansOneToken | Book Source Code/unpv13e/server/child05.c:40-50 | a child is busy exactly when one descriptor is on its way, being served, or answered by an unread ready byte; it never has two connections |
| Prefork.EachConnectionOnce | Book Source Code/unpv13e/server/serv05.c:64-65 | every accepted connection is, at every moment, in exactly one place: on its way to one child, with one child, or closed |
| Prefork.EarlyExitSkipsNobody | Book Source Code/unpv13e/server/serv05.c:77-78 | leaving the scan early skips no child that select reported |
| Prefork.ScanRefines | Book Source Code/unpv13e/server/serv05.c:70-80 | the scan taken step by step among the children's steps comes to what the loop computes in one go |
| Prefork.ScannedFrees | Book Source Code/unpv13e/server/serv05.c:70-80 | the loop frees the reported children and no other, and navail grows by their number |
| Prefork.ScanServesReported | Book Source Code/unpv13e/server/serv05.c:70-80 | whatever the children do meanwhile, when the parent is back in select it has read the ready byte of every child reported, and marked it free |
| Prefork.WorkFalls | Book Source Code/unpv13e/server/serv05.c:43-80 | every step but a new connection lowers a measure, so that without one the server comes to rest |
| Prefork.RestMeansFree | Book Source Code/unpv13e/server/child05.c:40-50 | and at rest every child is idle and available |
| Prefork.NeverStuck | Book Source Code/unpv13e/server/serv05.c:43-47 | with at least one child, some step is always possible |
| ThreadPool.Queue.AdvancePut | Book Source Code/unpv13e/server/serv08.c:41-44 | iput moves on round the ring; the exit is reported exactly when it meets iget |
| ThreadPool.Queue.Put | Book Source Code/unpv13e/server/serv08.c:40-44 | the ring holds one more descriptor, behind the others, unless it held MAXNCLI - 1; then, and only then, the exit is taken |
| ThreadPool.Queue.AdvanceGet | Book Source Code/unpv13e/server/pthread08.c:25-26 | iget moves on round the ring |
| ThreadPool.Queue.Take | Book Source Code/unpv13e/server/pthread08.c:24-26 | the oldest descriptor is taken and the others stay in order |
| ThreadPool.InvStep | Book Source Code/unpv13e/server/serv08.c:35-47 | each step of main or a worker, and each spurious wake-up, keeps mutual exclusion, the ring and the wake-up account |
| ThreadPool.TakenInOrder | Book Source Code/unpv13e/server/pthread08.c:20-32 | in every interleaving the accepted descriptors are those taken, then those queued, then the one in main's hand, in order |
| ThreadPool.ServesWhatItTook | Book Source Code/unpv13e/server/pthread08.c:24-31 | in every run a worker serves the descriptor of its own latest take |
| ThreadPool.OccupancyBound | Book Source Code/unpv13e/server/serv08.c:40-44 | outside the section that stores, the ring holds at most MAXNCLI - 1 descriptors, and main quits exactly when the one just stored is the MAXNCLI-th |
| ThreadPool.NoLostWakeup | Book Source Code/unpv13e/server/pthread08.c:21-23 | while a worker waits there are no more queued descriptors than workers woken or looking at the queue, and one that main is about to signal for; with the mutex free, no more than the woken ones |
| ThreadPool.QueuedNeverStuck | Book Source Code/unpv13e/server/pthread08.c:20-32 | with a worker at all and a descriptor queued, main or a worker can go on without a new connection or a spurious wake-up |
| ThreadPool.OwnStepsRunOut | Book Source Code/unpv13e/server/pthread08.c:20-32 | each step of main or a worker lowers a measure, so that without connections and spurious wake-ups the threads come to rest |
| BoundedBuffer.Buffer.Insert | Book Source Code/unpv13e/threads/example03.c:72-75 | the value goes into the slot at b_nextput and the counter goes up |
| BoundedBuffer.Buffer.Remove | Book Source Code/unpv13e/threads/example03.c:93-97 | the value at b_nextget is returned and the counter goes down |
| BoundedBuffer.SectionsCompose | Book Source Code/unpv13e/threads/example03.c:70-78 | the statements of a critical section, taken one at a time, come to the whole section |
| BoundedBuffer.ControlStep | Book Source Code/unpv13e/threads/example03.c:63-130 | each step keeps mutual exclusion, the agreement of counter and pointers, and the conditions under which a thread may wait |
| BoundedBuffer.ConsumedIsPrefix | Book Source Code/unpv13e/threads/example03.c:82-130 | in every interleaving the consumed values are a prefix of the produced ones, which are 0, 1, 2, ..., and at most BUFFSIZE lie between |
| BoundedBuffer.NeverBothWait | Book Source Code/unpv13e/threads/example03.c:67-68 | the two threads never both wait unsignalled, and until both are done one of them can go on |
| BoundedBuffer.StepsRunOut | Book Source Code/unpv13e/threads/example03.c:106-130 | each step of a thread lowers a measure, and when neither can step both are done with all 50 values consumed |
| Readline.ReadlineUnbuffered | Book Source Code/unpv13e/server/readline.c:4-27 | a failed or interrupted read ends the call with -1, and nothing else does; otherwise the stored bytes, the terminator, the value returned and the input left are those of the line specification |
| Readline.Reader.MyRead | Book Source Code/unpv13e/server/readline_r.c:5-25 | each call takes the next byte of the stream, whatever sizes read returns and however often it is interrupted; -1 is exactly an error other than an interruption, and takes nothing |
| Readline.Reader.ReadLine | Book Source Code/unpv13e/server/readline_r.c:38-61 | -1 is returned if and only if a read failed for another reason than an interruption; otherwise, for every chunking of the input, the stored bytes, the value and the place in the stream are those of the one-byte reader; with the library's end-of-file rule, what lib/readline.c returns |
| Readline.LineShape | Book Source Code/unpv13e/server/readline.c:11-25 | a line is the start of the stream up to a newline, unless maxlen - 1 bytes are stored or the stream ends before one |
| Readline.LineLengthIs | Book Source Code/unpv13e/server/readline.c:11-25 | these conditions determine the line |
| Readline.EndsLineWhen | Book Source Code/unpv13e/server/readline.c:11-15 | the stored line ends with a newline exactly when one is among the next maxlen - 1 bytes of the stream |
| Readline.ReturnedCounts | Book Source Code/unpv13e/server/readline.c:16-26 | for every stream and maxlen, the value returned is the number of bytes stored exactly when a newline is among the next maxlen - 1 bytes, or the stream has ended and maxlen is at least 2 |
| Readline.LibCounts | Book Source Code/unpv13e/lib/readline.c:40-48 | the library's value is the number of bytes stored exactly when a newline is among the next maxlen - 1 bytes or fewer than those are left; it differs from the other readers' exactly on a last line, not empty, without newline, that leaves the buffer room |
| Readline.LinesMakeStream | Book Source Code/unpv13e/server/readline.c:4-27 | with maxlen at least 2 the lines of repeated calls concatenate to the stream, and all but the last end with a newline or fill the buffer |
| Cksum.InCksum | Book Source Code/unpv13e/libfree/in_cksum.c:3-32 | the loop, the odd byte, the two folds and the complement come to the checksum of the sum modulo 2^32, in either byte order |
| Cksum.TwoFoldsSuffice | Book Source Code/unpv13e/libfree/in_cksum.c:27-30 | two folds of any 32-bit sum give its residue modulo 0xffff, zero only for zero |
| Cksum.ComplementOfOnesSum | Book Source Code/unpv13e/libfree/in_cksum.c:16-31 | if the accumulator does not overflow, the result is the complement of the ones' complement sum of RFC 1071 |
| Cksum.ShortBuffers | Book Source Code/unpv13e/libfree/in_cksum.c:16-31 | no buffer of up to 131074 bytes overflows the accumulator, so its result is the complement of the ones' complement sum |
| Cksum.RightIffNoOverflow | Book Source Code/unpv13e/libfree/in_cksum.c:16-31 | for every length that fits an int, the result is right if and only if the accumulator did not overflow |
| Cksum.OverflowExample | Book Source Code/unpv13e/libfree/in_cksum.c:16-31 | 131076 bytes of ones overflow the accumulator and have a wrong checksum |
| Cksum.Rfc1071Example | Book Source Code/unpv13e/libfree/in_cksum.c:16-31 | the eight bytes of section 3 of RFC 1071 have the checksum given there |
| Cksum.SmallExamples | Book Source Code/unpv13e/libfree/in_cksum.c:16-31 | the checksums of the bytes 1 and 2, and of 1 alone, on hosts of either byte order |
| Cksum.StoredChecksumVerifies | Book Source Code/unpv13e/ping/send_v4.c:17-19 | a packet whose checksum is stored in a word that was zero checks to 0 |
| Cksum.ByteOrderIndependent | Book Source Code/unpv13e/libfree/in_cksum.c:16-31 | on hosts of either byte order the same bytes result (section 2 of RFC 1071) |
| Cksum.SwappedWordsSwapResult | Book Source Code/unpv13e/libfree/in_cksum.c:16-31 | exchanging the bytes of every word of an even-length buffer exchanges the bytes of the result |
| WebClient.Web.WriteGetCmd | Book Source Code/unpv13e/nonblock/write_get_cmd.c:3-18 | the file is being read and its descriptor is in the read set |
| WebClient.Web.StartConnect | Book Source Code/unpv13e/nonblock/start_connect.c:3-31 | the file gets its descriptor and waits for the connection, or is asked for at once |
| WebClient.Web.Fill | Book Source Code/unpv13e/nonblock/web.c:33-43 | connections are started on the first untouched files until there are enough |
| WebClient.Web.LookAtFiles | Book Source Code/unpv13e/nonblock/web.c:49-79 | each file whose descriptor is ready has its turn |
| WebClient.FilledInv | Book Source Code/unpv13e/nonblock/web.c:33-43 | starting connections keeps the counters and sets right, finds a file each time, and stops at the limit or when none is left |
| WebClient.StartedAs | Book Source Code/unpv13e/nonblock/start_connect.c:20-30 | a connection in progress is waited for in both sets, one already made is read from, and no other file changes |
| WebClient.CountersExact | Book Source Code/unpv13e/nonblock/web.c:28-80 | at every head of the outer loop the three counters are those of the file table, connections never exceed the limit, and the two sets hold exactly the descriptors being waited for |
| WebClient.SelectHasWork | Book Source Code/unpv13e/nonblock/web.c:38-47 | "nothing found" is unreachable, and select has a descriptor to wait for if and only if at least one connection is allowed |
| WebClient.OnlyForward | Book Source Code/unpv13e/nonblock/web.c:49-79 | no file ever goes back to an earlier state |
| WebClient.ReportsServed | Book Source Code/unpv13e/nonblock/web.c:49-79 | each descriptor that select reports belongs to exactly one file, which has its turn |
| WebClient.EndsWhenAllDone | Book Source Code/unpv13e/nonblock/web.c:32 | the outer loop ends exactly when every file has been read to its end |

All paths are under `Book Source Code/unpv13e/`; the line numbers are of those files.

## Left out

- The dispatch on the address family in `inet_pton` and `inet_ntop`. What is stored at `dst` is a
  result; none stands for NULL with ENOSPC. C strings are sequences without their terminator.
- The byte order and the store of `inet_aton`'s address (`htonl`, `*ap`): its result is a number in host order.
- Rtt.RttInfo.StopTimer: estimators are exact reals, so the rounding of `float` and `double` is not modelled. The clock
  is an argument and does not go back.
- DgSendRecv.Endpoint.SendAgain: an alarm before `sigsetjmp` has been called, and `siglongjmp` out of an unfinished
  `recvmsg`, are not modelled.
- Replies that no echo server sent, and datagrams corrupted on the way, are outside the network that runs describe.
- SigioEcho.EchoServer.SigIo: client addresses are opaque values; errors of `recvfrom` other than EWOULDBLOCK, and the
  SIGHUP report, are not modelled.
- GaList.GaServ: `getservbyname` is an argument, `atoi` does not overflow, and a port is the number that is read back.
- GaList.Builder.GaAistruct: the EAI_SERVICE return for a local path that is too long, after which the list holds an
  entry without an address, the unlink of a passive local path, and address lengths.
- Allocation failures, in the list functions and elsewhere.
- The switch to nonblocking mode in the relay; a `read` or `write` that fails ends its run, as `err_sys` does.
- The death of a child of the preforked server, errors of its descriptor passing, and the SIGINT reports.
- The pool's per-thread counters, which only their own thread touches.
- Readline.Reader.ReadLine: the static buffer of `lib/readline.c` belongs to one reader, so sharing it between
  descriptors is not modelled, nor is `readlinebuf`; after an error nothing is claimed of the stored bytes.
- Cksum.InCksum: the buffer is a sequence of bytes, so the alignment of 16-bit accesses is not modelled.
- WebClient.Web.StartConnect: name lookup, exits by `err_sys`, the home page and the text of the request. A connection
  that failed is asked for all the same, as in the code.
- The select server `tcpcliserv/tcpservselect01.c`: its table, sets and early exit repeat what is proved of the parent
  in Prefork and of the scheduler in WebClient.
- The duplicate bitmap of `ping/bsdping.c` and the chunked writer of `sock/write.c`: small bookkeeping by one party.
