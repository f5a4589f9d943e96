# Link layers of oFono: a verified model

This project models, in Dafny, the link layers under `gatchat` and the request matching in
`gisi`, and proves what they keep over every run and every input.

* **PPP** (`PppCp`, `PppTable`, `PppMeeting`, `PppRetransmit`, `PppOptions`, `PppIpcp`,
  `PppLcp`, `PppOptionBytes`, `PppLink`, `PppSafety`, `PppReplies`, `PppRuns`,
  `PppScenarios`, `PppPair`, `PppFraming`, `PppWire`, `Ppp`). The option-negotiation automaton
  is one function on values, its table taken cell by cell and shown to follow rules; two
  automata whose requests and Acks cross in any order come up. `PppLink` couples two
  automata, LCP and IPCP, with the phase, the tunnel, authentication and the end of the link,
  and defines what each input does with all its nested notifications; `PppSafety` and
  `PppRuns` prove invariants over every run of it, `PppReplies` says what each frame of a
  peer is answered with, `PppPair` that a client and a server come up with each other
  whenever their packets arrive, and `PppScenarios` runs a link into the states where it
  surprises. `Ppp` has the same as objects updated in place; an object is always where a run
  of the link leads, so what is proved about runs holds of it. The IPCP and LCP drivers
  parse, answer and print real option lists. `PppWire` puts framing and HDLC together.
* **HDLC framing** (`CrcCcitt`, `RingBuffer`, `HdlcCodec`, `HdlcWire`, `Hdlc`). A queue of
  ring buffers filled in place across the wrap point and drained by partial writes, an
  incremental decoder, and the proof that every payload arrives exactly and in order through
  any reads.
* **GSM 07.10 multiplexer** (`MuxCrc`, `Gsm0710`, `MuxTransfer`, `MuxReads`, `MuxWire`,
  `MuxFrames`, `GatMux`). Both frame formats, resynchronisation, in-place unquoting with what
  it reads beyond short frames, fragmentation, the receive buffer and the channel buffers,
  with stream preservation and isolation from end to end.
* **ISI transactions** (`IsiModem`). Transaction ids that wrap, the pending list, timeouts
  and counts.

What a sender and a receiver agree on could be agreed wrongly by both. `PppReplies`,
`PppOptionBytes`, `HdlcWire` and `MuxWire` therefore state codes, option numbers, escapes,
header bytes and whole frames in the numbers of the standards.

The objects hold an abstract value (`View`, `Contents`, `Pending`, `Queued`), their methods
are proved against functions on such values, and the lemmas about whole runs are about those
functions. Ghost histories (packets sent, signals, frames accepted, notices given) make
"at most once", "in order" and "since the latest request" statable.

## Where the code does something else than one might expect

These are proved with the exact condition, or with an input that shows it.

* A link whose line is lost while its own close is unanswered never reports its end
  (`LineLossEndsLinkIff`, `LineLossWhileClosing`).
* A failed IPCP renegotiation in the link-up phase is ignored: the link stays up without
  IPCP and without a tunnel (`FailedNegotiationEndsLinkIff`,
  `TimedOutNegotiationEndsLinkIff`).
* While IPCP renegotiates in the link-up phase, received datagrams are handed to a tunnel
  that is not there (`DatagramFindsTunnelIff`).
* After the peer reopens negotiation on an open IPCP, its correct Ack of our new request is
  dropped unless the old options equal the defaults (`AckAfterReopeningIff`).
* A Terminate-Request during negotiation starts the terminate timer, which can end the
  negotiation early or take the request counter below zero (`InterruptionCosts`,
  `CounterWraps`).
* Closing a negotiation leaves two timers running. Depending on their order the exchange
  ends on time, early, or with the terminate counter below zero (`SilenceWhileClosingIff`).
* Server settings given to a client are lost again with the next Ack
  (`ServerInfoOnClient`).
* A request with six wrong options outgrows the buffer of an IPCP server
  (`ServerRcr`, `SixCorrections`).
* All Code-Rejects carry identifier 1 (`CodeRejectsShareIdentifier`), although the comment at
  `ofono-bt/gatchat/ppp_cp.c:556-558` says the identifier must change.
* An IPCP client counts refused options in a single byte and accepts a request whose refused
  options add up to a multiple of 256 bytes (`ClientReplyIs`, `OversizedRefusalAccepted`).
* In advanced mode the multiplexer checks frames shorter than a header against bytes around
  them, unless they end in the first four bytes of the search, so what it finds depends on
  where reads end (`ReadBoundariesIrrelevantIff`, `ReadBoundaryMatters`).
* A multiplexer frame larger than the 4096-byte receive buffer ends all reading
  (`StreamArrivesIff`, `BigFrameDelivers`).
* ISI requests are refused as busy while the one 255 requests earlier is outstanding, even if
  all other transaction ids are free (`BusyIffLastRoundOutstanding`).

The first four of these are reached by concrete runs of a client
(`LossReached`, `FailureReached`, `ReopeningReached`).

## Assumptions

Allocation succeeds. Control packets have a sound length field and well-formed option lists
(`PppLink.Sound`), since the C code reads past the buffer otherwise; for the same reason a
frame of one byte is taken to be an IP header, as any other would be rejected with a length
of minus one. A link is opened or
listened on once. The opening-flag mode is chosen before the first frame. A receiver never
gets more than 4096 decoded bytes without a flag (`HdlcCodec.Fits`; proved for streams of
accepted frames). Creating a tunnel may fail, and the framer may refuse a packet: both are
inputs of every step. The byte that lies in front of the multiplexer's receive buffer is a
parameter.

## Model

| member | source | states |
|---|---|---|
| PppSafety.EveryRunCoupled | ofono-bt/gatchat/gatppp.c:348-464 | after every event of every run of a client or server link: LCP is opened exactly in the authentication, network and link-up phases; IPCP is outside Initial and Starting exactly in the network and link-up phases; the tunnel exists exactly while IPCP is opened; timers match states in both automata |
| PppSafety.EveryRunOrderly | ofono-bt/gatchat/gatppp.c:389-464 | in every run, an IPCP packet is only ever sent between LCP's layer-up and its next layer-down, and up and down signals of each protocol alternate, up first |
| PppSafety.EveryRunNegotiated | ofono-bt/gatchat/ppp_cp.c:743-773 | in every run: AckRcvd or Opened means an Ack with the identifier of the latest Configure-Request was accepted and no newer one sent; AckSent or Opened means the latest reply to the peer was an Ack |
| PppSafety.EveryRunReportsOnce | ofono-bt/gatchat/gatppp.c:98-124 | in every run the disconnect callback runs at most once and only in a dead link; a dead link has run it, has it scheduled, or waits for its last Terminate-Ack, and exactly one of these |
| PppSafety.DeadIsFinal | ofono-bt/gatchat/gatppp.c:144-168 | once an opened link is dead, no input generates an event, sends a packet or moves an automaton |
| PppSafety.DeadStaysDead | ofono-bt/gatchat/gatppp.c:144-168 | the same for every continuation of the run |
| PppSafety.RunKeeps | ofono-bt/gatchat/gatppp.c:538-558 | every run of link inputs keeps the whole link invariant (history, timers, coupling, end accounting) |
| PppSafety.StepKeeps | ofono-bt/gatchat/gatppp.c:170-236 | every single input keeps the link invariant, whatever the surroundings decide about tunnel and framer |
| PppSafety.LcpEventKeeps | ofono-bt/gatchat/gatppp.c:438-464 | an LCP event with all nested notifications leaves phase, IPCP and tunnel coupled again, and says when the link dies |
| PppSafety.IpcpEventKeeps | ofono-bt/gatchat/gatppp.c:389-436 | an IPCP event with all nested notifications (tunnel failure and failed negotiation included) leaves the link coupled and alive |
| PppSafety.LcpDownKeeps | ofono-bt/gatchat/gatppp.c:450-459 | LCP going down takes IPCP and the tunnel with it |
| PppSafety.StartKeeps | ofono-bt/gatchat/gatppp.c:374-387 | opening and raising IPCP gets it to work from any state, also when authentication succeeds a second time |
| PppSafety.CloseAfterFinish | ofono-bt/gatchat/gatppp.c:427-436 | closing IPCP from its own finished notification raises no further signal |
| PppSafety.LineLossEndsLinkIff | ofono-bt/gatchat/gatppp.c:497-507 | losing the line makes the link dead if and only if LCP was not in Initial, Closed or Closing |
| PppSafety.LineLossWhileClosing | ofono-bt/gatchat/gatppp.c:497-507 | in those three states the end is then reported in no continuation at all |
| PppSafety.FailedNegotiationEndsLinkIff | ofono-bt/gatchat/gatppp.c:427-436 | an IPCP negotiation ended by a packet of the peer takes the link down if and only if the phase is still Network; a link that was up once stays in link-up without IPCP or tunnel |
| PppSafety.TimedOutNegotiationEndsLinkIff | ofono-bt/gatchat/gatppp.c:427-436 | the same for a negotiation ended by a timer whose counter is used up |
| PppSafety.DatagramFindsTunnelIff | ofono-bt/gatchat/gatppp.c:216-219 | in every run a received datagram is handed to the tunnel only in the link-up phase, and there is a tunnel if and only if IPCP is opened |
| PppSafety.ClosingState | ofono-bt/gatchat/gatppp.c:642-649 | an open link that is shut down is in its termination phase; no link is open after it |
| PppSafety.AckAfterReopeningIff | ofono-bt/gatchat/ppp_ipcp.c:175-186 | when the peer reopens negotiation on an open IPCP, an Ack repeating our latest request exactly is accepted if and only if the old options equal the defaults the driver fell back to |
| PppSafety.LcpEventInitial | ofono-bt/gatchat/ppp_cp.c:110-143 | in Initial no event but Up and Open moves LCP or kills the link |
| PppPair.ClientMeetsServer | ofono-bt/gatchat/gatppp.c:520-558 | a client that opens and a server that listens, any settings of which none is zero, and any order of arrivals: something is always on its way until each has heard six packets, then both links are up with their tunnels and the client has the settings of the server |
| PppMeeting.MeetingOpens | ofono-bt/gatchat/ppp_cp.c:110-143 | two automata whose requests and Acks cross: whatever the order of delivery, four packets are delivered, then both are open, each has told the layer above once and nothing is on its way; until then something is |
| PppTable.TableFollowsRules | ofono-bt/gatchat/ppp_cp.c:110-143 | every cell of the table, by rules on whether the layer below is up, whether the protocol is wanted open, and what of the negotiation has been acknowledged |
| PppTable.StandingsDiffer | ofono-bt/gatchat/ppp_cp.c:110-143 | the ten states are the ten ways these can stand, so the rules determine the table |
| PppCp.TimersKept | ofono-bt/gatchat/ppp_cp.c:598-694 | every event keeps timers in line with states: none in resting states, the config timer while negotiating, the terminate timer while terminating |
| PppCp.TimeoutKeepsTimers | ofono-bt/gatchat/ppp_cp.c:273-304 | a running timer never raises an illegal event, and its timeout keeps timers and states in line |
| PppCp.TableTimers | ofono-bt/gatchat/ppp_cp.c:110-143 | the table enters a negotiating state only with a request or from one, and a terminating state likewise |
| PppCp.TableTimeouts | ofono-bt/gatchat/ppp_cp.c:110-143 | a timeout is legal exactly in the states that are not resting |
| PppCp.HistoryKept | ofono-bt/gatchat/ppp_cp.c:628-694 | one event keeps the negotiation history in line with the state |
| PppCp.TableHistory | ofono-bt/gatchat/ppp_cp.c:110-143 | what the table demands of history: AckRcvd and Opened are entered without a new request, AckSent and Opened with the latest reply an Ack |
| PppCp.TableSignals | ofono-bt/gatchat/ppp_cp.c:110-143 | layer-up is raised exactly on entering Opened, layer-down exactly on leaving it, finished only into Initial, Closed or Stopped |
| PppCp.NotedEffects | ofono-bt/gatchat/ppp_cp.c:378-477 | what requests, Acks, Naks and Rejects an event sends, as seen in the history |
| PppReplies.AuthenticationDecides | ofono-bt/gatchat/ppp_auth.c:121-146 | a CHAP frame on an authenticating or open link: code 3 starts the network phase and IPCP with LCP as it was, code 4 ends the link for failed authentication, every other code changes nothing |
| PppReplies.LcpCompleted | ofono-bt/gatchat/gatppp.c:438-448 | the Ack that completes LCP: the link waits for authentication if it was agreed, and IPCP asks at once if not |
| PppReplies.IpcpCompleted | ofono-bt/gatchat/gatppp.c:389-415 | the Ack that completes IPCP: the link is up with its tunnel, or LCP is closed because there is none |
| PppReplies.LcpRequestAnswered | ofono-bt/gatchat/ppp_cp.c:716-741 | a request to a negotiating LCP: Ack, Nak or Reject under its identifier, and only an Ack takes effect; after too many failures it is rejected as it is |
| PppReplies.IpcpRequestAnswered | ofono-bt/gatchat/ppp_cp.c:716-741 | the same for IPCP, where a client takes the address of its peer whatever it answers |
| PppReplies.IpcpCorrected | ofono-bt/gatchat/ppp_cp.c:775-814 | a Nak or Reject of the latest IPCP request is answered by a request under the next identifier, with the settings it leads to |
| PppReplies.LcpCorrected | ofono-bt/gatchat/ppp_cp.c:775-814 | the same for LCP, where a Reject changes nothing |
| PppReplies.StaleAnswersIgnored | ofono-bt/gatchat/ppp_cp.c:743-814 | an answer under another identifier, or an Ack with other options, changes nothing at all |
| PppReplies.EchoAnswered | ofono-bt/gatchat/ppp_cp.c:575-596 | an open LCP answers an Echo-Request under its own identifier with four zero bytes; nothing else changes |
| PppReplies.UnknownCodeReturned | ofono-bt/gatchat/ppp_cp.c:542-570 | a code the protocol does not know comes back in a Code-Reject byte for byte; nothing else changes |
| PppReplies.RepliesIgnored | ofono-bt/gatchat/ppp_cp.c:880-890 | Echo-Reply and Discard-Request change nothing |
| PppReplies.EndedByPeer | ofono-bt/gatchat/ppp_cp.c:816-872 | Terminate-Request, Code-Reject or Protocol-Reject on an open LCP: what is sent, and that the link goes down because the peer closed it |
| PppReplies.PeerEndsAtOnce | ofono-bt/gatchat/ppp_cp.c:360-366 | after a Terminate-Request one timeout ends the protocol |
| PppReplies.DroppedByPhase | ofono-bt/gatchat/gatppp.c:144-168 | which protocols are not heard in which phase, by number; a datagram never changes the link |
| PppReplies.ForeignReturned | ofono-bt/gatchat/ppp_cp.c:907-943 | on a link that is up a protocol nobody handles comes back in a Protocol-Reject with its number and information |
| PppReplies.ReasonsGiven | ofono-bt/gatchat/gatppp.c:497-507 | the reason reported after a shutdown, a lost line and a failed IPCP negotiation |
| PppRetransmit.SilenceEnds | ofono-bt/gatchat/ppp_cp.c:273-287 | a silent peer while one timer runs: exactly counter+1 timeouts; the counter says how often the same packet is repeated, then every timer stops in Stopped or Closed and finished is signalled once |
| PppRetransmit.CloseLeavesBoth | ofono-bt/gatchat/ppp_cp.c:110-143 | closing a negotiation leaves its timer running beside that of the Terminate-Request |
| PppRetransmit.SilenceWhileClosingIff | ofono-bt/gatchat/ppp_cp.c:273-287 | with both timers running a silent peer ends the exchange with exactly counter+1 timeouts if and only if the configure timer goes off before the last of them when requests were left, and as the last when none was; otherwise it ends early, or the terminate counter passes below zero and the exchange goes on |
| PppRetransmit.TermTimerFirst | ofono-bt/gatchat/ppp_cp.c:273-287 | if the terminate timer is always first, counter+1 timeouts end the exchange |
| PppRetransmit.AskedTenTimes | ofono-bt/gatchat/ppp_cp.c:348-406 | a negotiation nobody answers sends the same request ten times in all, under a new identifier, and is given up |
| PppRetransmit.ToldTwice | ofono-bt/gatchat/ppp_cp.c:484-511 | closing an open protocol tells a silent peer twice and is then over |
| PppRetransmit.Retransmissions | ofono-bt/gatchat/ppp_cp.c:378-406 | n timeouts of the one timer running repeat the same packet n times, identifier and options included, and take n off the counter |
| PppRetransmit.EveryRunCounted | ofono-bt/gatchat/ppp_cp.c:348-406 | in every run without a Terminate-Request in the middle of a negotiation the counter stays within 0..10 and is 10 in AckRcvd and Opened |
| PppRetransmit.CountersKept | ofono-bt/gatchat/ppp_cp.c:628-694 | one event keeps the Configure-Request budget |
| PppRetransmit.InterruptionCosts | ofono-bt/gatchat/ppp_cp.c:516-535 | a Terminate-Request during negotiation: the negotiation ends at the next terminate timeout exactly if that counter is zero, and the budget survives exactly if it is zero or a request was left |
| PppRetransmit.CounterWraps | ofono-bt/gatchat/ppp_cp.c:516-535 | a concrete run in which the counter passes below zero |
| PppRetransmit.CodeRejectsShareIdentifier | ofono-bt/gatchat/ppp_cp.c:542-570 | every Code-Reject of every run carries identifier 1 |
| PppRuns.EveryAckAgrees | ofono-bt/gatchat/ppp_cp.c:743-773 | in every run of a link whose owner gives server settings to servers only, every accepted Ack repeats the current settings: IPCP keeps all of its own, LCP puts exactly the map it asks for into force |
| PppRuns.RunIsCurrent | ofono-bt/gatchat/ppp_cp.c:373-406 | in every such run the request each automaton would send carries the current settings of its driver |
| PppRuns.ServerInfoOnClient | ofono-bt/gatchat/ppp_ipcp.c:124-132 | given name servers as if it were a server, a client loses them with the next Ack, if and only if they are not zero |
| PppRuns.EveryLinkRunCounted | ofono-bt/gatchat/ppp_cp.c:348-406 | in every run of a link without a Terminate-Request in the middle of a negotiation, the request counters of LCP and IPCP stay within 0..10 and are 10 in AckRcvd and Opened |
| PppRuns.AckAnswersRequest | ofono-bt/gatchat/ppp_cp.c:411-432 | the Ack one automaton sends for the request of another is accepted there |
| PppRuns.VerdictReachesPeer | ofono-bt/gatchat/ppp_cp.c:437-477 | the list a driver answers with is returned under the code of its verdict while failures are few; after that everything is rejected |
| PppRuns.FreshLink | ofono-bt/gatchat/gatppp.c:775-798 | a new link escapes everything, compresses nothing, has a unit of 1500 and expects no authentication |
| PppRuns.CompressionOffered | ofono-bt/gatchat/ppp_lcp.c:77-120 | switching a compression on or off puts option 8 or 7 into the next LCP request or takes it out, and does nothing else |
| PppScenarios.ReopeningReached | ofono-bt/gatchat/gatppp.c:216-219 | a run of a client that comes up, in which after the peer reopens IPCP a datagram is handed to no tunnel and the correct Ack of the latest request is not accepted |
| PppScenarios.FailureReached | ofono-bt/gatchat/gatppp.c:427-436 | a run that ends in the link-up phase with IPCP stopped and no tunnel |
| PppScenarios.LossReached | ofono-bt/gatchat/gatppp.c:497-507 | a run in which a link closed before the peer answered loses its line, and whose end is then reported in no continuation |
| PppControlProtocol.ControlProtocol.constructor | ofono-bt/gatchat/ppp_cp.c:1001-1031 | a new automaton: Stopped if dormant, Initial otherwise |
| PppControlProtocol.ControlProtocol.GenerateEvent | ofono-bt/gatchat/ppp_cp.c:628-694 | state, packets and signal after one event are those of the transition function |
| PppControlProtocol.ControlProtocol.Act | ofono-bt/gatchat/ppp_cp.c:628-677 | the sending actions of a table cell, in their order |
| PppControlProtocol.ControlProtocol.SendConfigureRequest | ofono-bt/gatchat/ppp_cp.c:378-406 | new identifier exactly for a first request; counter down, timer on |
| PppControlProtocol.ControlProtocol.SendConfigureNak | ofono-bt/gatchat/ppp_cp.c:437-477 | Nak, Reject of the list, or Reject of everything after too many failures; the list is used up |
| PppControlProtocol.ControlProtocol.SendTerminateRequest | ofono-bt/gatchat/ppp_cp.c:484-511 | new identifier exactly for a first request; counter down, timer on |
| PppControlProtocol.ControlProtocol.SendTerminateAck | ofono-bt/gatchat/ppp_cp.c:516-535 | echoes the identifier and starts the terminate timer |
| PppControlProtocol.ControlProtocol.TimerFires | ofono-bt/gatchat/ppp_cp.c:273-287 | the fired timer is off; which timeout event, by its counter |
| Ppp.GAtPpp.constructor | ofono-bt/gatchat/gatppp.c:775-798 | a new link of either kind is the start of a run |
| Ppp.GAtPpp.Guarantees | ofono-bt/gatchat/gatppp.c:348-464 | between events an object has the coupling, timers, history and end accounting of every run: it is where a run of the link function leads |
| Ppp.GAtPpp.Raise | ofono-bt/gatchat/ppp_cp.c:628-694 | one event of one automaton, logged |
| Ppp.GAtPpp.IpcpDown | ofono-bt/gatchat/ppp_ipcp.c:175-186 | default options back, tunnel gone |
| Ppp.GAtPpp.StartNetwork | ofono-bt/gatchat/gatppp.c:374-387 | phase Network, IPCP opened and raised |
| Ppp.GAtPpp.LcpUpNotify | ofono-bt/gatchat/gatppp.c:438-448 | authentication if expected, otherwise on to the network phase |
| Ppp.GAtPpp.LcpDownNotify | ofono-bt/gatchat/gatppp.c:450-459 | IPCP down in the network phases, reason, phase Termination |
| Ppp.GAtPpp.LcpEvent | ofono-bt/gatchat/gatppp.c:438-464 | an LCP event and all nested notifications equal the link function |
| Ppp.GAtPpp.IpcpUpNotify | ofono-bt/gatchat/gatppp.c:389-415 | tunnel made and phase LinkUp, or LCP closed |
| Ppp.GAtPpp.IpcpFinishedNotify | ofono-bt/gatchat/gatppp.c:427-436 | only in phase Network: IPCP and LCP closed |
| Ppp.GAtPpp.IpcpEvent | ofono-bt/gatchat/gatppp.c:389-436 | an IPCP event and all nested notifications equal the link function |
| Ppp.GAtPpp.LcpRcr | ofono-bt/gatchat/ppp_lcp.c:222-328 | verdict and answer; parameters change only if every option was accepted |
| Ppp.GAtPpp.LcpCheck | ofono-bt/gatchat/ppp_lcp.c:230-283 | the first unacceptable option decides |
| Ppp.GAtPpp.LcpApply | ofono-bt/gatchat/ppp_lcp.c:285-327 | parameters after applying the accepted options in order |
| Ppp.GAtPpp.LcpRca | ofono-bt/gatchat/ppp_lcp.c:158-182 | the receive map after an accepted Ack |
| Ppp.GAtPpp.LcpRcnNak | ofono-bt/gatchat/ppp_lcp.c:184-214 | the receive unit taken over from a Nak |
| Ppp.GAtPpp.ProcessLcpRequest | ofono-bt/gatchat/ppp_cp.c:716-741 | a Configure-Request to LCP: failures first, then the driver |
| Ppp.GAtPpp.ProcessIpcpRequest | ofono-bt/gatchat/ppp_cp.c:716-741 | a Configure-Request to IPCP, as client or server; says exactly when the answer of a server outgrows its driver |
| Ppp.GAtPpp.ProcessConfigureAck | ofono-bt/gatchat/ppp_cp.c:743-773 | an Ack counts exactly if identifier and options match |
| Ppp.GAtPpp.ProcessConfigureNak | ofono-bt/gatchat/ppp_cp.c:775-788 | a Nak counts exactly if the identifier matches |
| Ppp.GAtPpp.ProcessConfigureReject | ofono-bt/gatchat/ppp_cp.c:790-814 | a Reject counts exactly if the identifier matches |
| Ppp.GAtPpp.ProcessCode | ofono-bt/gatchat/ppp_cp.c:892-904 | driver action and event by packet code |
| Ppp.GAtPpp.ProcessPacket | ofono-bt/gatchat/ppp_cp.c:948-969 | a control packet from its bytes to its event |
| Ppp.GAtPpp.AuthNotify | ofono-bt/gatchat/gatppp.c:374-387 | success starts the network phase, failure closes LCP |
| Ppp.GAtPpp.ProcessChap | ofono-bt/gatchat/ppp_auth.c:121-146 | success and failure codes only |
| Ppp.GAtPpp.SendProtocolReject | ofono-bt/gatchat/ppp_cp.c:907-943 | sent only while LCP is opened |
| Ppp.GAtPpp.Receive | ofono-bt/gatchat/gatppp.c:170-236 | header, phase check and dispatch of a received frame are one step of a run, exactly unless the answer of a server outgrows its driver; a dead link hears nothing |
| Ppp.GAtPpp.TimerFires | ofono-bt/gatchat/ppp_cp.c:273-287 | a timeout with everything it sets off is one step of a run |
| Ppp.GAtPpp.Open | ofono-bt/gatchat/gatppp.c:538-558 | LCP raised and opened; the link is establishing, nothing is up and nothing reported |
| Ppp.GAtPpp.Listen | ofono-bt/gatchat/gatppp.c:520-535 | LCP waiting; the link is establishing, nothing is up and nothing reported |
| Ppp.GAtPpp.Shutdown | ofono-bt/gatchat/gatppp.c:642-649 | LCP and the tunnel are gone; a link that was open is terminating |
| Ppp.GAtPpp.IoDisconnect | ofono-bt/gatchat/gatppp.c:497-507 | LCP and the tunnel are gone; the link is dead unless LCP was in Initial, Closed or Closing |
| Ppp.GAtPpp.StaSent | ofono-bt/gatchat/gatppp.c:114-124 | the Terminate-Ack has left; a dead link reports its end now, for the first and last time |
| Ppp.GAtPpp.IdleRuns | ofono-bt/gatchat/gatppp.c:98-112 | the idle source reports the end of a dead link, for the first and last time |
| PppFraming.HeaderRoundTripIff | ofono-bt/gatchat/gatppp.c:170-346 | a protocol number survives all four compression settings with every payload if and only if its high byte is even and, if that is zero, its low byte is odd and not 0xff |
| PppFraming.Transmitter.Transmit | ofono-bt/gatchat/gatppp.c:329-346 | a fresh packet leaves in the form its protocol and settings ask for; LCP frames of codes 1 to 7 go out with everything escaped and the map is restored |
| PppFraming.Transmitter.SendLcpFrame | ofono-bt/gatchat/gatppp.c:238-283 | header, map and the pending Terminate-Ack |
| PppFraming.Transmitter.SendAcfcPfcFrame | ofono-bt/gatchat/gatppp.c:301-322 | the in-place shuffle for each setting |
| PppFraming.LinkProtocolsCarried | ofono-bt/gatchat/ppp.h:24-29 | the link's own protocols can all be carried |
| PppFraming.FormsAre | ofono-bt/gatchat/gatppp.c:238-346 | the header bytes of a packet in each of the compressed forms |
| PppFraming.HeaderRead | ofono-bt/gatchat/gatppp.c:170-212 | how each form is read, and which are too short |
| PppWire.PacketsArrive | ofono-bt/gatchat/gatppp.c:170-346 | framing and HDLC together: whatever the compression settings and reads, packets of every protocol that can be carried come out with the protocol and information they were sent with, in order, all of them in the end |
| PppOptions.ParsePrint | ofono-bt/gatchat/ppp_cp.c:219-248 | printing a list of options and iterating over it gives the list back |
| PppOptions.PrintParse | ofono-bt/gatchat/ppp_cp.c:219-248 | iterating over a well-formed list and printing gives the bytes back; on any other list the parser of the model stops short |
| PppOptions.OptionIter.Next | ofono-bt/gatchat/ppp_cp.c:230-248 | the iterator yields the parsed options one by one |
| PppIpcpOptions.RequestRoundTrip | ofono-bt/gatchat/ppp_ipcp.c:81-106 | iterating the generated list yields exactly the requested options with current values, in at most 30 bytes |
| PppIpcpOptions.AckChangesNothingIff | ofono-bt/gatchat/ppp_ipcp.c:193-227 | an Ack repeating a list generated from earlier settings changes none of a client's settings if and only if those asked for then have not changed since |
| PppIpcpOptions.NaksTaken | ofono-bt/gatchat/ppp_ipcp.c:229-271 | after Naks a setting is asked for if it was or is mentioned, with the value given last |
| PppIpcpOptions.NakAppearsInNextRequest | ofono-bt/gatchat/ppp_ipcp.c:229-271 | each Nak'd value of a client is in its next request |
| PppIpcpOptions.RejsTaken | ofono-bt/gatchat/ppp_ipcp.c:273-305 | a Reject removes exactly the options it mentions and changes no value |
| PppIpcpOptions.RejectedStaysOut | ofono-bt/gatchat/ppp_ipcp.c:273-305 | a rejected option is in no later request until a Nak names it or the layer goes down |
| PppIpcpOptions.ClientReplyIs | ofono-bt/gatchat/ppp_ipcp.c:382-435 | a client returns exactly what it refuses while that is under 256 bytes; it accepts exactly when the size is a multiple of 256, so it is right if and only if the size is zero or no such multiple |
| PppIpcpOptions.OversizedRefusalAccepted | ofono-bt/gatchat/ppp_ipcp.c:382-435 | a concrete request that is accepted although both its options are refused |
| PppIpcpOptions.ServerAcceptsIff | ofono-bt/gatchat/ppp_ipcp.c:307-380 | a server accepts exactly requests naming only what it serves with its configured non-zero values |
| PppIpcpOptions.ClientLearnsSettings | ofono-bt/gatchat/ppp_ipcp.c:229-380 | a fresh client and any server: after one Reject and one Nak the client asks for exactly the server's settings, and is accepted if and only if none is unset |
| PppOptionBytes.ClientAsksFor | ofono-bt/gatchat/ppp_ipcp.c:81-106 | the thirty bytes of a client's first request |
| PppOptionBytes.ServerAsksFor | ofono-bt/gatchat/ppp_ipcp.c:81-132 | a server asks for its own address if it has one and for nothing else |
| PppOptionBytes.AnswersTaken | ofono-bt/gatchat/ppp_ipcp.c:193-305 | what an Ack, a Nak or a Reject of each option does to the settings, by option number, one after the other |
| PppOptionBytes.ClientRefuses | ofono-bt/gatchat/ppp_ipcp.c:382-435 | a client refuses everything but an address that is not zero, in the order of the request |
| PppOptionBytes.ClientHearsLast | ofono-bt/gatchat/ppp_ipcp.c:382-435 | a client takes the address its peer gave last |
| PppOptionBytes.ServerSorts | ofono-bt/gatchat/ppp_ipcp.c:307-345 | what a server does not serve and what it corrects, by option number and in order |
| PppOptionBytes.ServerAnswers | ofono-bt/gatchat/ppp_ipcp.c:346-380 | a server rejects what it does not serve; only if that is nothing it corrects; only if there is nothing to correct it accepts |
| PppOptionBytes.LcpAsksFor | ofono-bt/gatchat/ppp_lcp.c:77-120 | the option number of each thing LCP asks for |
| PppOptionBytes.LcpAccepts | ofono-bt/gatchat/ppp_lcp.c:230-283 | the options LCP accepts, by number and value |
| PppOptionBytes.LcpJudges | ofono-bt/gatchat/ppp_lcp.c:230-283 | the first option not accepted decides: Nak with CHAP and MD5 for another authentication, Reject for anything else |
| PppOptionBytes.SuggestionAccepted | ofono-bt/gatchat/ppp_lcp.c:230-283 | the authentication suggested in that Nak would be accepted |
| PppOptionBytes.LcpNakTaken | ofono-bt/gatchat/ppp_lcp.c:184-214 | a Nak counts where it names a unit below 2048 |
| PppOptionBytes.LcpAckTaken | ofono-bt/gatchat/ppp_lcp.c:158-182 | the last map an Ack names comes into force |
| PppOptionBytes.NumbersAre | ofono-bt/gatchat/ppp_lcp.c:158-214 | two and four byte numbers go high byte first |
| PppIpcp.Ipcp.constructor | ofono-bt/gatchat/ppp_ipcp.c:462-495 | initial settings and options of client and server |
| PppIpcp.Ipcp.GenerateConfigOptions | ofono-bt/gatchat/ppp_ipcp.c:90-106 | the option buffer holds the requested options |
| PppIpcp.Ipcp.ResetConfigOptions | ofono-bt/gatchat/ppp_ipcp.c:108-132 | the defaults of client and server |
| PppIpcp.Ipcp.Rca | ofono-bt/gatchat/ppp_ipcp.c:193-227 | the settings after an Ack |
| PppIpcp.Ipcp.RcnNak | ofono-bt/gatchat/ppp_ipcp.c:229-271 | the settings and the new list after a Nak; a server ignores it |
| PppIpcp.Ipcp.RcnRej | ofono-bt/gatchat/ppp_ipcp.c:273-305 | the settings and the new list after a Reject |
| PppIpcp.Ipcp.ClientRcr | ofono-bt/gatchat/ppp_ipcp.c:382-435 | the client's answer and the peer address it learns, single-byte length included |
| PppIpcp.Ipcp.ServerRcr | ofono-bt/gatchat/ppp_ipcp.c:307-380 | the server's answer; its corrections stay within the 30-byte buffer if and only if at most five options it serves disagree |
| PppIpcp.SixCorrections | ofono-bt/gatchat/ppp_ipcp.c:307-345 | a well-formed request of six options that outgrows the buffer of every server |
| PppLcpOptions.RequestRoundTrip | ofono-bt/gatchat/ppp_lcp.c:77-120 | iterating the generated list yields exactly the requested options, in at most 14 bytes |
| PppLcpOptions.AckSetsRequestedMap | ofono-bt/gatchat/ppp_lcp.c:158-182 | an Ack of our own request puts exactly the requested map into force |
| PppLcpOptions.AcceptIffAllAcceptable | ofono-bt/gatchat/ppp_lcp.c:222-282 | a request is accepted if and only if every option is acceptable |
| PppLcpOptions.CompressionIsMutual | ofono-bt/gatchat/ppp_lcp.c:285-327 | compression is switched on exactly if offered and asked for; the map and unit offered last win |
| HdlcCodec.ChunkedTransfer | ofono-bt/gatchat/gathdlc.c:245-329 | end to end: any prefix of the stream of accepted frames, in reads of any sizes, stays within the decode buffer and delivers the first payloads exactly and in order; the whole stream delivers them all |
| HdlcCodec.StreamDelivered | ofono-bt/gatchat/gathdlc.c:245-329 | a fresh receiver delivers every payload of a stream and consumes all of it |
| HdlcCodec.PartialStreamDelivered | ofono-bt/gatchat/gathdlc.c:245-329 | at every moment the payloads delivered are the first ones sent |
| HdlcCodec.ReadsJoin | ofono-bt/gatchat/gathdlc.c:245-329 | reads of any sizes have the effect of one |
| HdlcCodec.FeedAppend | ofono-bt/gatchat/gathdlc.c:245-329 | a read may be split anywhere |
| HdlcCodec.FeedFrame | ofono-bt/gatchat/gathdlc.c:581-641 | an encoded frame is delivered as its payload and leaves the receiver between frames |
| HdlcCodec.FrameDeliveredIff | ofono-bt/gatchat/gathdlc.c:285-311 | a frame is delivered as sent if and only if every byte of payload and check sequence the receiver drops is escaped |
| HdlcCodec.FullMapReachesAll | ofono-bt/gatchat/gatppp.c:251-259 | with everything escaped a frame reaches every receiver |
| HdlcCodec.StepKeepsInStep | ofono-bt/gatchat/gathdlc.c:285-311 | the running check value is always that of the bytes stored |
| HdlcCodec.StreamFits | ofono-bt/gatchat/gathdlc.c:533-643 | frames that fit a write buffer never overflow the decode buffer |
| HdlcCodec.DamagedFrameDropped | ofono-bt/gatchat/gathdlc.c:285-311 | of two bodies differing inside two neighbouring bytes at most one is delivered |
| HdlcWire.ToggleIsXor | ofono-bt/gatchat/gathdlc.c:285-290 | escaping a byte is exclusive-or with 0x20 |
| HdlcWire.StuffedBytes | ofono-bt/gatchat/gathdlc.c:581-600 | flag and escape go out as 7d 5e and 7d 5d, a control character as 7d and its value plus 0x20 exactly if its bit in the map is set |
| HdlcWire.StoredBytes | ofono-bt/gatchat/gathdlc.c:282-311 | what each received byte does: unescaped, dropped by the map, stored, or the end of a frame |
| HdlcWire.CarriageReturnStops | ofono-bt/gatchat/gathdlc.c:262-275 | a carriage return before a frame stops the receiver exactly where NO CARRIER is looked for |
| HdlcWire.AskingFrame | ofono-bt/gatchat/gathdlc.c:533-643 | a whole frame on the line, check bytes included |
| HdlcWriter.StuffStep | ofono-bt/gatchat/gathdlc.c:581-600 | one turn of the stuffing loop |
| HdlcWriter.StuffInto | ofono-bt/gatchat/gathdlc.c:581-629 | stuffed bytes behind what is there, exactly if they fit; check value computed on the way |
| HdlcWriter.Put | ofono-bt/gatchat/gathdlc.c:564-600 | a byte stored across the wrap point, queued bytes untouched |
| HdlcWriter.EncodeFrame | ofono-bt/gatchat/gathdlc.c:533-643 | a whole frame made readable exactly if all of it fits |
| Hdlc.Hdlc.constructor | ofono-bt/gatchat/gathdlc.c:331-385 | an empty sender and a fresh receiver |
| Hdlc.Hdlc.Send | ofono-bt/gatchat/gathdlc.c:533-643 | all or nothing: accepted exactly if the encoding fits the room it gets; a rejected frame leaves the queue alone; bytes written and queued are always the accepted frames in order |
| Hdlc.Hdlc.PickBuffer | ofono-bt/gatchat/gathdlc.c:539-556 | the newest buffer or a new one, at most 65 in all |
| Hdlc.Hdlc.CanWriteData | ofono-bt/gatchat/gathdlc.c:470-505 | any partial write removes exactly the bytes taken; drained buffers are dropped |
| Hdlc.Hdlc.DecodeByte | ofono-bt/gatchat/gathdlc.c:282-311 | one received byte |
| Hdlc.Hdlc.NewBytes | ofono-bt/gatchat/gathdlc.c:245-329 | a read is decoded as the receiver function says, up to a carriage return where a frame should start, and drained |
| CrcCcitt.TableDrivenIsBitwise | ofono-bt/gatchat/crc-ccitt.c:28-61 | the table-driven check value equals the bit-at-a-time register on every message |
| CrcCcitt.CrcByteIsShiftByte | ofono-bt/gatchat/crc-ccitt.h:30-33 | one lookup is eight shifts of the reversed polynomial 0x8408 |
| CrcCcitt.GoodFcsIffTail | ofono-bt/gatchat/gathdlc.c:604-606 | a body ends in 0xf0b8 if and only if its last two bytes are the complemented check value, low byte first |
| CrcCcitt.BurstErrorDetected | ofono-bt/gatchat/gathdlc.c:285-311 | bodies differing only inside two neighbouring bytes have different check values |
| CrcCcitt.AlteredByteDetected | ofono-bt/gatchat/gathdlc.c:285-311 | altering one byte of a good body makes it bad |
| RingBuffers.RingBuffer.New | ofono-bt/gatchat/ringbuffer.c:42-70 | capacity is the least power of two holding the size asked for, capped at 262144 |
| RingBuffers.RingBuffer.Write | ofono-bt/gatchat/ringbuffer.c:72-93 | appends the first min(len, room) bytes |
| RingBuffers.RingBuffer.Read | ofono-bt/gatchat/ringbuffer.c:117-139 | removes and returns the oldest min(len, held) bytes |
| RingBuffers.RingBuffer.WriteAdvance | ofono-bt/gatchat/ringbuffer.c:109-115 | makes that many prepared bytes readable |
| RingBuffers.RingBuffer.Drain | ofono-bt/gatchat/ringbuffer.c:141-151 | removes a prefix; counters restart at zero when empty |
| RingBuffers.RingBuffer.Reset | ofono-bt/gatchat/ringbuffer.c:175-182 | empty |
| RingBuffers.RingBuffer.ReadIsContiguous | ofono-bt/gatchat/ringbuffer.c:153-165 | the no-wrap length and read pointer name exactly the contiguous front |
| RingBuffers.RingBuffer.WriteIsContiguous | ofono-bt/gatchat/ringbuffer.c:95-107 | likewise for the free cells |
| RingBuffers.RingBuffer.PointersWrap | ofono-bt/gatchat/ringbuffer.c:95-165 | pointers into the ring for any counter values, 32-bit overflow included |
| RingArithmetic.SlotAfter | ofono-bt/gatchat/ringbuffer.c:95-99 | masking a wrapped 32-bit counter is the index modulo the size |
| MuxReads.BasicReadBoundariesIrrelevant | ofono-bt/gatchat/gatmux.c:1034-1060 | basic mode, arbitrary bytes, garbage and bad frames included: the packets handed out do not depend on where reads end |
| MuxReads.ReadBoundariesIrrelevantIff | ofono-bt/gatchat/gsm0710.c:97-170 | advanced mode: the packets handed out are those of the stream, wherever reads end and whatever lies in front of the buffer, if and only if no search that begins at a flag or before the first takes a frame of fewer than three bytes |
| MuxReads.ReadBoundaryMatters | ofono-bt/gatchat/gsm0710.c:121-145 | five bytes that read at once give what the program takes for a data packet of length -1, and read in two parts give nothing |
| MuxReads.FeedingIs | ofono-bt/gatchat/gatmux.c:1188-1214 | until a short frame is taken the packets handed out of a buffer are those of its bytes |
| MuxReads.StreamLong | ofono-bt/gatchat/gsm0710.c:172-219 | whatever part of a peer's stream has arrived has no short frames |
| MuxReads.StreamArrivesIff | ofono-bt/gatchat/gatmux.c:194-230 | some run of reads into the 4096-byte buffer brings a peer's whole stream if and only if no frame is larger than the buffer |
| MuxReads.BigFrameDelivers | ofono-bt/gatchat/gatmux.c:194-230 | with a frame that is larger, no run of reads gets to its end and only the packets before it are handed out |
| MuxReads.ReadingGoesOn | ofono-bt/gatchat/gatmux.c:228-231 | as long as every frame fits, the buffer is never full between reads |
| MuxReads.FitsBufferIff | ofono-bt/gatchat/gsm0710.c:327-358 | a basic frame fits if and only if it carries at most 4089 bytes; an advanced one if it carries at most 2044 |
| MuxReads.ChannelsPreserved | ofono-bt/gatchat/gatmux.c:909-957 | end to end in both formats: any interleaving of channel writes and control packets, any fragment size up to 32767, any reads: no short frame is ever taken, each channel gets a prefix of what was written to it, all of it once the whole stream has arrived, and nothing else |
| MuxTransfer.FrameFound | ofono-bt/gatchat/gsm0710.c:97-358 | a frame followed by anything yields its packet, and its closing flag stays to open the next |
| MuxTransfer.AdvancedFrameShape | ofono-bt/gatchat/gsm0710.c:172-219 | flags only at both ends, at most 2 * len + 7 bytes |
| MuxTransfer.UnquoteAppend | ofono-bt/gatchat/gsm0710.c:130-145 | unquoting undoes quoting and leaves what follows |
| MuxTransfer.AllPacketsFed | ofono-bt/gatchat/gatmux.c:1073-1089 | fragments put together are the writes, channel by channel |
| MuxTransfer.KeptIsShort | ofono-bt/gatchat/gatmux.c:194-230 | between reads less than one frame is kept, so a buffer larger than every frame never stays full |
| Gsm0710.RestIsTail | ofono-bt/gatchat/gatmux.c:194-210 | what is kept for later is a tail of what arrived |
| MuxWire.BasicBytes | ofono-bt/gatchat/gsm0710.c:327-358 | every byte of a basic frame |
| MuxWire.AdvancedBytes | ofono-bt/gatchat/gsm0710.c:172-219 | every byte of an advanced frame |
| MuxWire.QuotedBytes | ofono-bt/gatchat/gsm0710.c:172-219 | flag and escape go out as 7d 5e and 7d 5d |
| MuxWire.OpeningFrame | ofono-bt/gatchat/gsm0710.c:172-358 | the request to open channel 0 in both formats, check bytes included |
| MuxWire.FrameDelivered | ofono-bt/gatchat/gatmux.c:909-957 | one frame read is one packet: types 0xef and 0x03, poll/final bit or not, bring their channel exactly the data and no other channel anything; other types bring nobody anything |
| MuxWire.DamagedBasic | ofono-bt/gatchat/gsm0710.c:285-325 | a basic frame with a wrong check byte is passed over and its closing flag opens the next |
| MuxWire.EvenAddress | ofono-bt/gatchat/gsm0710.c:221-325 | a flag before an even address opens no frame |
| MuxWire.DamagedAdvanced | ofono-bt/gatchat/gsm0710.c:121-170 | the same for an advanced frame |
| MuxWire.FragmentsAre | ofono-bt/gatchat/gatmux.c:1073-1089 | a write goes out in frames of the negotiated size, all but the last full and the last not empty |
| MuxCrc.TableDrivenIsBitwise | ofono-bt/gatchat/gsm0710.c:34-77 | the table-driven check value equals the bit-at-a-time register (reversed polynomial 0xe0) |
| MuxCrc.CheckFcsIff | ofono-bt/gatchat/gsm0710.c:79-95 | the receiver accepts exactly the check byte the sender computes |
| MuxCrc.AlteredHeaderRefused | ofono-bt/gatchat/gsm0710.c:84-95 | a header with one altered byte is refused with its old check byte |
| MuxFrames.BasicFill | ofono-bt/gatchat/gsm0710.c:327-358 | the array holds the basic frame |
| MuxFrames.AdvancedFill | ofono-bt/gatchat/gsm0710.c:172-219 | the array holds the advanced frame |
| MuxFrames.BasicExtract | ofono-bt/gatchat/gsm0710.c:221-325 | finds the next packet and where to go on, or nothing and what to keep |
| MuxFrames.AdvancedExtract | ofono-bt/gatchat/gsm0710.c:97-170 | finds what the search on values finds, for any bytes, short frames with their negative length included; only bytes before the place to go on change |
| MuxFrames.UnquoteInPlace | ofono-bt/gatchat/gsm0710.c:130-145 | unquoted bytes at the front, later bytes intact |
| GatMux.Mux.constructor | ofono-bt/gatchat/gatmux.c:1102-1118 | no channels, nothing pending |
| GatMux.Mux.ChannelServed | ofono-bt/gatchat/gatmux.c:181-236 | a channel open from the start whose buffer was never too full: what its owner has read and what waits is a prefix of what the peer wrote to it, all of it once the whole stream has been read |
| GatMux.Mux.PeerRead | ofono-bt/gatchat/gatmux.c:181-236 | one more read of a peer's stream takes no short frame, leaves the buffer open if every frame fits it, and never reaches the end of a frame that does not |
| GatMux.Mux.ReceivedData | ofono-bt/gatchat/gatmux.c:181-236 | one read: every open channel gains, as far as it has room, exactly what the packets found brought it, channels with data are marked, the unfinished rest moves to the front; says whether a short frame was taken and whether reading goes on |
| GatMux.Mux.FeedData | ofono-bt/gatchat/gatmux.c:1034-1214 | all packets in the buffer handed out, up to a short frame |
| GatMux.Mux.Gsm0710Packet | ofono-bt/gatchat/gatmux.c:909-957 | only data packets touch a channel, and only their own |
| GatMux.Mux.FeedDlcData | ofono-bt/gatchat/gatmux.c:319-348 | appends what fits; closed channels drop it |
| GatMux.Mux.ChannelWrite | ofono-bt/gatchat/gatmux.c:1073-1244 | the line gets the frames of the fragments |
| GatMux.Mux.ChannelRead | ofono-bt/gatchat/gatmux.c:436-451 | takes bytes off the front of one channel |
| GatMux.Mux.CreateChannel | ofono-bt/gatchat/gatmux.c:672-715 | the first free channel, announced |
| GatMux.Mux.CloseChannel | ofono-bt/gatchat/gatmux.c:472-487 | the channel is free again, announced |
| GatMux.ToppedWhole | ofono-bt/gatchat/gatmux.c:319-348 | with room for everything nothing is lost |
| GatMux.FrameReachesChannel | ofono-bt/gatchat/gatmux.c:319-348 | the same at the buffers of the channels |
| IsiModem.BusyIffLastRoundOutstanding | ofono-bt/gisi/modem.c:739-830 | a request is refused as busy exactly while the one accepted 255 requests earlier is outstanding |
| IsiModem.NextIsNth | ofono-bt/gisi/modem.c:581-587 | the n-th accepted request has transaction id n mod 255 + 1 |
| IsiModem.SameUtid | ofono-bt/gisi/modem.c:581-587 | two requests sharing an id are at least 255 apart |
| IsiModem.ResponseGoesToRequester | ofono-bt/gisi/modem.c:183-230 | a response goes to the request with its id and to nobody else |
| IsiModem.OthersGoByType | ofono-bt/gisi/modem.c:183-230 | other messages go to exactly the subscriptions and services of their type |
| IsiModem.ServiceMux.RequestSend | ofono-bt/gisi/modem.c:739-830 | accepted exactly if the next id is free and sending works; ids stay distinct |
| IsiModem.ServiceMux.Enlist | ofono-bt/gisi/modem.c:924-1028 | subscriptions and services; the counts follow |
| IsiModem.ServiceMux.Dispatch | ofono-bt/gisi/modem.c:183-230 | everybody concerned is told in list order; a completed request leaves the list, told once |
| IsiModem.ServiceMux.RespTimeout | ofono-bt/gisi/modem.c:725-737 | a timeout tells the request once and removes it; it can only go off while the request is listed |
| IsiModem.ServiceMux.PendingRemove | ofono-bt/gisi/modem.c:837-860 | a withdrawn request is told it was shut down; counts follow |
| IsiModem.ServiceMux.RemovePendingByOwner | ofono-bt/gisi/modem.c:862-922 | all entries of one owner go, requests told once each; the others stay in order |
| IsiModem.ServiceMux.Unlist | ofono-bt/gisi/modem.c:154-181 | an entry leaves the list with at most one notice and its timer stopped |
| IsiModem.MessageTells | ofono-bt/gisi/modem.c:183-230 | what a message sets off: a response is told to its request alone, any other message once to each of those who asked for its type, in their order, and to nobody else |
| IsiModem.RequestsTold | ofono-bt/gisi/modem.c:862-882 | of each removed request its owner is told once that it was shut down, and of nothing else |
| IsiModem.SplitInOrder | ofono-bt/gisi/modem.c:887-922 | the entries kept stay in order, those removed are handled last one first |

## Left out

- Main loop, channels, sockets, tunnel device, serial settings and D-Bus: input and output; a timer is a flag and a step that fires it.
- Recording, hex dumps, debug strings and reference counts: they do not take part in any protocol.
- The `+++` escape with its guard timer, and suspend and resume of a link: wall-clock behaviour.
- Ppp.GAtPpp.ProcessChap: leaves out the response to a challenge with its digest and credentials; authentication is its success or failure.
- Contents of received IP datagrams: the tunnel is present or absent, and whether a datagram is handed to it is stated.
- PppControlProtocol.ControlProtocol.SendTerminateAck: sends the four-byte packet; the frame of the source is as long as the request it answers, with bytes that are not part of the packet.
- Control codes of 32 and above: the shift that looks them up is undefined in C, the model takes them for unsupported.
- Value sizes that do not match their type: an address, word or short taken from too short a value reads as zero in the model.
- PppOptions.PrintParse: on lists that are not well formed the parser of the model stops, where the iterator of the source may read past the list or stand still.
- Aliasing of option buffers: `set_local_options` keeps a pointer into the driver's buffer, the model copies the bytes; every regeneration in the source is followed by that call.
- PppLcpOptions.AcceptIffAllAcceptable: does not cover allocation failure, which turns the suggestion of CHAP into a rejection.
- PppIpcp.Ipcp.ServerRcr: stops where a correction would not fit the 30-byte buffer of the driver; the source writes on. The methods of `Ppp.GAtPpp` that lead there report it and say nothing from there.
- GatMux.Mux.ReceivedData: stops where a frame of fewer than three unquoted bytes is taken for a packet; what the program does with a packet of negative length depends on memory outside the frame.
- GatMux.Mux.Gsm0710Packet: does not model status messages, throttling and the test-command echo on channel 0; none of them touches a channel buffer.
- GatMux.Mux.ChannelWrite: takes the line to accept every frame whole; the source does not look at the count written.
- Mux sources and watches: which callbacks run for a marked channel.
- IsiModem.ServiceMux.Dispatch: does not model version queries (`COMMON` entries), nor callbacks that change the list they are called from.
- Modem teardown in ISI, and the socket traffic behind subscription and registration counts.
- Calls from the link object into the transmitter: the link logs packets, the transmitter and HDLC carry packets; that each logged packet is one the transmitter was given is not modelled.
- `ppp_ipv6cp.c`: not wired into the link, and it repeats the IPCP pattern.
- Liveness beyond `MeetingOpens` and `ClientMeetsServer`: that queues drain, or that a negotiation completes when packets are lost and repeated.
- AT chat, server and syntax layers: callback-heavy, or easier than the layers modelled here.
