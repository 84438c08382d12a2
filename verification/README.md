# OSTP: a verified model

OSTP is a tunnelling system. Its client and server speak a reliable-datagram
protocol over UDP, the server keeps a table of roaming sessions, the client
filters DNS names and migrates its configuration, and both exchange share links.
This project models the logic of those parts in Dafny and proves what they are
for, over every input and every run. It stands alone: `dafny verify
dfyconfig.toml` checks all of it.

| files | what they model |
|---|---|
| `Basics`, `Texts`, `Wire` | durations and options; text taken apart at a character; frames, sealed datagrams and the ACK payload byte by byte |
| `Congestion`, `CongestionProofs`, `CongestionLaws` | the congestion controller, as a value and as the object that updates it, its bounds over runs, and how its window, counters and floor move |
| `ControllerFeed` | what an endpoint tells its controller |
| `Endpoint` | the endpoint as a value: every event of `ProtocolMachine` as a function on its state |
| `EndpointInvariants`, `EndpointSteps`, `EndpointEvents`, `EndpointDelivery` | what every operation of an endpoint keeps, and what it delivers |
| `Submission`, `TwoEndpoints` | what applications submit is what is sealed; two endpoints over a hostile network, and safety over whole runs |
| `EndpointStates` | closing, owed acknowledgements, timers and path changes |
| `Retransmission`, `GapRecovery` | the retransmit tick and draining; how long a frame is held, and gap recovery against it |
| `Answers`, `Repair`, `Lossless` | progress: how an endpoint answers, how one exchange closes a gap, what nothing repairs, and rounds in which nothing is lost |
| `EndpointLoops`, `Machine` | the loops and the object, each proved against `Endpoint` |
| `Sessions` | the server's session table as a value |
| `SessionTracking`, `SessionBooks`, `SessionReplay`, `SessionMachines` | roaming, agreement of the tables, replay safety and rate limits, and sound machines, over runs |
| `SessionDelivery`, `SessionUpkeep` | what the server hands on and sends; ticks, handshakes and traffic counters |
| `SessionExamples` | two runs that show what those leave out |
| `Dispatching` | the table as the object the server keeps, proved against `Sessions` |
| `Glob`, `DnsFilter`, `DnsRules`, `DnsLines` | the wildcard matcher, the indexed filter, the text of its rules, and what written lines mean |
| `ShareLink`, `ShareLinkProofs`, `ShareLinkForms` | the share-link parser and printer, and what other spellings mean |
| `EditDistance`, `JsonDiff`, `Migration`, `MigrationFields` | the suggestion's edit distance, the change report, and config migration, field by field |

The pattern is the same throughout. An object is a class whose methods are proved
to compute functions on a value; the properties are lemmas about those functions
and invariants over runs of them. The table below lists results; of the methods it
lists the outermost, and those they call are proved against the value in the same
way. Fields marked `audit` (and ghost fields) record history for the statements and
are read by no operation.
Smaller laws, which fix single steps, spellings, timers and errors, stand beside them in
`EndpointStates`, `CongestionLaws`, `SessionUpkeep`, `DnsLines`, `MigrationFields` and
`ShareLinkForms`.

The AEAD is ideal: a ciphertext is a term naming its key, nonce, session and frame,
and opens only under those. The network may deliver any datagram at any time,
except that a ciphertext under a session key was put on the wire by its holder.
Padding lengths are drawn from a tape indexed by nonce. Time is an argument, one
instant per event, in nanoseconds; the clocks go forward where a lemma says so.
The pacing arithmetic, f64 in the program, is over `real`.

## Where the code and its comments differ

The model follows the code.

- Closing ignores every inbound datagram (`ostp-core/src/protocol.rs:330-336`),
  although the comment at 294-298 says they are processed.
- Bytes in flight are not conserved by an endpoint: only tracked frames are charged
  (871-874), every acknowledged frame is credited (899-900), and evictions, NACK losses
  and resends are not balanced. The equality holds of the controller while no more
  leaves flight than entered it (`CongestionLaws.CountersAreExact`).
- The minimum RTT is seeded with 30 ms (`ostp-core/src/congestion.rs:120`), so it is
  not always an observed sample.
- Gap recovery is said to wait until retransmission has given up. Whether it can
  depends on the retry limit and on NACKs, which charge retries too: exactly when
  (`GapRecovery.RecoveryOutlastsIff`). Nor does it spare a frame that is merely late:
  its timeout runs from the last advance, so after a silence the first frame to be
  overtaken is skipped at once (`GapRecovery.SwappedPairDeliveredIff`).
- With `max_retries` of 253 or more the retry counter saturates and no tick gives a
  frame up (`Retransmission.DrainableIff`).
- A frame that carries no data is resent only on request, so one that is lost can stay
  lost (`Repair.LostControlFrameStays`): exactly when neither side owes a tracked frame
  or an ACK do the ticks say nothing more (`Repair.SpeaksIff`,
  `Repair.SilentIffNothingOwed`), and while the sender has a frame at or beyond the gap
  to resend the gap closes (`Repair.GapCloses`, `Lossless.ClosesWithinTwoRounds`).
- The wildcard matcher compares literally before it looks for a star, so a star
  inside the text can defeat a pattern that matches (`Glob.AgreesExactlyOnCleanTexts`).
- A truncated ACK that authenticates raises the highest nonce without moving the
  address (`SessionTracking.DatagramMovesIff`, `SessionExamples.TruncatedAckStrandsSession`);
  no endpoint sends one (`TwoEndpoints.AuthenticNeverFails`).
- A handshake that names a live session id replaces that session without releasing
  its count or its address entry (`SessionBooks.ConnectKeepsIndexIff`,
  `SessionExamples.OverwriteLeavesTablesWrong`).
- A path reset refills the pacing bucket at once (`CongestionProofs.ResetGrantsBurst`).
- Some texts parse to links whose printed form does not parse back
  (`ShareLinkProofs.NoNormalForm`).
- A version stamp is cut to 32 bits before it is compared (`Migration.NewerRefusedIff`,
  `Migration.StampWraps`).

## Model

| member | source | states |
|---|---|---|
| `TwoEndpoints.SafeDelivery` | ostp-core/src/protocol.rs:279-624 | in every state of every run of two endpoints over a network that loses, duplicates, reorders, reflects and forges: what an application was handed is an increasing selection of what the other application submitted, stream and payload; every nonce below the expected one has exactly one fate (released, skipped by recovery, or released by recovery in a call that then failed), each delivery is the Data payload of a released one, and when none was skipped or dropped the deliveries are what was submitted first |
| `TwoEndpoints.SealedIsSent` | ostp-core/src/protocol.rs:279-282 | in every reachable state the Data frames an endpoint has sealed are, in nonce order, exactly the streams and payloads its application submitted while established |
| `TwoEndpoints.WithoutRecoveryExactPrefix` | ostp-core/src/protocol.rs:279-482 | a run at no move of which gap recovery acts hands each application exactly the first payloads the other side's application submitted, in order, and all of them once no nonce is awaited |
| `TwoEndpoints.NoSilentLoss` | ostp-core/src/protocol.rs:814-925 | in every reachable state each nonce an endpoint has used is still in its history, was evicted, or is below the peer's expected nonce or in the peer's reorder buffer |
| `TwoEndpoints.AcksStayTrue` | ostp-core/src/protocol.rs:814-860 | an ACK sealed at any moment of a run still names only nonces its sender holds at every later moment, so it may arrive arbitrarily late |
| `TwoEndpoints.RunGrows` | ostp-core/src/protocol.rs:405-624 | along every run the received set only grows, the expected nonce never goes back, and sealed frames, evictions and fates are never revised |
| `TwoEndpoints.NonceSealsOnce` | ostp-core/src/protocol.rs:655-696 | in every reachable state history nonces increase and lie below the next one, and any two datagrams an endpoint put on the wire under one nonce are the same bytes |
| `TwoEndpoints.KarnsRule` | ostp-core/src/protocol.rs:893-925 | in every reachable state, path changes included, any RTT sample an ACK could yield is the time since the only transmission of a frame that ACK names (section 3 of RFC 6298) |
| `TwoEndpoints.AuthenticNeverFails` | ostp-core/src/protocol.rs:457-560 | in every reachable state a datagram that can arrive and authenticates is processed with Ok, because no endpoint ever seals a truncated ACK |
| `TwoEndpoints.MoveKeepsPair` | ostp-core/src/protocol.rs:200-335 | one event or path change of either endpoint, with any datagram the network may produce, keeps the invariant of the pair |
| `EndpointEvents.AnyEventStep` | ostp-core/src/protocol.rs:255-335 | no event, whatever datagram it carries, breaks an endpoint's invariant; only an authenticated ACK drops frames as acknowledged, and every datagram emitted is sealed by this endpoint |
| `EndpointDelivery.EventDelivers` | ostp-core/src/protocol.rs:457-482 | one event extends the deliveries by exactly the Data payloads of the nonces it released, and buffered actions stay those of the frames the peer sealed |
| `EndpointDelivery.DeliveriesIncrease` | ostp-core/src/protocol.rs:567-592 | the nonces delivered are strictly increasing, each once, and each Data |
| `EndpointDelivery.ReleasedIsPrefix` | ostp-core/src/protocol.rs:567-592 | if every nonce passed was released, the deliveries are all the Data payloads of the prefix |
| `EndpointDelivery.NothingLostWithoutRecovery` | ostp-core/src/protocol.rs:405-482 | only an event at which gap recovery acts can leave a nonce skipped or dropped |
| `EndpointSteps.NackStep` | ostp-core/src/protocol.rs:862-869 | a NACK is answered with the stored bytes of the frame it names, if held; that frame alone is stamped and charged, and the invariant is kept |
| `EndpointSteps.DropStep` | ostp-core/src/protocol.rs:893-925 | exactly the frames the ranges name leave, each accounted for, and nothing is transmitted |
| `EndpointSteps.TickStep` | ostp-core/src/protocol.rs:703-778 | a tick keeps the invariant and transmits only sealed frames, never a fresh copy of one it counts as sent once |
| `EndpointSteps.PathChangeStep` | ostp-core/src/protocol.rs:200-212 | a path change keeps the invariant, puts nothing on the wire, and leaves every retransmittable frame with one retry and due, every other as it was |
| `EndpointSteps.RecoverStep` | ostp-core/src/protocol.rs:405-455 | gap recovery keeps the endpoint's invariant, forgets nothing received and transmits nothing |
| `EndpointSteps.RecoverReleases` | ostp-core/src/protocol.rs:405-455 | it skips exactly the nonces before the first buffered one, releases the run of buffered actions that starts there, in order, and leaves the rest buffered |
| `EndpointStates.StateAfter` | ostp-core/src/protocol.rs:279-311 | the state after any event: shutdown starts closing and then ends it, the peer's authentic Close in the window closes at once, and nothing reopens |
| `EndpointStates.EndsOnlyWhenShutDown` | ostp-core/src/protocol.rs:279-311 | in every reachable state a side is no longer established only if it or its peer was shut down, whatever the network did |
| `EndpointStates.ClosingStillResends` | ostp-core/src/protocol.rs:299-301 | a closing endpoint goes on as an open one: its oldest unexhausted tracked frame, silent for eight seconds, is resent by the next tick |
| `EndpointStates.AckOwedIff` | ostp-core/src/protocol.rs:526-604 | a frame that is heard leaves an ACK owed, or seals one at once, if and only if it is Data, Close or KeepAlive or one was owed already; so ACKs and NACKs are never answered with ACKs |
| `EndpointStates.RecoveryIsAcknowledged` | ostp-core/src/protocol.rs:405-455 | whenever recovery acts an ACK is owed or sealed, whatever the datagram was |
| `EndpointStates.BackoffIs` | ostp-core/src/protocol.rs:703-778 | a frame falls due after the larger of the two timeouts, to the millisecond, twice as long for each of six retries, never over eight seconds |
| `EndpointStates.NewPathIsAnnounced` | ostp-core/src/protocol.rs:200-212 | after a path change the first datagram of the next tick is an ACK under a nonce never used before, if there is anything to acknowledge and the ACK delay is at most an hour |
| `EndpointStates.PathChangeForgets` | ostp-core/src/protocol.rs:200-212 | a path change leaves a fresh controller but for bytes in flight and acknowledged, owes an ACK, dates both timers an hour back, and changes nothing else but the history |
| `Wire.AckIsTrue` | ostp-core/src/protocol.rs:814-949 | what the peer parses from a built ACK is the truncated range list; the untruncated ranges are sorted and separated and name exactly the nonces below expected or buffered, truncation keeps at most eight, only drops some, and never drops the first |
| `Wire.SeparatedUnique` | ostp-core/src/protocol.rs:822-838 | the ranges of a set of nonces are the only sorted, separated list that covers it |
| `EndpointLoops.SelectiveRanges` | ostp-core/src/protocol.rs:822-838 | the loop over buffered nonces builds the maximal runs of consecutive ones |
| `EndpointLoops.EncodeAck` | ostp-core/src/protocol.rs:814-860 | the payload built is that of the cumulative and selective ranges, truncated to eight, first kept |
| `EndpointLoops.ParseAckRanges` | ostp-core/src/protocol.rs:928-947 | the parse loop accepts exactly the payloads that hold all the ranges they announce, and returns those |
| `EndpointLoops.ResendDue` | ostp-core/src/protocol.rs:726-771 | the budgeted loop resends the chosen frames in send order and leaves the rest as they were |
| `Machine.ProtocolMachine.OnEvent` | ostp-core/src/protocol.rs:255-311 | every event leaves the object in exactly the state, and returns exactly the action or error, of the value-level machine, and keeps the invariant |
| `Machine.ProtocolMachine.OnPathChange` | ostp-core/src/protocol.rs:200-212 | the controller is reset and every unacknowledged tracked frame is due at once and no longer a sample |
| `ControllerFeed.EventFeeds` | ostp-core/src/protocol.rs:862-925 | after any event the controller is the one before it after exactly what the event tells it: the size of a tracked datagram built, the bytes an ACK covers with their sample, a request as a loss of the frame's size or of 1200 bytes, and nothing else |
| `ControllerFeed.SampleIsLeast` | ostp-core/src/protocol.rs:893-925 | the sample is taken if and only if the ACK covers a frame never resent, and is the least such frame's age |
| `ControllerFeed.EndpointWindowsAreBounded` | ostp-core/src/protocol.rs:862-925 | so in every reachable state of two endpoints each controller is one a controller run reaches, and its window is between 2 and 1024 packets |
| `Retransmission.TickResendsFirstDue` | ostp-core/src/protocol.rs:703-778 | exactly the first `retransmit_budget` due frames, in send order, are resent; total retries rise by that number, and no other frame changes |
| `Retransmission.TicksDrainHistory` | ostp-core/src/protocol.rs:703-778 | with no ACK, send or path change, eight-second ticks leave no retransmittable frame within as many rounds as the sum over frames of grace + 2 - retries (one, if that is nought) |
| `Retransmission.DrainableIff` | ostp-core/src/protocol.rs:716-724 | from any state that holds a retransmittable frame and owes no ACK, some sequence of ticks empties the history of such frames if and only if max_retries + 2 is below 255; otherwise the counter saturates and they are resent for ever |
| `GapRecovery.HeldThroughSchedule` | ostp-core/src/protocol.rs:703-778 | with ticks and NACKs in any order, no ACK, path change or overflow, a frame first sent at t is held at every instant before t plus the sum of its first grace + 1 - k backoffs, k being the NACKs that named it |
| `GapRecovery.GoneExactlyOnSchedule` | ostp-core/src/protocol.rs:703-778 | and no longer: ticks and k such NACKs can have worn a lone frame out by an instant if and only if max_retries + 2 is below 255 and that sum has passed |
| `GapRecovery.RecoveryOutlastsIff` | ostp-core/src/protocol.rs:412-423 | some pair of RTT estimates the controllers can reach lets recovery wait out a sender whose frame was NACKed k times if and only if the sum of grace + 1 - k backoffs, from the larger of 50 ms and the initial RTO, is at most ten seconds |
| `GapRecovery.EightBackoffsFit` | ostp-core/src/protocol.rs:412-423 | with an initial RTO of at most 50 ms that is so if and only if grace + 1 - k is at most eight |
| `GapRecovery.FiveRetriesFit` | ostp-core/src/protocol.rs:412-423 | without NACKs, if and only if max_retries is at most five |
| `GapRecovery.RecoverySkipsHeldFrame` | ostp-core/src/protocol.rs:405-455 | whenever recovery acts before that sum is over for the frame it skips, the peer still holds it, as the very datagram its nonce sealed, and that datagram would open at the receiver |
| `GapRecovery.PromptRecoverySkipsHeldFrame` | ostp-core/src/protocol.rs:412-423 | in particular where recovery cannot wait the sender out, for a frame first sent after the receiver last advanced, at the moment the timeout is over |
| `GapRecovery.SwappedPairDeliveredIff` | ostp-core/src/protocol.rs:405-455 | two frames that arrive swapped, at any two instants, are both delivered if and only if the receive sequence advanced within the recovery timeout before the second arrival; after a longer silence the overtaken one is skipped at once and acknowledged |
| `Repair.GapCloses` | ostp-core/src/protocol.rs:526-604 | in every state a run has reached with a gap whose frame the sender holds, the sender's oldest tracked frame being Data at or beyond it, unexhausted and silent for eight seconds, and the receiver's NACK cooldown over: the sender ticks, the datagram this transmits arrives, and either closes the gap or makes the receiver transmit a request, which arrives and makes the sender transmit the missing frame, which arrives and closes it; each arrival is of a datagram the move before transmitted, even if the missing frame is one no timer resends |
| `Lossless.RoundCloses` | ostp-core/src/protocol.rs:457-624 | if everything transmitted arrives for one round (two ticks, then deliveries to and fro) and anything at or beyond the gap is among it, the receiver having asked for nothing in the last eight seconds, the gap is closed by the end of the round or its frame had been evicted |
| `Lossless.ClosesWithinTwoRounds` | ostp-core/src/protocol.rs:457-778 | whatever was lost before, in whatever state a run has reached: if everything transmitted from now on arrives, and at the start of each round the sender has an unexhausted tracked frame at or beyond the gap, the gap is closed within two rounds eight seconds apart or its frame had been evicted |
| `Lossless.RoundGoesOn` | ostp-core/src/protocol.rs:200-335 | such a round is a piece of a run: each of its ticks and arrivals is a move the network allows |
| `Lossless.QuietRound` | ostp-core/src/protocol.rs:703-778 | with nothing owed on either side and nothing on its way a round transmits nothing, moves no gap, and leaves nothing owed or on its way |
| `Repair.SpeaksIff` | ostp-core/src/protocol.rs:703-778 | a tick of an endpoint at some instant sends something if and only if it owes something: a tracked frame not past its last retry, or a pending ACK with something to name |
| `Repair.SilentIffNothingOwed` | ostp-core/src/protocol.rs:703-778 | and every sequence of its ticks sends nothing at all if and only if it owes nothing now |
| `Repair.LostControlFrameStays` | ostp-core/src/protocol.rs:493-505 | a NACK provoked by one forged datagram and then lost is still held by its sender and awaited by the peer, while every tick of both sides, for ever, sends nothing |
| `CongestionProofs.WindowStaysBounded` | ostp-core/src/congestion.rs:340-385 | after any run from a fresh controller 2 mtu <= cwnd <= 1024 mtu, and the retransmit budget is between 2 and 64 |
| `CongestionProofs.GrowthIsPaidFor` | ostp-core/src/congestion.rs:277-334 | past slow start and without backoff, growth times the starting window is at most acknowledged bytes times the mtu |
| `CongestionProofs.AdditiveIncrease` | ostp-core/src/congestion.rs:277-334 | so ACKs totalling at most the starting window grow it by at most one mtu (section 3.1 of RFC 5681) |
| `CongestionLaws.SlowStartIsExact` | ostp-core/src/congestion.rs:314-334 | in slow start, while the RTT has not doubled and the threshold is not reached, the window is its start plus exactly the acknowledged bytes, up to 1024 mtu |
| `CongestionLaws.FullWindowDoubles` | ostp-core/src/congestion.rs:314-334 | so ACKs for one whole window double it |
| `CongestionLaws.SlowStartEndsIff` | ostp-core/src/congestion.rs:298-334 | slow start ends with an ACK if and only if it brings the window to the threshold or finds the RTT at least doubled |
| `CongestionLaws.GrowthIsPaidBack` | ostp-core/src/congestion.rs:277-334 | past slow start and below the ceiling, acknowledged bytes times the mtu are at most growth, plus a byte an ACK, times the final window: the partner of GrowthIsPaidFor |
| `CongestionLaws.StandingQueueHalves` | ostp-core/src/congestion.rs:277-297 | an ACK that finds the RTT fourfold halves the window, down to two packets, sets the threshold there and ends slow start |
| `CongestionLaws.LossesDecay` | ostp-core/src/congestion.rs:348-385 | after n losses past slow start the window is at most 0.7^n of what it was, or two packets |
| `CongestionLaws.ThirdLossEndsIff` | ostp-core/src/congestion.rs:348-385 | three losses end slow start if and only if the third comes within half a second of the start of the tolerance window; the first two cost a fifth each |
| `CongestionLaws.CountersAreExact` | ostp-core/src/congestion.rs:240-275 | in every reachable state acknowledged bytes, losses since the last reset and the last ACK's date are those of the run, the rate is that of the window, and bytes in flight are sent less acknowledged less lost while these never exceed what was sent |
| `CongestionLaws.FloorIsASample` | ostp-core/src/congestion.rs:389-400 | in every reachable state the RTT floor is one sample's (or 30 ms), no sample since was lower, and none came ten seconds after it |
| `CongestionLaws.ResetForgets` | ostp-core/src/congestion.rs:144-154 | a path reset leaves a fresh controller, but for bytes in flight and bytes ever acknowledged |
| `CongestionLaws.RateEmptiesWindow` | ostp-core/src/congestion.rs:428-436 | the pacing rate sends one window in one RTT floor, to the byte and the microsecond |
| `CongestionProofs.EstimatorTracksSamples` | ostp-core/src/congestion.rs:389-418 | in every reachable state SRTT and RTTVAR are the fold of the samples since the last path reset, and nothing else touches them |
| `CongestionProofs.EstimateWithinSamples` | ostp-core/src/congestion.rs:389-418 | for samples in [m, M]: m <= SRTT <= M and RTTVAR <= max(M/2, M - m), forever |
| `CongestionProofs.SrttIsNearlyExact` | ostp-core/src/congestion.rs:389-418 | integer SRTT stays within 7 ns of the exact rational recurrence of section 2 of RFC 6298, however many samples |
| `CongestionProofs.ReachableEstimate` | ostp-core/src/congestion.rs:389-418 | the three statements above hold together of the controller after any run |
| `CongestionProofs.ConstantRttSettles` | ostp-core/src/congestion.rs:216-221 | under a constant RTT R, SRTT stays R, RTTVAR falls to at most 3 ns, and the unclamped RTO is at most 12 ns above R after a number of samples logarithmic in R |
| `CongestionProofs.PacingBound` | ostp-core/src/congestion.rs:144-189 | bytes released over any span T with k path resets are at most k + 1 times max(R 10 ms, 4 mtu) + max(0, L - mtu), plus R T, though each rate also applies to time already elapsed |
| `CongestionProofs.ResetGrantsBurst` | ostp-core/src/congestion.rs:144-189 | one allowance does not cover a run with a path reset: a concrete run releases two full packets at one instant |
| `Congestion.CongestionController.GrowWindow` | ostp-core/src/congestion.rs:277-334 | the object's window, threshold and phase become those of the value-level growth, backoff on a standing queue included |
| `Congestion.CongestionController.OnLoss` | ostp-core/src/congestion.rs:348-385 | tolerated isolated losses in slow start, and the multiplicative response otherwise, as the value-level function has them |
| `Congestion.CongestionController.OnAck` | ostp-core/src/congestion.rs:263-275 | bytes leave flight, the sample is folded in, the window grows and the pacing rate follows |
| `SessionTracking.SessionsStayHome` | ostp-server/src/dispatcher.rs:354-381 | in every reachable table a session's last_addr is the source of the last datagram that authenticated with a record nonce in a call that returned Ok, or the handshake's address; its highest nonce is the highest of those heard |
| `SessionTracking.RoamingInvariant` | ostp-server/src/dispatcher.rs:354-381 | while no authenticated datagram of a session has failed to process, last_addr is the source of the first datagram that carried its highest nonce, or the handshake's address if none has (section 9.3 of RFC 9000) |
| `SessionTracking.DatagramMovesIff` | ostp-server/src/dispatcher.rs:286-380 | a datagram from another address moves a live session if and only if it is routed to it (by the address it came from, or, if the roaming bucket has a token, as the first in walk order that the packet unmasks to), authenticates with a nonce above every one heard before and is not a truncated ACK |
| `SessionTracking.MovesIff` | ostp-server/src/dispatcher.rs:355-380 | once routed to the session it moves it if and only if it authenticates with such a nonce and is not a truncated ACK; a record raises the highest nonce either way |
| `SessionTracking.CountsIff` | ostp-core/src/protocol.rs:514-524 | a datagram is counted, and its nonce noted if it is the highest, if and only if it authenticates in the window that gap recovery leaves |
| `SessionExamples.TruncatedAckStrandsSession` | ostp-server/src/dispatcher.rs:355-380 | a run of a handshake and a truncated ACK from another address ends with that nonce the highest and the session where it was |
| `SessionTracking.RepliesGoHome` | ostp-server/src/dispatcher.rs:378-415 | the answer to a datagram goes to the address the session is at after it |
| `SessionUpkeep.RouteIff` | ostp-server/src/dispatcher.rs:286-331 | a datagram is for the session last seen at its source if its header unmasks to that session, and otherwise, while the roaming bucket has a token, for the first in walk order it unmasks to |
| `SessionDelivery.DatagramTells` | ostp-server/src/dispatcher.rs:355-414 | a datagram routed to a session whose key is good makes its machine move exactly as one side of two endpoints does, and the outcome tells the move: an accepted one returns all that side is handed and, in order, all it transmits; any other, that it was handed and transmitted nothing |
| `SessionDelivery.AccountsSettle` | ostp-server/src/dispatcher.rs:286-606 | in every reachable table, while what opens at a session is its client's frames, the payloads returned for it since it was opened are exactly those of the frames its machine has released, and its own Data frames are exactly the payloads for which sending returned a datagram |
| `SessionDelivery.ServerHandsOnWhatWasSent` | ostp-server/src/dispatcher.rs:286-418 | so over a run the server hands on an increasing selection of what the client's application submitted, and its first payloads if nothing was given up |
| `SessionUpkeep.TickDropsExactly` | ostp-server/src/dispatcher.rs:625-668 | a tick drops exactly the sessions that are closed, unheard for ten minutes, or whose key was taken off the list or has used up its limit, and ticks every other once, changing nothing else of it |
| `SessionUpkeep.TickGoesHome` | ostp-server/src/dispatcher.rs:669-697 | a tick's datagrams are exactly those the remaining sessions transmit, each addressed to where its session is |
| `SessionUpkeep.OutboundGoesHome` | ostp-server/src/dispatcher.rs:586-606 | a payload for an established session leaves as the Data frame of its stream and payload under the next nonce, for the session's address; for any other session nothing leaves |
| `SessionUpkeep.SeenIff` | ostp-server/src/dispatcher.rs:375-381 | the ten minutes run from the last datagram that was processed and came from the address the session is then at |
| `SessionUpkeep.RevokedIsDropped` | ostp-server/src/dispatcher.rs:332-343 | a datagram for a session whose key was revoked or used up drops the session and is not processed |
| `SessionUpkeep.TrialOutcome` | ostp-server/src/dispatcher.rs:419-582 | of a datagram no session claims: nothing unless some key finds junk or a fresh handshake; the first key in walk order that does decides, and opens a session, for the id and key the payload names, exactly when there is room and allowance |
| `SessionUpkeep.TrafficIsBilled` | ostp-server/src/dispatcher.rs:346-347 | in every reachable table each user's counters are, to the byte, the datagrams its live sessions were routed and the datagrams sent for them |
| `SessionBooks.TablesAgreeUnlessOverwritten` | ostp-server/src/dispatcher.rs:539-564 | in every reachable table at most 1024 sessions are live and 50 000 handshakes cached; session counts are right if and only if no handshake has overwritten a live session id, and then each address entry names a live session at that address |
| `SessionBooks.BooksKept` | ostp-server/src/dispatcher.rs:556-694 | in every reachable table each user's count is its live sessions plus those it lost to an overwrite, and every address entry is right but those such sessions left behind |
| `SessionBooks.ConnectKeepsIndexIff` | ostp-server/src/dispatcher.rs:556-564 | a handshake keeps a right address index right if and only if it does not take a live id from a session elsewhere that the index still leads to |
| `SessionBooks.ConnectKeepsCountsIff` | ostp-server/src/dispatcher.rs:539-564 | and keeps right session counts right if and only if its id is not live |
| `SessionExamples.OverwriteLeavesTablesWrong` | ostp-server/src/dispatcher.rs:539-564 | a run of two handshakes that name the same id ends with a wrong count and a wrong address entry |
| `SessionMachines.MachinesStaySound` | ostp-server/src/dispatcher.rs:286-685 | in every reachable table, handshakes yielding valid parameters and nonces lasting, each session's machine satisfies the endpoint's invariant |
| `SessionReplay.NoHandshakeTwice` | ostp-server/src/dispatcher.rs:502-546 | over every run whose clock does not go back, a payload that opened two sessions had been forced out of a full cache; with no forced eviction all admitted payloads are distinct |
| `SessionReplay.ForcedOnlyWhenFull` | ostp-server/src/dispatcher.rs:513-537 | a payload is forced out only when 50 000 cached handshakes are inside the drift window and none is older |
| `SessionReplay.WorkIsBounded` | ostp-server/src/dispatcher.rs:308-432 | over every run session scans number at most 50 + 50 T and key trials at most 100 + 100 T, whatever arrives |
| `Dispatching.Dispatcher.OnDatagram` | ostp-server/src/dispatcher.rs:286-582 | the whole table and the outcome are those of the value-level datagram step, for some order in which the hash maps were walked |
| `Dispatching.Dispatcher.OnTick` | ostp-server/src/dispatcher.rs:603-685 | expired handshakes and sessions go, and every remaining session is ticked once, its datagrams addressed to where it is |
| `Glob.AgreesExactlyOnCleanTexts` | ostp-dns/src/filter.rs:76-99 | the greedy matcher agrees with the recursive meaning of `*` on every pattern if and only if the text has no `*` before its last character |
| `Glob.GlobMatch` | ostp-dns/src/filter.rs:76-99 | the loop terminates and computes the greedy run; on clean texts, the recursive meaning |
| `DnsFilter.Filter.Add` | ostp-dns/src/filter.rs:108-118 | the index keeps describing every rule ever added, the new one included |
| `DnsFilter.Filter.Find` | ostp-dns/src/filter.rs:207-242 | a match is found if and only if some rule of the kind matches the name, and it names such a rule and its source |
| `DnsFilter.Filter.Check` | ostp-dns/src/filter.rs:253-267 | the verdict kind is that of a plain scan of every rule ever added (declaratively so on clean names), and its text and source are those of a rule that matches |
| `DnsFilter.OrderDoesNotMatter` | ostp-dns/src/filter.rs:108-118 | two lists with the same rules give the same verdict kind |
| `DnsFilter.CleanNamesAreDeclared` | ostp-dns/src/filter.rs:207-267 | on a name with no `*` before its last character the verdict is the declared one under every list of rules |
| `DnsRules.DeclaredExactlyOnCleanNames` | ostp-dns/src/filter.rs:168-267 | for a name of characters a key may hold, at least up to its first `*`, it is so under every list of rules that lines of blocking syntax can add if and only if the name has no `*` before its last character |
| `DnsRules.ReportReadsBack` | ostp-dns/src/filter.rs:168-267 | the rule text a verdict reports, added as a line, is exactly the rule that decided it, kind, anchors and wildcard included |
| `DnsRules.VerdictNamesItsRule` | ostp-dns/src/filter.rs:245-267 | a verdict's text and source are those of a rule of the filter that matches the name, and the text reads back as that rule |
| `DnsRules.ReadRulesAreKeyed` | ostp-dns/src/filter.rs:168-204 | whatever line of blocking syntax, the key it adds is lower case and a domain or a pattern of domain characters and stars |
| `DnsRules.AddRule` | ostp-dns/src/filter.rs:168-204 | a line of blocking syntax adds exactly the rule it reads as, or nothing |
| `DnsLines.WrittenFormReads` | ostp-dns/src/filter.rs:168-204 | how any written form is read: `@@` or an allow list makes it an exception, otherwise `$important` makes it important; one bar anchors it to the very name, two or none to the name and all under it; separators and bars that close it are dropped; the key is the core in lower case; a core that is neither a domain nor a pattern adds nothing |
| `DnsLines.FormMeans` | ostp-dns/src/filter.rs:168-233 | a bare or doubly barred domain stands for itself and everything under it, a singly barred one for itself alone |
| `DnsLines.WildFormMeans` | ostp-dns/src/filter.rs:168-233 | a pattern stands for the names it matches whole or, unless anchored by one bar, from the start of a label on, `*` being any run of characters |
| `DnsLines.AllowListIsExceptions` | ostp-dns/src/filter.rs:168-171 | a line of an allow list is read as the same line behind `@@` |
| `DnsLines.AllowListAllows` | ostp-dns/src/filter.rs:121-267 | a name that a line of an allow list matches is allowed, whatever else the lists hold, unless an important rule matches it |
| `DnsLines.AllowListsNeverBlock` | ostp-dns/src/filter.rs:121-267 | allow lists alone block nothing |
| `DnsLines.SpellingDoesNotMatter` | ostp-dns/src/filter.rs:254 | names that differ in case or final dots are asked as one |
| `ShareLinkProofs.RoundTripIff` | ostp-core/src/share_link.rs:65-162 | parse(to_uri(l)) = l if and only if l has a non-empty key, port below 65536, non-empty optional fields, TCP transport whenever tls or path is set, and a non-empty host without `#`, `?`, `@` that is bracketable |
| `ShareLinkProofs.NormalFormIff` | ostp-core/src/share_link.rs:73-162 | a link parsed from any text comes back from its printed form if and only if its host, when it has a colon, has no `]`, and otherwise does not begin with `[` |
| `ShareLinkProofs.NoNormalForm` | ostp-core/src/share_link.rs:97-103 | some accepted texts therefore have no normal form: a bracketed host that itself begins with a bracket |
| `ShareLinkProofs.ParsedIsFormed` | ostp-core/src/share_link.rs:73-132 | every parsed link has a non-empty valid key and host, a 16-bit port, non-empty valid optional fields and TCP transport whenever tls or path is set |
| `ShareLinkProofs.AddressComesBackIff` | ostp-core/src/share_link.rs:65-103 | the printed host and port divide into themselves if and only if the host is bracketable |
| `ShareLinkProofs.QueryComesBack` | ostp-core/src/share_link.rs:134-161 | reading the printed query over a plain link restores every field |
| `ShareLink.DecodeUndoesEncode` | ostp-core/src/share_link.rs:164-174 | decoding undoes percent-encoding for every byte string that is valid text |
| `ShareLinkForms.PlusIsSpace` | ostp-core/src/share_link.rs:168-174 | a plus sign decodes exactly as the escape of a space, wherever it stands |
| `ShareLinkForms.FieldIsSet` | ostp-core/src/share_link.rs:108-128 | each key sets the one field it names to what the value spells, in any case, and any other key sets nothing |
| `ShareLinkForms.OrderIsFree` | ostp-core/src/share_link.rs:108-128 | the order of different fields does not matter |
| `ShareLink.ParseLink` | ostp-core/src/share_link.rs:73-132 | the parser with its query loop returns the link or the first error of the value-level parse |
| `EditDistance.Levenshtein` | ostp-client/src/migrate.rs:379-390 | the two-row loop computes the recursive edit distance |
| `EditDistance.NoScriptIsCheaper` | ostp-client/src/migrate.rs:379-390 | no script of insertions, deletions and substitutions costs less than the distance |
| `EditDistance.CheapestScript` | ostp-client/src/migrate.rs:379-390 | some script costs exactly the distance |
| `EditDistance.ShortestChain` | ostp-client/src/migrate.rs:379-390 | the distance is the length of the shortest chain of strings each one single-character edit from the last |
| `EditDistance.Metric` | ostp-client/src/migrate.rs:379-390 | zero exactly on equal strings, symmetric, and triangular |
| `EditDistance.Closest` | ostp-client/src/migrate.rs:371-377 | none exactly when no candidate is within its own threshold; else the first of the nearest that is |
| `JsonDiff.ReportIsExact` | ostp-client/src/migrate.rs:321-345 | the report is empty if and only if the values are equal; carried out on the old it gives the new, and inverted it gives the old back |
| `JsonDiff.ChangesAreFine` | ostp-client/src/migrate.rs:321-345 | the report is as fine as the structure: nothing is reported as changed whole that could be compared inside |
| `JsonDiff.CollectDiff` | ostp-client/src/migrate.rs:321-345 | the recursion pushing to one vector appends exactly the report, keys in order |
| `JsonDiff.StripChangesOnlyNulls` | ostp-client/src/migrate.rs:306-315 | stripping changes a value if and only if a field in it is null, and is idempotent |
| `Migration.MigratingAgainChangesNothing` | ostp-client/src/migrate.rs:268-302 | an accepted migration's output migrates to itself: no step, no change, same kind |
| `Migration.UpToDateIff` | ostp-client/src/migrate.rs:261-302 | no change is reported if and only if the file is tagged, stamped with the current version and free of null fields |
| `Migration.ReportMatchesOutput` | ostp-client/src/migrate.rs:298-300 | the reported changes lead from the input to the output and back |
| `Migration.OtherFieldsSurvive` | ostp-client/src/migrate.rs:97-115 | from version 1 on, every top-level field no step names reaches the output, its nulls removed |
| `MigrationFields.MigratedField` | ostp-client/src/migrate.rs:97-115 | from version 1 on the output is known field by field: kind, version, and every other field as the steps of its kind leave it, its nulls removed, and no field besides |
| `MigrationFields.InnerFieldsSurvive` | ostp-client/src/migrate.rs:97-107 | inside a version 1 client's `tun` and `transport` exactly `wintun_path`, `ipv4_address`, `wss` and `stealth_sni` go, each from its own object; every other setting is as it was, its nulls removed |
| `MigrationFields.OuterFieldsSurvive` | ostp-client/src/migrate.rs:83-95 | servers, relays and version 2 clients keep `tun` and `transport` whole |
| `MigrationFields.RelayLosesExactly` | ostp-client/src/migrate.rs:109-115 | a version 1 relay loses exactly its three authentication settings |
| `MigrationFields.StepsAre` | ostp-client/src/migrate.rs:83-95 | which steps are reported: both for a client from version 0, the second from 1; one for a relay below 2; none for a server |
| `MigrationFields.KindIff` | ostp-client/src/migrate.rs:46-64 | what kind a file is: its tag; without one a relay if it has a relay's fields, else a server, else a client, by theirs |
| `Migration.NewerRefusedIff` | ostp-client/src/migrate.rs:67-73 | a stamped file is refused exactly when its stamp is newer than the program knows if and only if the stamp is known, or still newer once cut to 32 bits |
| `Migration.StampWraps` | ostp-client/src/migrate.rs:67-73 | a server file stamped 2^32 is processed as version 0 and stamped anew |
| `Migration.RunMigration` | ostp-client/src/migrate.rs:268-302 | the driver with its loop over versions returns the value-level migration or its error |

## Left out

- TwoEndpoints.SafeDelivery: every event is met with nonces a little short of 2^64 (`Headroom`); exhaustion of the nonce space is not modelled.
- Machine.ProtocolMachine.OnEvent: starts at Established, and the same margin below 2^64 is required; authenticated frames always decode, since under the ideal AEAD only the peer's encoder made them.
- Machine.ProtocolMachine.HandleDataInbound: one instant serves a whole event, where the program reads the clock several times.
- CongestionProofs.PacingBound: rounding of f64 is not modelled; resends are not charged to the bucket by the program and so not bounded here.
- SessionTracking.RoamingInvariant: holds of sessions none of whose authenticated datagrams failed; `SessionTracking.SessionsStayHome` has no such condition, and `SessionTracking.DatagramMovesIff` says which datagrams move a session.
- SessionMachines.MachinesStaySound: every step is met with nonces a little short of 2^64.
- SessionDelivery.AccountsSettle: the same; that what opens at a session is its client's frames is a condition here, and holds of the two endpoints of `TwoEndpoints`.
- EndpointStates.NewPathIsAnnounced: with a longer ACK delay the ACK waits for it.
- Repair.GapCloses: one exchange, of several that a longer gap may need; the sender is less than a window behind the receiver's own frames.
- Lossless.ClosesWithinTwoRounds: arrivals are in order and each round is at one instant; tracked frames have been silent for eight seconds at the first and no NACK is stamped in the future, no Close is under way, nonces stay short of 2^64, the history is below its cap, and the sender is less than a window behind the receiver's own frames.
- GapRecovery.HeldThroughSchedule: ticks and NACKs only; the history is not at its cap when a tick owes an ACK.
- Retransmission.DrainableIff: no ACK is owed, since sealing one can push a frame out of a full history.
- DnsRules.DeclaredExactlyOnCleanNames: of a name with a foreign character before its first `*` only one half is stated, in `DnsFilter.CleanNamesAreDeclared`.
- SessionReplay.NoHandshakeTwice: the wall clock does not go back, and timestamps are compared as integers, without the wrap of i64 on values of 2^63 and more.
- Dispatching.Dispatcher.OnDatagram: packets are read by the crypto layer, which is a record of functions; a session's machine is the value `Endpoint.OnEvent` computes on, which is what `ProtocolMachine` is proved to compute of machines that `SessionMachines.MachinesStaySound` shows the table to hold.
- Dispatching.Dispatcher.OnTick: one walk order serves the expiry pass and the tick pass; the caches of derived secrets are not modelled.
- DnsRules.ReportReadsBack: covers rules of blocking syntax; `hosts` lines (whose names may end in `.lan` or `.ostp` without being domains), comments and cosmetic rules are not read.
- DnsRules.AddRule: the same; a line is taken after its comments have been cut off.
- DnsFilter.Filter.Check: sources are numbers, list names and statistics are not kept.
- ShareLinkProofs.RoundTripIff: text is its UTF-8 bytes; which bytes are valid, and which are blank at either end, are parameters.
- JsonDiff.ReportIsExact: paths are sequences of keys and indexes; rendered as text they can coincide when a key contains a dot or bracket. Objects are edited as values, not in place.
- Migration.RunMigration: the conversion of the 0.3.x client format and the typed schema check are parameters; notes and the list of unknown keys are not produced.
- EditDistance.Closest: lower-casing and byte length are parameters.
- The Noise handshake, key derivation, header masking and the frame codec: cryptography is idealised.
- Sockets, tasks, channels, locks, atomics, logging and randomness.
- The management API beyond dropping a session, setting a limit and replacing the key list; resetting statistics or deleting a user changes counts outside these books.
- The client bridge, prober, TUN routing, system proxy, JNI and user interfaces.
- The relay codec, HTTP upgrade, CIDR matching, version ordering, DNS settings and response cache: sound, but easy additions.
