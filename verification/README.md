# USB tethering engine: a verified model

The engine moves Ethernet frames between a tunnel and an RNDIS phone over USB, obtains an address by DHCP, and
borrows the machine's default route, DNS and Wi-Fi power while a session lasts. This project models its five closed
cores in Dafny and proves what each keeps over every input, every run and every interleaving.

| file | part of the engine |
|---|---|
| `Bytes.dfy` | octets, byte order, in-place copying |
| `Rndis.dfy`, `RndisStreams.dfy` | REMOTE_NDIS_PACKET_MSG framing (section 2.2.14 of [MS-RNDIS]): writer, resynchronising scanner, payload splitter |
| `TxRing.dfy`, `TxProtocol.dfy`, `TxQueue.dfy` | the 128-slot transmit ring: operations under the lock, the step machine of producers and consumer, and the engine object updated in place |
| `InetChecksum.dfy`, `InetChecksumLaws.dfy` | the Internet checksum (section 1 of RFC 1071) and the in-place repair of IPv4 packets |
| `DhcpOptions.dfy`, `DhcpFrame.dfy`, `DhcpClient.dfy`, `DhcpMachine.dfy`, `DhcpRuns.dfy`, `DhcpPath.dfy`, `DhcpMessages.dfy` | the DHCPv4 client (RFC 2131, RFC 2132): options, frames, the six-state machine as functions and as an object, its runs, the data path the engine opens and closes for it, its messages |
| `NetConfig.dfy`, `NetSession.dfy`, `NetRecovery.dfy`, `NetProgress.dfy` | snapshot and restore of routes, DNS and Wi-Fi: operations as functions and as an object, whole sessions and recovery after crashes, how long operations take |
| `NetRadio.dfy`, `NetRadioCrash.dfy`, `NetRace.dfy` | Wi-Fi power: over a session, under kills, and while two threads switch it |

How the parts are set up:

- **Transmit ring.** `TxProtocol` has one step for each locked region, each call into the USB pipe and each counter
  update; any number of producer steps may come between two consumer steps. The pipe's answers are part of the events.
  The history of a run (frames accepted, frames gone with their outcome, the bytes submitted) is kept in the state.
  The worker aborts the pipe before it leaves its run loop, and an aborted pipe no longer reads its buffer.
  `TxQueue.Engine` is the same code in place, for one thread at a time; `StartOutIsSteps` ties the two together.
- **DHCP.** Clock readings are parameters, in microseconds; the two readings of a poll are separate. An event is one
  received frame or one poll. 64-bit millisecond arithmetic is unbounded here. `DhcpPath` interleaves the receiving thread
  (a frame handled under the lock, then the closing of the path) with the three parts of a maintenance tick: the reading of the
  flag, the locked region that polls and copies the lease, and the application of the lease or the closing of the path.
- **Snapshot and restore.** The world is a store of keys, two default routes, the radio and a marker file. Every
  command and every reading is one step. A process has a time `dies` after which none of its steps has any effect, so a
  statement for every `dies` is a statement about a kill between any two commands; `faults` is the set of times at which
  a command fails by itself. A crash keeps the world and clears the process's globals. `NetSession.Session` performs the
  operations step by step on one object; its `Run` is the life that the theorems about sessions and crashes speak of.

Where the code does less than its comments or the obvious reading promise, a lemma gives the exact condition:

- `SplitConcatIff`: the splitter inverts concatenation exactly when the payload exceeds 1518 bytes or holds at most one frame.
- `FixedPointIff`: a DHCP datagram is a fixed point of the checksum repair exactly when it fits the 1024-byte scratch buffer.
- `TimersOrdered`: T2 lies within the lease exactly when the lease is at least 2 seconds.
- `RefusalReopens`, `NakInTheGap`: the application of a lease undoes the closing by a refusal that was received meanwhile, so after the
  tick the path is open without a lease, exactly in this case, until a lease comes or another tick ends. `QuietTickFollows`
  shows that an undisturbed tick repairs it.
- `RemovalCutShort`, `ExposedLosesRoute`: a kill inside the removal of the backup keys is harmful exactly after its third and
  fourth step, and what it costs is the IPv4 default route.
- `LiveDefaultDiscards`: a session begun over a leftover backup while a live default route is present makes the current
  configuration the backed-up one.
- `SessionKeepsRadio`, `OldMarkerTurnsRadioOn`: a completed session leaves Wi-Fi power as found exactly unless Wi-Fi was off, a marker
  from an earlier run was present and the session contained a Wi-Fi restore, as every stop sequence does.
- `OperationKeepsRadio`, `CrashesKeepRadio`: for every operation, every live state and every kill time, and for any number of
  killed lives, exactly when something is left from which the restore command turns Wi-Fi on again. `LateApplyLosesRadio` and
  `LostRadio` give a run from a fresh start that loses it and the two kill times at which it does.
- `StopRaceKilled`, `StopRaceLosesRadio`: the same for the stop sequence's Wi-Fi restore racing with a late switch-off.
- `BeginIgnoresMarker`, `SecondDisableForgets`: a second Wi-Fi disable overwrites the record that Wi-Fi was on; after a crash
  only the restore command, which looks at the marker, still turns it on.

## Model

| member | source | states |
|---|---|---|
| Rndis.AlignPow2 | engine/src/rndis.c:45-50 | the aligned length is a multiple of the clamped unit, not shorter and less than a unit longer |
| Rndis.AlignIsLeast | engine/src/rndis.c:45-50 | no smaller multiple of the unit would do |
| Rndis.FitsSlotIff | engine/src/rndis.c:139-141 | a wrapped frame fits 4096 bytes exactly up to 4052 bytes, for every alignment |
| Rndis.WrapEthernetAligned | engine/src/rndis.c:132-149 | writes exactly the record into the buffer region and nothing else; returns 0, with nothing written, exactly for a missing buffer, an empty frame or too little room |
| Rndis.EmitEthPayload | engine/src/rndis.c:10-41 | the callbacks made and their count, against the cutting function |
| Rndis.UnwrapBulk | engine/src/rndis.c:231-260 | the scan ends; the callbacks see exactly the frames carried, in ordered, disjoint, in-bounds slices, and the result is their count, or -1 without a buffer |
| Rndis.OrderedPairwise | engine/src/rndis.c:231-260 | ordered callbacks are pairwise disjoint, increasing, in bounds and at least 14 bytes each |
| Rndis.CallsOrdered | engine/src/rndis.c:231-260 | for every byte string the callbacks of a scan are ordered |
| Rndis.CallsSeen | engine/src/rndis.c:231-260 | they see exactly the frames that recognising records byte by byte yields |
| RndisStreams.RecognisedIff | engine/src/rndis.c:212-229 | a header with DataOffset 36 is recognised exactly for 14 to 4096 data bytes, whatever MessageLength and the other fields say |
| RndisStreams.RecordRecovered | engine/src/rndis.c:243-258 | a record followed by anything yields its payload's frames, then what the rest yields |
| RndisStreams.StreamRecovered | engine/src/rndis.c:231-260 | any stream of records with arbitrary lengths and gaps free of 0x01 bytes yields every payload in order, whatever follows |
| RndisStreams.SingleFrameStream | engine/src/rndis.c:231-260 | with at most 1518 bytes in each record the result is exactly the payloads, one for each record |
| RndisStreams.WrapRecognisedIff | engine/src/rndis.c:132-149 | what the writer produces is recognised by the scanner exactly up to 4096 bytes |
| RndisStreams.UnwrapWrap | engine/src/rndis.c:132-260 | unwrapping a wrapped frame followed by any bytes is the split padded frame followed by unwrapping those bytes, for every alignment |
| RndisStreams.UnwrapAll | engine/src/rndis.c:132-260 | any list of frames up to 4096 bytes, wrapped back to back, unwraps to their split padded payloads |
| RndisStreams.RoundTrip | engine/src/rndis.c:132-260 | any list of frames up to 1518 bytes, wrapped back to back, unwraps to exactly the padded list |
| RndisStreams.SplitConcatIff | engine/src/rndis.c:10-41 | splitting inverts concatenation of self-delimiting frames if and only if there are more than 1518 bytes or at most one frame |
| RndisStreams.ShortPayloadNotSplit | engine/src/rndis.c:12-15 | two ARP frames in one short payload come out as one |
| RndisStreams.SplitCovers | engine/src/rndis.c:10-41 | the emitted frames are contiguous from the start, leave fewer than 14 bytes, and all but the last announce their own length |
| TxRing.StoreAppends | engine/src/tether_engine.c:164-175 | filling the write slot appends one record to the queue and keeps the ring well-formed |
| TxRing.StoreKeepsSlot | engine/src/tether_engine.c:164-175 | a producer changes neither bytes nor length of any slot but its own |
| TxRing.PopRemovesFirst | engine/src/tether_engine.c:193-197 | advancing the read index removes the oldest record and nothing else |
| TxRing.PushSpec | engine/src/tether_engine.c:153-179 | one producer region appends the wrapped frame or leaves the queue alone |
| TxRing.OnlyFullRejects | engine/src/tether_engine.c:159-172 | for every engine-built frame, up to 2048 bytes, a full ring is the only reason to reject |
| TxProtocol.StepKeepsInv | engine/src/tether_engine.c:153-266 | every step of every thread keeps the ring shape, the queue's contents, the in-flight slot, the retry bound and the tallies |
| TxProtocol.LeavesInOrder | engine/src/tether_engine.c:153-266 | after any run the records gone followed by those queued are the accepted frames in order; accepted = delivered + dropped + queued |
| TxProtocol.InFlightUntouched | engine/src/tether_engine.c:206-241 | from its submission until it completes or is aborted, the OUT's slot is the head of a non-empty queue and still shows the submitted bytes, and the consumer is attached |
| TxProtocol.NeverBusyAtSubmit | engine/src/usb_rndis.c:1032-1058 | the consumer submits only the head, and never while an OUT is in flight |
| TxProtocol.AtMostThreeTries | engine/src/tether_engine.c:181-241 | no frame is submitted asynchronously more than three times |
| TxProtocol.CountersExact | engine/src/tether_engine.c:81-92 | frames and bytes count exactly the delivered records; errors count the frames lost before the ring, rejected by it and dropped from it |
| TxProtocol.ConsumerDescends | engine/src/tether_engine.c:181-241 | with producers quiet, every effective consumer step lowers the pair of queue length and retries left, then the consumer's place |
| TxProtocol.ConsumerRunsOut | engine/src/tether_engine.c:181-266 | so the number of effective consumer steps is bounded by the distance |
| TxProtocol.RingEmpties | engine/src/tether_engine.c:181-266 | within 8235 steps the queue is empty, and until then a working pipe or a completion moves the consumer on |
| TxProtocol.EndToEnd | engine/src/tether_engine.c:153-266 | for whatever the ring accepted, unwrapping the delivered records yields exactly the frames cut from what got through, in acceptance order; up to 1518 bytes those are the padded frames |
| TxQueue.StartOutIsSteps | engine/src/tether_engine.c:208-241 | the start routine run alone is the corresponding sequence of steps of the machine |
| TxQueue.Engine.constructor | engine/src/tether_engine.c:61-69 | an empty ring |
| TxQueue.Engine.SendEthUsb | engine/src/tether_engine.c:153-179 | queues the wrapped frame or counts one error, by the ring's acceptance test |
| TxQueue.Engine.OnUsbOut | engine/src/tether_engine.c:181-204 | keeps the frame for a retry, or takes it off and counts it; with an empty ring only a failure is counted |
| TxQueue.Engine.SubmitOut | engine/src/usb_rndis.c:1032-1058 | refuses an empty buffer, reports busy, or takes the flag and the pointer, giving the flag back on failure |
| TxQueue.Engine.TryStartOut | engine/src/tether_engine.c:208-241 | ring, flag, pointer and error count afterwards, for every pair of answers of the pipe |
| TxQueue.Engine.DrainTx | engine/src/tether_engine.c:245-266 | ends with an empty ring; the counters split the queue by the answers of the pipe |
| InetChecksum.FoldClosedForm | engine/src/common.c:144 | folding ends with a 16-bit value congruent to the sum modulo 65535, zero only for zero |
| InetChecksum.WordSumBound | engine/src/common.c:137-143 | up to 131074 bytes the 32-bit accumulator does not overflow |
| InetChecksum.IpChecksum | engine/src/common.c:135-146 | the result of the loops is the complemented folded sum, and completes the sum to 0xFFFF |
| InetChecksum.L4Checksum | engine/src/common.c:187-210 | the running sum gives the pseudo-header checksum, with 0xFFFF for a UDP zero |
| InetChecksum.FixChecksums | engine/src/common.c:148-214 | rewrites the packet in place to its repaired form, returns -1 and writes nothing exactly for a packet it does not accept |
| InetChecksumLaws.FixVerifies | engine/src/common.c:148-214 | after the repair a checksum verifies exactly if it verified before or was missing |
| InetChecksumLaws.FixKeepsOtherBytes | engine/src/common.c:148-214 | every byte outside the two checksum fields, and every field already filled, is unchanged |
| InetChecksumLaws.FixIdempotent | engine/src/common.c:148-214 | a second repair changes nothing |
| InetChecksumLaws.DeferredCarries | engine/src/common.c:135-146 | the deferred-carry sum equals word-by-word ones' complement addition |
| DhcpOptions.ParseLayout | engine/src/dhcp_client.c:361-394 | parsing any options with pads between them, closed by END and followed by anything, or ending with the buffer, gives back exactly the options |
| DhcpOptions.LastMeans | engine/src/dhcp_client.c:373-390 | the chosen value is that of a well-sized option of the tag with no later one |
| DhcpClient.LastOptionWins | engine/src/dhcp_client.c:361-394 | taking options one at a time sets every field to the last well-sized value of its tag and leaves the others |
| DhcpFrame.RoutesAgree | engine/src/dhcp_client.c:266-279 | the checksum over the concatenated pseudo-header buffer is the one the in-place repair computes |
| DhcpFrame.DatagramIsFixed | engine/src/dhcp_client.c:228-281 | a datagram within the scratch buffer is the repair of itself with both checksums zeroed |
| DhcpFrame.FixedPointIff | engine/src/dhcp_client.c:266-280 | the repair leaves a built datagram alone if and only if UDP header and message fit 1024 bytes |
| DhcpFrame.DatagramVerifies | engine/src/dhcp_client.c:228-281 | both checksums of such a datagram pass the receiver's test |
| DhcpFrame.PutUdpChecksum | engine/src/dhcp_client.c:265-279 | the scratch buffer is filled and summed, and the checksum stored |
| DhcpFrame.Encapsulate | engine/src/dhcp_client.c:228-281 | writes exactly the frame at the start of the buffer, or nothing when it does not fit |
| DhcpMachine.AppendOpt | engine/src/dhcp_client.c:181-188 | writes one option, or nothing when it would reach the end of the area |
| DhcpMachine.Dhcp.BuildBootp | engine/src/dhcp_client.c:190-226 | the message in the buffer; 0 and an untouched buffer under 300 bytes |
| DhcpMachine.Dhcp.WantTx | engine/src/dhcp_client.c:314-353 | new state, length and bytes written by one poll |
| DhcpMachine.Dhcp.ParseOptions | engine/src/dhcp_client.c:361-394 | the byte loop takes exactly the parsed options in order |
| DhcpMachine.Dhcp.OnFrame | engine/src/dhcp_client.c:396-461 | new state and event code for every byte string |
| DhcpRuns.TimersOrdered | engine/src/dhcp_client.c:107-121 | for any lease, T1 and T2: 1 <= T1 < T2 with no wrap, T2 <= lease exactly from 2 s on, both zero for an infinite lease |
| DhcpRuns.TimersChosen | engine/src/dhcp_client.c:115-120 | usable server values are kept; cleared ones become half and seven eighths, below the lease from 8 s on |
| DhcpRuns.AckFallbacks | engine/src/dhcp_client.c:442-446 | a missing DNS server becomes the router, a missing router the server, in that order |
| DhcpRuns.Reachable | engine/src/dhcp_client.c:93-461 | in every reachable client: INIT or SELECTING exactly without an address, at most two DNS servers, backoff in 200..8000 |
| DhcpRuns.EventCodeExact | engine/src/dhcp_client.c:396-461 | 1 exactly for newly bound or a new address, -1 exactly for a refusal that ended a lease or an offer, 0 only when boundness and address stay |
| DhcpRuns.EventsSuffice | engine/src/dhcp_client.c:396-461 | over any run the event codes alone, with boundness after each poll, determine the client's address |
| DhcpPath.StepKeepsInv | engine/src/tether_engine.c:361-671 | every step of either thread, in any order, keeps: a pending closing means no lease; an open path without a lease is a past reopening, a pending closing, or a tick about to close it |
| DhcpPath.OpenWithoutLease | engine/src/tether_engine.c:361-671 | over any interleaving of the two threads, with no closing to come and outside the second half of a tick, the path is open without a lease exactly if it was last opened that way |
| DhcpPath.TickExact | engine/src/tether_engine.c:642-671 | whatever is received between the lock and the end of a tick: exactly when the path is open, with which address, whether there is a lease, and whether the path was opened without one |
| DhcpPath.RefusalReopens | engine/src/tether_engine.c:651-671 | after a tick, with no closing to come, the path is open without a lease if and only if the tick had a lease to apply and a refusal with no later lease came while it was applied |
| DhcpPath.QuietTickFollows | engine/src/tether_engine.c:642-671 | after a tick that was not disturbed the path is open exactly with a lease and with its address, from any state, except exactly when it was closed between flag and lock and the same address leased again |
| DhcpPath.NakInTheGap | engine/src/tether_engine.c:363-371 | the failing input: a concrete NAK frame between copying and applying any lease |
| DhcpRuns.AckLeases | engine/src/dhcp_client.c:435-453 | an ACK starts a well-ordered ladder exactly unless the lease is infinite |
| DhcpRuns.LadderFollowsAge | engine/src/dhcp_client.c:285-312 | after any polls the state is a function of lease age alone, and the lease is held exactly while younger than its length (section 4.4.5 of RFC 2131) |
| DhcpRuns.LadderFromAck | engine/src/dhcp_client.c:285-353 | the same from the moment of the ACK |
| DhcpRuns.ClimbingTransmits | engine/src/dhcp_client.c:299-324 | every step of the ladder, and expiry, transmits at the same poll |
| DhcpRuns.InfiniteSilent | engine/src/dhcp_client.c:287-320 | an infinite lease never transmits and never changes |
| DhcpRuns.BackoffClosedForm | engine/src/dhcp_client.c:343 | after k transmissions the backoff is min(8000, b * 2^k) |
| DhcpRuns.QuietBackoff | engine/src/dhcp_client.c:314-343 | it depends on the number of transmissions alone, whatever the polling |
| DhcpRuns.QuietSpacing | engine/src/dhcp_client.c:322-343 | consecutive transmissions are at least the current backoff apart |
| DhcpRuns.TransmissionsInWindow | engine/src/dhcp_client.c:322-343 | a window of w ms holds at most 1 + (w + 27600) / 8000 transmissions |
| DhcpMessages.MessageOptions | engine/src/dhcp_client.c:208-222 | reading a built message gives back its option list |
| DhcpMessages.TypeRoundTrip | engine/src/dhcp_client.c:361-394 | parsing a built message returns its type, in any client |
| DhcpMessages.FixedFields | engine/src/dhcp_client.c:192-206 | op, xid, ciaddr, broadcast flag, hardware address and cookie, each at its place |
| DhcpMessages.MessageFollowsState | engine/src/dhcp_client.c:190-226 | type, options 50 and 54, ciaddr and broadcast flag of a reachable client follow its state (section 4.3.6 of RFC 2131) |
| DhcpMessages.FrameCarries | engine/src/dhcp_client.c:334-339 | the frame holds source, destination, ports and the message, and both its checksums verify |
| DhcpMessages.ReplyIsUnderstood | engine/src/dhcp_client.c:419-422 | a reply with any padded, END-terminated options is taken as the last well-sized option of each tag |
| DhcpMessages.OfferIsRequested | engine/src/dhcp_client.c:424-434 | an accepted OFFER is answered at the next poll with room by a REQUEST for its address, naming the server of its option 54 |
| NetSession.Session.Run | engine/src/net_config.c:568-1044 | operations performed one after the other on the object, until the process is killed, leave the state of the life the theorems are about |
| NetSession.Session.SetPowerVerify | engine/src/net_config.c:324-345 | at most four attempts and a last reading |
| NetSession.Session.RemoveAllBackupKeys | engine/src/net_config.c:556-564 | the seven removals in order |
| NetSession.Session.RestoreDefaultRoute6 | engine/src/net_config.c:526-554 | deletes until a delete fails, then adds the recorded route |
| NetRecovery.SnapshotGuards | engine/src/net_config.c:625-682 | killed before its commit a snapshot leaves no committed backup; committed, the backup holds the configuration |
| NetRecovery.RestoreRecovers | engine/src/net_config.c:568-623 | killed anywhere, a restore leaves the configuration recoverable or in place; completed, in place with every backup key gone |
| NetRecovery.RemovalPoints | engine/src/net_config.c:556-564 | killed d steps into the removal, exactly the first d keys are gone |
| NetRecovery.RemovalCutShort | engine/src/net_config.c:556-564 | what is left is recoverable exactly unless it was the third or fourth step |
| NetRecovery.ExposedLosesRoute | engine/src/net_config.c:606-619 | after those, a completed restore loses the IPv4 default route and nothing else |
| NetRecovery.RestoreYields | engine/src/net_config.c:568-623 | from any world with a committed backup, sound or damaged, what a completed restore puts in place |
| NetRecovery.BeginGuards | engine/src/net_config.c:703-734 | killed anywhere, beginning over a leftover backup without a live default leaves the original configuration recoverable; completed, backed up |
| NetRecovery.BeginFinds | engine/src/net_config.c:703-734 | whatever was left behind, a session that begins backs up the configuration it then has |
| NetRecovery.LiveDefaultDiscards | engine/src/net_config.c:713-722 | with a live default the new backup holds the current configuration, so the old one survives exactly if it is in place |
| NetRecovery.EndRecovers | engine/src/net_config.c:736-759 | the end of a session from any recoverable state, at any kill point |
| NetRecovery.OpIsSound | engine/src/net_config.c:568-1025 | every operation keeps the configuration recoverable, and backed up while a session is open |
| NetRecovery.SessionRoundTrip | engine/src/tether_engine.c:821-840 | from any world, during any session the backup holds the configuration found at its start; its end restores it exactly, removes all backup keys and unpublishes |
| NetProgress.OpTakes | engine/src/net_config.c:568-1044 | no operation takes more than 64 steps, whatever fails |
| NetProgress.SessionCompletes | engine/src/tether_engine.c:821-840 | given enough time every session reaches its end and the round trip takes place |
| NetRecovery.NoSnapshotNoSteal | engine/src/net_config.c:888-891 | whichever commands fail, without an open session a lease application changes neither global keys nor default routes |
| NetRecovery.OpensOnlyCommitted | engine/src/net_config.c:731-733 | whichever commands fail, a session opens only over a committed backup |
| NetRecovery.CrashesAreRecovered | engine/src/main.c:226-231 | from any world in which c is in place or recoverable, after any number of lives killed at any step outside the removal, a completed restore command, or a session begun without a live default, has c |
| NetRadio.DisableOn | engine/src/net_config.c:427-451 | for every kill time what disabling a radio that is on has done: switch, record, marker, in this order |
| NetRadio.DisableOff | engine/src/net_config.c:433-438 | disabling one that is off overwrites its record and does nothing else |
| NetRadio.RestoreWifiExact | engine/src/net_config.c:761-766 | a completed restore leaves the radio on exactly if it was on, or flag, record or marker ask for it |
| NetRadio.BeginRadio | engine/src/net_config.c:703-734 | the radio when a session begins, whatever was left behind, and that the new record says so |
| NetRadio.SessionKeepsRadio | engine/src/tether_engine.c:821-840 | a completed session from any world leaves Wi-Fi power as found, if and only if it is not the case that it was off, an old marker was present and the session contained a Wi-Fi restore |
| NetRadio.OldMarkerTurnsRadioOn | engine/src/net_config.c:761-766 | the failing input: a radio that was off comes out on |
| NetRadioCrash.RestoreCommandPower | engine/src/main.c:226-231 | the restore command ends with the radio on exactly if it was on, or record or marker ask for it |
| NetRadioCrash.BeginIgnoresMarker | engine/src/net_config.c:713-731 | a completed session start, with or without a live default: when the radio is on, and when the restore command would still turn it on |
| NetRadioCrash.LateDisableLosesRadio | engine/src/net_config.c:441-448 | disabling a radio nothing else remembers loses it exactly when killed after the switch and before the record |
| NetRadioCrash.SecondDisableForgets | engine/src/net_config.c:433-438 | a second disable leaves the radio off, the record false and only the marker |
| NetRadioCrash.RestoreAfterTwoDisables | engine/src/net_config.c:409-425 | restoring then clears the marker and leaves the record false |
| NetRadioCrash.OperationKeepsRadio | engine/src/net_config.c:409-766 | for every operation, live state and kill time: the radio stays recoverable if and only if the operation does not forget it |
| NetRadioCrash.CrashesKeepRadio | engine/src/main.c:226-231 | after any number of lives with any operations, killed at any step, from any world in which something remembers the radio: a completed restore command has it on if and only if no operation of any life forgot it |
| NetRadioCrash.KilledSessionRestoresRadio | engine/src/tether_engine.c:821-840 | the same for one killed life |
| NetRadioCrash.StepRemembered | engine/src/net_config.c:409-766 | every operation at every kill time keeps: a radio switched off by this process has its marker; a radio that nothing remembers stays off and forgotten |
| NetRadioCrash.WithoutRestoreRemembers | engine/src/tether_engine.c:572-578 | a session that found the radio on and contains no Wi-Fi restore never forgets it |
| NetRadioCrash.LateApplyLosesRadio | engine/src/tether_engine.c:821-836 | begin, two lease applications, a Wi-Fi restore and a third application lose the radio exactly for two kill times |
| NetRadioCrash.LostRadio | engine/src/tether_engine.c:821-836 | one such run in full |
| NetRace.MainIsRestore | engine/src/net_config.c:761-766 | the main thread's commands by themselves leave radio, marker, flag and record as the Wi-Fi restore does |
| NetRace.MaintIsDisable | engine/src/net_config.c:427-451 | and the maintenance thread's as the Wi-Fi disable does |
| NetRace.StopRaceKeepsRadio | engine/src/tether_engine.c:825-840 | the stop sequence's first restore interleaved command by command with a late switch-off: once both are done, the end of the session has a radio on that was found on |
| NetRace.StopRaceKeepsRadioOff | engine/src/tether_engine.c:825-840 | and off, if it was found off without an old marker |
| NetRace.StopRaceKilled | engine/src/tether_engine.c:825-840 | killed at any point of any interleaving, a completed restore command has the radio on if and only if it is not off, unrecorded, without marker and without a record that asked at the start |
| NetRace.StopRaceLosesRadio | engine/src/net_config.c:409-451 | the failing input: an interleaving that reaches such a point, for any session whose record was overwritten |

## Left out

- Memory model and real time: counters are atomic steps, one clock never goes back within a run that says so; relaxed ordering adds nothing the steps do not already interleave.
- TxQueue.Engine.TryStartOut: one thread at a time, because two-state contracts cannot speak of interference; the interleavings are in TxProtocol.
- TxProtocol.InFlightUntouched: an abort is taken to end the pipe's use of the buffer, because what the pipe does is outside the program.
- TxProtocol.StepKeepsInv: a completion delivered while the consumer is between two of its own steps is not modelled, because completions run on the consumer's own run loop.
- Stall clearing, sleeps, wake-ups and the log throttle around the ring: no effect on the modelled state.
- The second write attempt inside the submission routine (WritePipeAsyncTO): its outcome is part of the pipe's one answer.
- The engine state enum, gateway MAC learning and the DHCP pre-filter: racing stores without a strong invariant, or one branch each.
- RNDIS control messages and completion parsers: easy members.
- Rndis.UnwrapBulk: `size_t` wrap-around is left out; buffer lengths are far below it.
- NULL frame and client arguments of `at_dhcp_on_frame`, and memory exhaustion in `at_dhcp_create`: one guard each; the transmit buffer's NULL guard is modelled.
- `at_dhcp_lease` and the age-forcing hooks for unit tests: text formatting and test support.
- DhcpRuns.QuietSpacing: assumes a send time later than the epoch, because the code takes a zero time for a cleared one.
- DhcpMachine.Dhcp.WantTx: milliseconds since the epoch are unbounded, because 64 bits do not run out.
- The client fields that options fill (server, mask, router, DNS) and the three lease numbers are kept as two value records inside the object: same fields, grouped.
- Process spawning, pipes, the text of scutil, networksetup and route, and its parsing: replaced by commands and readings that succeed or fail.
- The snapshot script's two `set` lines are one step: the script is handed over whole.
- Copying a missing key changes nothing, and each address family has one default route: taken as the system's behaviour.
- NetRecovery.CrashesAreRecovered: commands succeed and nobody else changes keys or routes, because a failed copy is only logged by the code and leaves nothing to recover from.
- NetRecovery.SessionRoundTrip: operations of the stop sequence and of the maintenance thread interleave as wholes, because the restore in question touches only the radio; for the radio NetRace interleaves them command by command.
- The address last applied and the path flag are stored in one step, because only the maintenance thread reads the address to decide.
- DhcpPath.TickExact: the application succeeds; `Settle(false)` is part of the steps and of the run theorem, but a failed application ends the engine.
- The refusal of malformed interface names and addresses, and the early return when the interface address cannot be set: one guard each, before any modelled command.
- The recorded interface of a default route that has a gateway: the code does not use it when restoring.
- NetSession.Session.SetPowerVerify: one radio with one name, so the rediscovery under another name is left out, as are retry sleeps, `ifconfig up` and the home directory of the marker.
- `at_net_register_service`, leftover `feth` interfaces, interface addresses and MTU: not restored by the snapshot.
- utun, UNIX sockets, signals, argument parsing, logging, the SwiftUI app and its helper: outside the cores.
