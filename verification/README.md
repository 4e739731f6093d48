# ESP-Hosted host driver and firmware: verified models

A Dafny model of the stateful core of the ESP-Hosted Wi-Fi stack: the Linux
driver's transports, command engine, MLME staging, recovery protocol, RCP
character device and access-point transaction, and the firmware's SDIO packer
and unpacker. `dafny verify dfyconfig.toml` checks everything.

Each module has two layers. A specification on values says what one step does
and carries the theorems: over every byte sequence, every run of interleaved
steps, every reachable state. A class with the driver's own fields performs
the steps in place, branch by branch and loop by loop, and each method promises
that the new state is the specified one; where a method meets replies from
outside (a firmware answer, an allocation), the reply is arbitrary.

| file | what it is about |
|---|---|
| Wire.dfy | frame header, bounds check, alignment, packing |
| UsbStream.dfy | USB byte stream: the device's writer and the host's reassembly |
| RxWindow.dfy | the raw-throughput receive window |
| CmdEngine.dfy | the pool of 20 command nodes |
| CmdOrder.dfy | the order in which commands go out, and the way back of an answer |
| BssRefs.dfy | the reference to the stored BSS and the helpers that move it |
| Mlme.dfy | AUTH, ASSOC and disconnect staging |
| MlmeLive.dfy | the events of commands that succeed are delivered |
| Recovery.dfy | recovery generation, reconstruction, boot deadline, the steps of the SDIO transport reset |
| TransportReset.dfy | SDIO transport resets across healthy boots: what is claimed and what is issued |
| ResetBudget.dfy | SDIO and SPI software-reset budgets per commit epoch |
| Rcp.dfy | the RCP stream: nonce fence, put-back, generations, TX slots |
| RcpData.dfy | which DATA an RCP session is given, and that its reader gets it |
| ApIe.dfy | element filter, five-slot AP transaction |
| SdioAggr.dfy | SDIO aggregates in both directions |
| SpiHdBatch.dfy | SPI-HD receive batches |
| Checksum.dfy | the word-at-a-time checksum |
| Counters.dfy | SDIO and SPI-HD flow-control counters |

Critical sections are actions; a run is any sequence of them, so the theorems
about runs hold under every interleaving that the locks allow and more. Issue
numbers, generations and counts are unbounded where the model needs to tell one
use from another; where the driver compares wrapped numbers, the wrap is
modelled and the count stands beside it.

## Model

| member | source | states |
|---|---|---|
| Wire.SpanFrameLen | host/include/esp_host_wire_bounds.h:12-24 | a span is accepted exactly when the payload is nonempty, the offset valid and both fit, and then its length is their sum |
| UsbStream.ChunkingIndependence | host/usb/esp_usb.c:208-309 | for any bytes, any two ways of cutting them into transfers give the same frames, leftover, pad flag, loss flag and allocations, and the leftover stays below 16384 bytes |
| UsbStream.RoundTrip | host/usb/esp_usb.c:178-273 | any list of valid frames, written by the device with its own pad rule and cut anyhow, arrives complete, in order, with no loss reported |
| UsbStream.NoLossReads | host/usb/esp_usb.c:208-273 | if no loss is reported, the bytes are the queued frames, the zero bytes the device owes between them, and the beginning of a frame as leftover |
| UsbStream.LossExactly | host/usb/esp_usb.c:208-273 | with memory to spare, however the bytes are cut, loss is reported if and only if they are not a run of frames with their pad bytes and the beginning of a frame; otherwise just these frames and that leftover arrive |
| UsbStream.UsbDevice.WriteAll | esp/esp_driver/network_adapter/main/usb/esp_usb_device.c:341-409 | success means the frame and its pad byte are on the wire, failure that only a beginning of them is |
| UsbStream.UsbRx.ParseStream | host/usb/esp_usb.c:208-273 | the parser that shifts its buffer in place ends in the state of parsing those bytes as one run |
| UsbStream.UsbRx.Ingest | host/usb/esp_usb.c:275-309 | taking in a transfer equals parsing the bytes held and the new ones as one run; the buffer-full reset never fires |
| RxWindow.StepRefines | host/esp_stats.c:451-509 | one arrival within half the number range does to window and counters what it does to a receiver that keeps the set of accepted numbers: bit i says whether expected+1+i was accepted, bit 63 is never set, lost is exactly what was given up |
| RxWindow.RunRefines | host/esp_stats.c:451-509 | the same for every run of such arrivals |
| RxWindow.ArrivalsRefine | host/esp_stats.c:446-509 | over any arrivals, good and bad, the bad payloads are counted and do nothing else: all other fields are those of the run of the good frames alone, which refines the set receiver |
| RxWindow.BulkSkipAgrees | host/esp_stats.c:462-490 | the fast path for a gap over 128 ends with the same expected number, window and losses as giving up one number at a time |
| RxWindow.EveryNumberCounted | host/esp_stats.c:451-509 | below the expected number every number is accepted or lost; the accepted ones beyond are the bits of the window |
| RxWindow.Conservation | host/esp_stats.c:451-509 | lost + total = expected + set bits + duplicates, modulo 2^64 |
| RxWindow.MildReorderIsLossless | host/esp_stats.c:451-509 | frames 0 to n-1, once each, never more than 63 ahead of the lowest missing one, end with nothing lost, no duplicate, expected n and an empty window |
| RxWindow.RawTpRx.SkipAhead | host/esp_stats.c:463-481 | the loop over 63 places and the final leap compute the fast path |
| RxWindow.RawTpRx.Update | host/esp_stats.c:446-509 | the update, loops included, is the specified step |
| CmdEngine.StepKeeps | host/esp_cmd.c:801-915 | every critical section keeps the whole invariant: lists, flags, phases, counts and records agree |
| CmdEngine.OneOwner | host/esp_cmd.c:801-915 | in every reachable state a node is free, pending, current or held, never two of these, and at most once on a list |
| CmdEngine.PoolNeverReleasedUnderAnOwner | host/esp_cmd.c:3844-3869 | when the pool has been released, every node is on the free list, nothing is pending or current, and no count is outstanding |
| CmdEngine.IdleMeansAllFree | host/esp_cmd.c:1128-1148 | an in-use count of zero means every node is back, although the list is filled before the count drops |
| CmdEngine.OneResultEach | host/esp_cmd.c:1247-1345 | a command completes once, is submitted once and gets one result, the one it completed with |
| CmdEngine.EveryCommandAnswered | host/esp_cmd.c:1247-1345 | with no node in use, every command issued has had its result or was dropped before hand-over, not both |
| CmdEngine.ResultsAreFinal | host/esp_cmd.c:1753-1893 | no later step changes or withdraws a recorded completion |
| CmdEngine.CompletionsAreSound | host/esp_cmd.c:1753-1850 | a response completes only the command with its code and number, after submission; a command that expired while pending is never submitted; the missing-buffer branch of the worker is never taken |
| CmdEngine.NoWaiterForgotten | host/esp_cmd.c:1196-1245 | a pending command is neither complete nor submitted, and whoever waits without a result is pending or current |
| CmdEngine.AbortWakesEveryone | host/esp_cmd.c:3871-3899 | after an abort the pending list is empty and every waiter has a result |
| CmdEngine.ReturnedIsNotPending | host/esp_cmd.c:1304-1315 | a caller that returned from its wait is off the pending list, so the second removal finds nothing |
| CmdOrder.NormalInOrder | host/esp_cmd.c:878-915 | in every run, of two normal commands the one handed over first is never submitted after the other, nor still waiting when the other has been submitted |
| CmdOrder.HighGoesNext | host/esp_cmd.c:899-904 | in every run, as long as a high-priority command waits and no other one has come after it, it is at the front, nothing has been submitted since, and the free worker submits it |
| CmdOrder.FrontGoesOut | host/esp_cmd.c:1499-1617 | a worker free to submit submits the first of the list and leaves the others in order |
| CmdOrder.CommandGoesOut | host/esp_cmd.c:801-915 | on an idle engine a command that is taken, numbered and handed over is submitted and waited for under its code and the next number |
| CmdOrder.ResponseReachesCaller | host/esp_cmd.c:1753-1850 | in every run, a response with the code and number of the command in flight completes it, and its sleeping caller gets just that answer |
| CmdOrder.LinkFailureReachesCaller | host/esp_cmd.c:1852-1893 | in every run, a transport failure for the command in flight reaches its sleeping caller |
| CmdOrder.ExpiredIsWithdrawn | host/esp_cmd.c:1196-1245 | in every run, a caller whose time is up while its command waits is told that it expired unsent; it is off the list and was never submitted |
| CmdOrder.NodeComesBack | host/esp_cmd.c:1128-1148 | the last steps of a caller put the node back, blank, and then lower the count |
| CmdOrder.TeardownReleases | host/esp_cmd.c:3844-3869 | a teardown releases the pool exactly when no node is in use |
| CmdOrder.SetupBringsUp | host/esp_cmd.c:3901-3947 | with nothing in use a setup brings the engine up with twenty free nodes |
| CmdEngine.CommandEngine.Abort | host/esp_cmd.c:3871-3899 | the loop over the pending list retires every entry in order |
| CmdEngine.CommandEngine.WorkOne | host/esp_cmd.c:1499-1617 | the worker's branches: busy, empty, refused, malformed, submitted, submission failed |
| CmdEngine.CommandEngine.WaitGuard | host/esp_cmd.c:1196-1245 | a caller whose time is up retires its command if still pending |
| CmdEngine.CommandEngine.Decode | host/esp_cmd.c:1286-1323 | the locked end of the wait: slot given up, late result taken, otherwise timed out |
| Mlme.AuthDeliveredOnce | host/esp_cmd.c:187-217 | in every run each AUTH command has a number of its own and leads to one delivered frame at most, with its number and BSSID, and only after the command succeeded |
| Mlme.AssocDeliveredOnce | host/esp_cmd.c:219-280 | each ASSOC command has a number of its own and leads to one delivered frame at most, with its number and BSSID, and a nonzero connection generation is the number of the last association delivered with status zero |
| Mlme.RemoteDisconnectOnce | host/esp_cmd.c:308-364 | an association is ended from the other side once at most, and only one this driver asked for |
| MlmeLive.AuthIsDelivered | host/esp_cmd.c:573-698 | in every run in which nothing gives the command or its event up, the event of an AUTH command that succeeds, arriving before or after its end, has been delivered, or staging and flushing deliver it now, as one record more |
| MlmeLive.AssocIsDelivered | host/esp_cmd.c:219-280 | the same for ASSOC, with its status, and with the connection generation that follows from the status: its number on success, unchanged or zero on refusal |
| MlmeLive.DisconnectIsDelivered | host/esp_cmd.c:308-364 | the same for a local disconnect |
| MlmeLive.RemoteDisconnectIsDelivered | host/esp_cmd.c:308-364 | the other side's disconnect of the association in force is let in, and staging, flushing and delivering end the association |
| MlmeLive.NothingComesLate | host/esp_cmd.c:470-532 | after a timeout or a cancellation nothing that was expected is delivered any more, wherever it was on its way, until the next command, and that is not refused |
| MlmeLive.RetiringClears | host/esp_cfg80211.c:1347-1389 | retiring an old connection takes its staged disconnect for delivery and frees the slots for the next |
| MlmeLive.CommandStoresBss | host/esp_cmd.c:78-101 | once the helpers rest, a successful AUTH, or an ASSOC that found nothing stored, has its BSS stored with one reference |
| MlmeLive.AssocEndsWithBss | host/esp_cmd.c:103-138 | a successful ASSOC stores the BSS cfg80211 gave, unless its event is delivered already; a failed one gives back what it had stored |
| MlmeLive.EndForgetsBss | host/esp_cmd.c:219-364 | after a delivered association or disconnect, a timeout of a disconnect, or a disconnect without an event, no BSS is stored and no reference left |
| Mlme.OneReferencePerStoredBss | host/esp_cmd.c:60-138 | over every interleaving of commands, events and the steps of the BSS helpers, no put misses a reference the driver owns, every reference held belongs to the stored BSS or to a helper still under way, and with none under way the pointer is set exactly when one reference is held |
| Mlme.HelpersComeToRest | host/esp_cmd.c:60-138 | from every reachable state the helpers under way end by their own steps, and the references balance |
| BssRefs.OneReferenceAtRest | host/esp_cmd.c:60-138 | the same balance for helpers called in any number and order |
| BssRefs.StepsEnd | host/esp_cmd.c:60-138 | every step brings its helper nearer its end |
| BssRefs.TakeAssocWhole | host/esp_cmd.c:103-138 | the four branches of the association helper: dropped, kept, same BSS, other BSS; the references of everyone else stay as they are |
| BssRefs.RefBssWhole | host/esp_cmd.c:78-101 | the reference helper as a whole stores the BSS with one more reference, or none more when it is stored already, and puts the one it replaces; the references of everyone else stay as they are |
| BssRefs.PutBssWhole | host/esp_cmd.c:60-76 | the put helper as a whole clears the pointer and puts what it held |
| BssRefs.HandOverWhole | host/esp_cmd.c:268-279 | a delivered association takes the stored BSS and its reference along |
| BssRefs.Holder.TakeAssocBss | host/esp_cmd.c:103-138 | the helper on the driver's fields does the same |
| Mlme.AuthQueueBounded | host/esp_cmd.c:691-698 | at most eight AUTH frames are staged |
| Mlme.Staging.EndOp | host/esp_cmd.c:629-657 | the end of a command sets what is awaited and tells whether staged work is left |
| Mlme.Staging.DeliverAssocFrom | host/esp_cmd.c:219-280 | delivery closes the command, sets the generation, hands the BSS reference over |
| Mlme.Staging.DeliverDiscFrom | host/esp_cmd.c:308-364 | the three ways a disconnect event matches, and what is forgotten |
| Mlme.Staging.TakeStaged | host/esp_cmd.c:392-430 | the flush keeps, purges or takes the AUTH queue as the guard says |
| Mlme.Staging.FlushAll | host/esp_cmd.c:416-449 | the whole flush takes what is staged and delivers it event by event |
| Mlme.DeliverAllIsRun | host/esp_cmd.c:432-443 | those deliveries are a run of single ones, so other steps may come in between without new cases |
| Mlme.Staging.TimeoutWork | host/esp_cmd.c:470-505 | every awaited event is given up and a recovery asked for |
| Recovery.CommitLosesNoRequest | host/main.c:898-957 | a request or claim since reconstruction began survives the commit: pending, receive-only link, worker started, not healthy; without one the flags are cleared and the link opened |
| Recovery.NoFinishAfterReset | host/main.c:962-981 | after a reset request or claim no finish can succeed before a new reconstruction begins or the device is bound anew |
| Recovery.NoRequestForgotten | host/main.c:185-228 | a request of any kind is forgotten only by a worker pass or reconstruction that began after it |
| Recovery.RequestIsTakenUp | host/main.c:185-485 | a request made while nothing bars the worker gets a pass that has seen it, and the restored session clears it unless a firmware reset is expected |
| Recovery.PassOnlyWhenNeeded | host/main.c:359-417 | the worker enters a pass only when armed, with the way clear and something to recover |
| Recovery.UnfinishedPassIsRetried | host/main.c:426-485 | a pass that did not bring the session back leaves the worker armed and the request pending |
| Recovery.FailedBootClearsTheWay | host/main.c:911-921 | a reconstruction that fails no longer bars the worker |
| Recovery.ExpiryRestarts | host/main.c:272-357 | a deadline found expired leads to another counted restart, or after three to the end of all attempts |
| Recovery.NewBindingStartsClean | host/main.c:245-270 | a binding that is not in the middle of a counted reset starts with its whole budget and no request |
| Recovery.BootReconstructs | host/main.c:898-909 | the boot handler's first steps own the session and open the link |
| Recovery.BootCommits | host/main.c:923-981 | without a request in between its last steps end healthy, one commit on, with the budget given back |
| TransportReset.StaleResetNeverExecuted | host/sdio/esp_sdio.c:1275-1420 | in every run, each transport reset issued, in hardware or software, was asked for in the commit epoch in which it is issued: none outlives a healthy boot |
| TransportReset.ClaimIsOfThisEpoch | host/sdio/esp_sdio.c:162-235 | what a claim takes was asked for in the current commit epoch if and only if no software request has put a fresh stamp on an older hardware request since that was last asked for; where one has, the hardware reset is latched as unavailable |
| TransportReset.StaleClaimIsHarmless | host/sdio/esp_sdio.c:1292-1346 | a claim of an older request costs one pass: up to the end of it no reset of either kind is issued |
| TransportReset.OldRequestIsClaimed | host/sdio/esp_sdio.c:1370-1393 | a run through the latch in which a hardware request of epoch 0 is claimed in epoch 1 |
| TransportReset.OnePowerCyclePerRestart | host/sdio/esp_sdio.c:1280-1306 | however passes and requests interleave, the chip is power-cycled at most once for each counted restart |
| TransportReset.AtMostThreePowerCycles | host/sdio/esp_sdio.c:1280-1306 | so at most three times between two healthy finishes or new bindings |
| TransportReset.AskedResetIsIssued | host/sdio/esp_sdio.c:1239-1420 | a reset asked for before a pass is claimed and issued by it: in hardware where that works and the deadline was not struck for, else by the numbered CLOSE |
| TransportReset.FailedHardResetFallsBack | host/sdio/esp_sdio.c:1365-1393 | a hardware reset that fails arms the software one for the next pass, and is latched as unavailable if it is unsupported |
| Recovery.AtMostThreeRestarts | host/main.c:272-306 | between two healthy finishes or new bindings at most three restarts are dispatched |
| Recovery.OneRestartPerDeadline | host/main.c:272-306 | after a restart is dispatched no run dispatches another, until the worker finds the deadline expired or the budget is given back |
| Recovery.Adapter.StartWorker | host/main.c:359-417 | the worker's exits in their order, the deadline before cleanup and reconstruction |
| Recovery.Adapter.EndWorker | host/main.c:426-485 | a restored session clears the request unless a newer one came or a reset is expected |
| Recovery.Adapter.CommitUnderLock | host/main.c:939-951 | the commit's two outcomes |
| Recovery.Adapter.ClaimTransportReset | host/sdio/esp_sdio.c:196-235 | nothing, stale, hardware or software, and the quarantine that goes with a claim |
| Recovery.Adapter.ResetTarget | host/sdio/esp_sdio.c:1239-1257 | hardware where the chip can be reset as a whole and the latch is clear, else software while the budget allows, else refused |
| Recovery.Adapter.HardResetAndReopen | host/sdio/esp_sdio.c:1292-1358 | the hardware reset is issued exactly when a deadline runs, the chip can be reset and it was not issued for that deadline before |
| ResetBudget.SdioBounded | host/sdio/esp_sdio.c:112-177 | however commits, callbacks, requests and resets interleave, no more than three software resets are charged per epoch and binding |
| ResetBudget.SdioFreshAfterAdvance | host/sdio/esp_sdio.c:876-890 | after any run short of the wrap, and whichever callbacks have run, a new incarnation has its whole budget |
| ResetBudget.SdioGrantsThree | host/sdio/esp_sdio.c:112-177 | in every such run exactly the first three resets of an epoch and binding are charged; none within the budget is refused |
| ResetBudget.SpiBounded | host/spi/esp_spi.c:784-834 | no more than three per epoch and binding for SPI either, failed queueings and rebindings included |
| ResetBudget.SpiGrantsThree | host/spi/esp_spi.c:784-834 | of the requests of a new epoch, one after the other, exactly the first three are charged |
| ResetBudget.FailedQueueingIsFree | host/spi/esp_spi.c:823-832 | a reset that could not be queued costs nothing |
| ResetBudget.SpiBudget.AfterQueueing | host/spi/esp_spi.c:823-832 | the roll-back touches only the epoch that was charged |
| Rcp.ReadsAreAPrefix | host/esp_rcp.c:342-400 | what an opener has read, with the frame in its hands, is a prefix of the DATA accepted for that open; without overflow nothing accepted is missing |
| Rcp.NothingBeforeAck | host/esp_rcp.c:185-250 | before its ACK a session can read nothing, and a reopen has been given no DATA at all |
| RcpData.AcceptedIsAppended | host/esp_rcp.c:871-960 | in every reachable state with a session, a frame joins its stream and its record if and only if the session is ready and acknowledged with fewer than 64 frames queued, or the first of its boot with fewer than 64 in quarantine |
| RcpData.RecordIsWhatWasHeard | host/esp_rcp.c:871-960 | over any run a descriptor's record is what it began with and the frames so accepted, in order |
| RcpData.OpenBinds | host/esp_rcp.c:185-250 | a device that is up can be opened; the opener has the session and, on a first open, the DATA in quarantine as its record |
| RcpData.AckLetsThrough | host/esp_rcp.c:614-659 | in every run the ACK of an open session makes readable what was in quarantine, and nothing on a reopen |
| RcpData.ReaderIsGivenTheHead | host/esp_rcp.c:342-400 | the reader with the session gets the frame at the head, as much as it asks for |
| RcpData.BootDataReachesFirstOpen | host/esp_rcp.c:559-612 | up to 64 frames that arrive between a boot event and the set-up reach the first opener, in order, once the firmware has acknowledged |
| RcpData.TooManyFailTheSetUp | host/esp_rcp.c:724-777 | with more than 64 the set-up fails, nothing of them is left and no device can be opened |
| RcpData.QuarantineIsForTheFirst | host/esp_rcp.c:614-659 | in every run a session not yet acknowledged has its DATA quarantined if and only if no session of this boot was acknowledged before it |
| RcpData.SessionEnds | host/esp_rcp.c:287-340 | close, missing acknowledgement, boot and removal leave nobody with a session and nothing to read; the first two ask for a firmware reset |
| RcpData.OverflowAsksForReset | host/esp_rcp.c:941-959 | a frame that finds the queue full empties it and asks for a firmware reset |
| Rcp.StaleNeverCurrent | host/esp_rcp.c:761-773 | a descriptor that lost its session never regains one |
| Rcp.ReadQueueBounded | host/esp_rcp.c:932-954 | the read queue holds at most 64 frames and one put back; the early queue 64 |
| Rcp.SlotsBounded | host/esp_rcp.c:158-181 | at most 64 TX slots are granted, though the counter may overshoot |
| Rcp.SlotsGranted | host/esp_rcp.c:146-181 | after any run a writer gets a slot exactly if fewer than 64 increments stand, and each given back makes room for one |
| Rcp.RcpDevice.SessionAck | host/esp_rcp.c:614-659 | the ACK moves early DATA ahead of later DATA on a first open and purges on a reopen |
| Rcp.RcpDevice.RxFrame | host/esp_rcp.c:871-960 | where a DATA frame goes: early, dropped, quarantined, readable, overflow |
| Rcp.RcpDevice.CopyToUser | host/esp_rcp.c:380-395 | a partial read puts the rest back at the head |
| ApIe.FilterMeaning | host/esp_cfg80211.c:1849-1897 | the output's elements are those of the input that are in neither HEAD nor TAIL, in order; the trailing bytes, an element cut short or less, stay |
| ApIe.FilterLosesNothing | host/esp_cfg80211.c:1849-1897 | every input element is in HEAD, TAIL or the output; no output element is in HEAD or TAIL |
| ApIe.FilterTwice | host/esp_cfg80211.c:1849-1897 | filtering twice is filtering once |
| ApIe.ElementsAre | host/esp_cfg80211.c:1827-1845 | a string has one decomposition only into elements of two bytes plus their length and a rest without one, and the walk finds it |
| ApIe.FindTlv | host/esp_cfg80211.c:1827-1845 | the walk finds exactly the complete elements |
| ApIe.FilterInto | host/esp_cfg80211.c:1865-1887 | the loop fills its buffer with the filtered elements |
| ApIe.PlanIsDeduplicated | host/esp_cfg80211.c:1794-1825 | no extra element sent repeats one of the HEAD or TAIL that will be in force |
| ApIe.PlanFeedsSlots | host/esp_cfg80211.c:1935-2056 | which field ends up in which slot: the head from byte 34, the tail, beacon and probe extras without what head and tail in force hold, association extras unfiltered; a field not given keeps its slot, or empties it on a change |
| ApIe.ComparedIsInForce | host/esp_cfg80211.c:1794-1825 | extras are compared with what the first two slots will hold |
| ApIe.AccessPoint.SetIes | host/esp_cfg80211.c:1935-2056 | with a sound request, memory and every command done, and only then, all requested slots are set and cached; else the cache is untouched |
| ApIe.AccessPoint.RollBack | host/esp_cfg80211.c:2182-2199 | after a failed slot the firmware is back at the cache, or a recovery is requested |
| ApIe.AccessPoint.ChangeIes | host/esp_cfg80211.c:2058-2222 | all requested slots exactly if request, memory and commands allow it, else all old ones; cache equal to firmware, or a recovery, which is not asked for when all is done or one command is refused and taken back |
| ApIe.AccessPoint.StartAp | host/esp_cfg80211.c:2284-2400 | a start succeeds exactly if request, memory, commands and configuration allow it, and then holds the requested slots; a failed one ends empty or in recovery |
| ApIe.AccessPoint.StopAp | host/esp_cfg80211.c:2402-2438 | a stopped AP ends empty or in recovery |
| ApIe.AnyRun | host/esp_cfg80211.c:2252-2438 | every run of start, change and stop keeps cache and firmware equal or has asked for a recovery, and asks for none while the firmware does what it is told |
| SdioAggr.WalkUndoesPack | esp/esp_driver/network_adapter/main/app_main.c:1572-1760 | unpacking undoes packing, whatever number of zeros follows, on both sides |
| SdioAggr.WalkIsMeaning | host/sdio/esp_sdio.c:1995-2105 | on both sides, any aggregate, malformed or not, is read as its frames up to the first place where there is none, with an error unless that is a proper end, and as nothing else |
| SdioAggr.FastPathIsWalk | host/sdio/esp_sdio.c:2040-2044 | the single-frame path returns what the walk would |
| SdioAggr.HostReadsFirmware | host/sdio/esp_sdio.c:1995-2105 | what the firmware packs the host unpacks |
| SdioAggr.FirmwareReadsHost | host/sdio/esp_sdio.c:2696-2701 | what the host packs and pads to whole blocks the firmware unpacks |
| SdioAggr.FillConserves | esp/esp_driver/network_adapter/main/app_main.c:1347-1430 | one aggregate and what stays queued are, together and in order, what there was |
| SdioAggr.FillFits | host/sdio/esp_sdio.c:2506-2509 | no aggregate exceeds its size |
| SdioAggr.OneBufferEach | host/sdio/esp_sdio.c:2605 | an aggregate needs exactly one of the slave's buffers |
| SdioAggr.RunConserves | host/sdio/esp_sdio.c:2173-2209 | across aggregates and arrivals, in each priority what was sent followed by what still waits is all that arrived, in order |
| SdioAggr.EndToEnd | host/sdio/esp_sdio.c:2420-2586 | however a queue is cut into aggregates, the other side receives exactly its good frames, in order |
| SdioAggr.FirmwareToHost | esp/esp_driver/network_adapter/main/app_main.c:1347-1430 | for any packets and any latency limit, the host reads exactly the packets, type, number and payload, that are neither empty nor too long, in order |
| SdioAggr.HostToFirmware | host/sdio/esp_sdio.c:2420-2586 | the firmware reads the bytes, up to offset plus length, of exactly the packets that are well-formed and not stale commands, in order |
| SdioAggr.RunArrives | host/sdio/esp_sdio.c:2420-2586 | with packets arriving between aggregates the other side receives exactly the good frames of the packets sent, in order |
| SdioAggr.FirmwareStream | esp/esp_driver/network_adapter/main/app_main.c:1298-1430 | with packets arriving between aggregates, the host has read exactly the sendable ones of all ever queued but the last, which are those deferred and still queued |
| SdioAggr.HostStream | host/sdio/esp_sdio.c:2173-2586 | with packets arriving between aggregates, of each priority class the firmware has read exactly what the packets ever queued carry, but for the last, which are those still waiting, in order |
| SdioAggr.HigherGoesFirst | host/sdio/esp_sdio.c:2420-2432 | no packet leaves while one of a higher priority is left behind |
| SdioAggr.UrgentTravelsAlone | host/sdio/esp_sdio.c:2496-2505 | a command, an 802.15.4 frame or a data frame of up to 256 bytes is the only one of its aggregate |
| SdioAggr.SmallTravelsAlone | esp/esp_driver/network_adapter/main/app_main.c:1380-1428 | a payload up to the latency limit is the only one of its aggregate |
| SdioAggr.AggregateIsFull | host/sdio/esp_sdio.c:2420-2586 | an aggregate is closed only when the queue is empty, it is full, the next frame does not fit, or one must travel alone |
| SdioAggr.HostPacker.Enqueue | host/sdio/esp_sdio.c:2175-2209 | a packet goes behind its own priority and before the lower ones |
| SdioAggr.FirmwarePacker.PackOne | esp/esp_driver/network_adapter/main/app_main.c:1347-1430 | the loop with its deferred slot writes that aggregate and leaves that queue |
| SdioAggr.HostPacker.PackOne | host/sdio/esp_sdio.c:2420-2586 | the loop over three queues writes that aggregate and leaves those queues |
| SdioAggr.WalkFrom | host/sdio/esp_sdio.c:2046-2102 | the unpacking loop computes the walk, errors included |
| SdioAggr.ReadPacket | host/sdio/esp_sdio.c:1995-2105 | runt, invalid, single and aggregate all read as the walk says |
| SpiHdBatch.SplitIsTheOnlyLayout | host/spi_hd/esp_spi_hd.c:1492-1526 | a batch is accepted exactly when it is the zero-padded concatenation of a frame list, the last perhaps unpadded, and of one list only |
| SpiHdBatch.PackedIsLaidOut | host/spi_hd/esp_spi_hd.c:1514-1522 | what a sender packs is accepted |
| SpiHdBatch.ValidatedIsAccepted | host/spi_hd/esp_spi_hd.c:1608-1615 | a validated frame passes the per-frame check, so no batch fails half way |
| SpiHdBatch.Validate | host/spi_hd/esp_spi_hd.c:1492-1526 | the validator and the splitter agree on acceptance and count |
| SpiHdBatch.Receiver.ProcessBuf | host/spi_hd/esp_spi_hd.c:1528-1556 | a frame is trimmed and goes to the queue of its interface |
| SpiHdBatch.Receiver.ProcessBatch | host/spi_hd/esp_spi_hd.c:1558-1619 | a batch is published exactly if it is well-formed and memory suffices, every frame in order and in its queue; else nothing is |
| Checksum.Compute | host/include/adapter.h:594-624 | for any content, length up to 65535 and address the result is the sum of all bytes modulo 65536 |
| Checksum.SumWords | host/include/adapter.h:603-618 | up to 64 words carry nothing from lane to lane, and the lanes add up to the bytes |
| Checksum.MasksSplitTheWord | host/include/adapter.h:614-615 | the masks, on machine words, take the bytes apart as the lanes need them |
| Checksum.NoOverflow | host/include/adapter.h:594-624 | no prefix of a buffer of 65535 bytes reaches 32 bits |
| Counters.RxDeltaIsTrue | host/sdio/esp_sdio.c:537-542 | the 20-bit difference is the number of bytes published and not consumed |
| Counters.ReadAll | host/sdio/esp_sdio.c:1938-1989 | the read loop moves the cursor by exactly the length and ends |
| Counters.EveryByteReadOnce | host/sdio/esp_sdio.c:537-542 | over any number of reads and wraps every byte is read once and the cursor is the slave's count |
| Counters.TxBuffersNeverTooMany | host/sdio/esp_sdio.c:505-526 | the 12-bit difference is what is posted and not used, ten at most |
| Counters.SdioCredits.Reserve | host/sdio/esp_sdio.c:2239-2283 | a reservation keeps written, reserved and cached credits within what is posted, and succeeds exactly when by its last look a buffer is free |
| Counters.SdioCredits.Written | host/sdio/esp_sdio.c:2773-2776 | a write stays within what is posted |
| Counters.AcceptedReadIsTrue | host/spi_hd/esp_spi_hd.c:1329-1349 | a torn reading that is accepted is a value the counter really had |
| Counters.TrueReadIsAccepted | host/spi_hd/esp_spi_hd.c:1329-1349 | a reading that is not torn is accepted exactly when it shows a credit |
| Counters.SpiCredits.WaitCredit | host/spi_hd/esp_spi_hd.c:1307-1389 | a wait that succeeds leaves a credit that was published and not used; it does succeed with a credit left over or one clean reading that shows one |
| Counters.SpiCredits.SendSegment | host/spi_hd/esp_spi_hd.c:1461-1486 | segments sent never exceed credits published, across the 32-bit wrap |

## Left out

- Hardware and kernel: register and bus access, URB submission, DMA, interrupts, work queues and timers as such; each is an action, a parameter or an arbitrary reply.
- cfg80211, netdev and HCI registration, module parameters, debugfs, logging, rate tables, OTA, power save, wake-up filters, diagnostics of the SPI-HD bus, the firmware's Wi-Fi and radio libraries: glue or foreign code.
- The test interface: raw-throughput sequence rewriting inside aggregates, and the fill and check of its payload pattern (host/esp_stats.c), whose outcome is a parameter of the window's step.
- USB transmit work and its flush accounting.
- Decoding of command responses after the locked section of the wait, and the remapping of a result while the driver is inactive.
- CmdEngine: setup and teardown run on one control thread; a setup is one step.
- Mlme: issue numbers do not wrap (fewer than 65535 issues while an old one is live) and do not restart with a new command setup, as if no number from before it were still in use; the wiphy is present whenever a reference is put, and a local disconnect may be reported more than once: no bound on how often is claimed.
- MlmeLive: what gives a command or its event up is spelled out by the predicates AuthBenign, AssocBenign and DiscBenign; that work queues run at all is not modelled, so delivery is stated as what staging and flushing do from the state reached.
- Recovery: jiffies do not wrap, and a deadline of exactly zero jiffies is not used; the theorems that compare generations or epochs assume fewer than 2^32 requests, or commits, in the run. Removal and a new binding wait until worker and boot handler of the old one have finished (host/sdio/esp_sdio.c:672-674), and a reset request that passed its removal check is not still under way when the binding is cleared. While no function is bound the model lets requests be made that the driver refuses.
- ResetBudget: rebinding starts a new count within an epoch, so the bounds are per epoch and binding; an SPI rebinding starts with no request half-way through its queueing.
- Rcp: an overflow and the reset it asks for are one step, which rests on there being one receive worker; the generation does not wrap; the nonce and the capability change only while no session is active, so the boot handler's clearing of the nonce and its notification are not interleaved with an open.
- Rcp.ReadsAreAPrefix: after an overflow the stream stops rather than continues, because the reset that is asked for keeps the session from being ready until the next boot.
- ApIe: outside cleanup and unloading only; there a refused command may leave cache and firmware apart without a recovery.
- SdioAggr: packets arrive between aggregates, not while one is filled; a failed or abandoned transfer loses its aggregate. The firmware's aggregate size, receive buffer size and latency limit are parameters. The per-frame checksum check of a firmware built with checksums is not part of the unpacker.
- SdioAggr: the firmware's single-packet path, taken while the data path is closed or the aggregate buffer is missing.
- SdioAggr.HostToFirmware: assumes that each well-formed packet fits into an aggregate and into the firmware's receive buffer, which the host's size check at queueing provides for the first.
- SdioAggr.HostStream: the same; and whether a command is stale is what the packer finds when it takes the packet off its queue.
- Counters: assume that the slave keeps its outstanding window below the modulus, and below 33 descriptors for SPI-HD.
- Counters.SdioCredits.Written: a failed write is followed by a recovery and a new baseline; what the slave did with it is not modelled.
- A 64-bit `unsigned long` is assumed where counters are added without a bound.
