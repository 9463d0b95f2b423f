# Verified model of the channel-mask planners and the Application Server session protocol

The project models two parts of The Things Stack and proves properties of them with Dafny 4.11.
`dafny verify dfyconfig.toml` checks everything.

**Channel masks** (`pkg/band/channel_mask.go`). A Network Server changes the enabled uplink channels
of a device with a list of (ChMaskCntl, ChMask) commands, the channel mask of a LinkADRReq in
section 5.2 of LoRaWAN 1.0.2. The decoders give a command its meaning as a partial overwrite of the channel
state, and the planners compile "current channels, desired channels" into a short list of commands.

- `ChannelMask`: the decoders, what a device does with a list of commands, order independence.
- `BlockPlanner`: the block-wise planner, over any number of 16-channel blocks.
- `LowerBound`: a potential that no command lowers by more than one. It bounds the length of *every*
  sequence of commands between two states, and so makes optimality provable.
- `UniformPlanners`, `SubBandPlanner`: the planners for 16, 48, 64 and 96, and for 72 channels.
- `Deviations`: concrete inputs on which the planners break their promises, and the Network Server's own decoding.

**The Application Server** (`pkg/applicationserver`). A device has a current and a pending session, each
with a key, an address and a downlink frame counter. Join-accepts, uplinks, queue invalidations, nacks and
pushes move this state; a push encrypts its items for the eligible sessions and goes through a bounded
retry loop that rebuilds the sessions from the diagnostics of the Network Server. The Network Server and
the Join Server are arbitrary: `Peers` holds any answer to any request.

- `Payload`, `DownlinkQueue`, `Handlers`: encryption, the retry loop and the handlers on values, with persistence.
- `HandlerEffects`: what each handler stores and sends, from the event, the device and the peers' answers alone.
- `FrameCounters`, `QueueRecalculation`, `ConfirmedRetries`: what holds over whole runs, across a change of
  sessions, and for repeated nacks.
- `QueueOperation`, `ApplicationServer`: devices, sessions and messages as objects updated in place. Every
  method is proved to have the effect that the value-level specification gives; the theorems are about that.

**Smaller parts**: `FieldMigration` (the registry wrapper), `BandListing`, `Beacon`.

## Where the code and its promises differ

For each of these the exact condition is proved in the lemma of the planner or handler and, unless the
condition itself names the input, a concrete input is given.

- The planner for 72 channels looks for changes of the 500 kHz channels from channel 65 on
  (`pkg/band/channel_mask.go:390`, `:500`). A change of channel 64 alone is lost unless the route
  starts with ChMaskCntl 6 or 7: `PlanMeaning`, `Channel64StaysOn`.
- Without atomic processing, the comment at `pkg/band/channel_mask.go:442` promises that the device is
  never muted on the way. The unsorted lists returned at `:399` and `:432` break this exactly if they hand over from the
  device's channels to later ones: `StepwiseNeverMuted`, `MovingUpMutes`.
- Without atomic processing the planner never considers ChMaskCntl 6 once ChMaskCntl 7 would have been
  as short, and so misses shorter lists: `StepwisePlanShortest`, `FourCommandsForThree`.
- The planners for 48 and 64 channels miss the one-command plan if two blocks are short of a uniform
  state, because of `len(pairs) <= 2`: `TwoSidedPlanCorrect`, `TwoCommandsForOne`.
- The documentation promises a singleton no-op if nothing changes (`pkg/band/band.go:76`). The 48 and 64
  channel planners return an empty list, and only then: `TwoSidedPlanCorrect`.
- The 48 and 64 channel decoders enable eight channels that do not exist, so the Network Server cannot
  record the acknowledgement of a plan that first enables all channels: `PlansRecorded`, `PlanNotRecorded`.
- A nack whose retries are used up returns an empty mask, so that a session match made on the way is
  lost (`pkg/applicationserver/applicationserver.go:1438`): `PersistenceSound`, `DroppedNackLosesMatch`.
- A retry limit of 2^32 - 1 never ends, because the attempt counter wraps around: `RetriesEnd`.
- The error of a contradicting write is dropped (`pkg/applicationserver/registry.go:75`), and a write that
  clears the new field alone can bring the old flag back to life: `WriteTakesEffect`, `WritesWithoutEffect`.
- A queue invalidation for a device without a session dereferences a null pointer when payload
  cryptography is skipped (`pkg/applicationserver/applicationserver.go:1332`), and no other handled message
  does: `CrashesExactly`, `UnjoinedDeviceCrashes`.

## Model

| member | source | states |
|---|---|---|
| ChannelMask.ParseChMask | pkg/band/channel_mask.go:29-38 | The loop fills a map with exactly the mask's bits, numbered from the offset, whenever they fit a uint8 |
| ChannelMask.StepBlock | pkg/band/channel_mask.go:53-179 | In every decoder, a ChMaskCntl below the number of blocks overwrites the channels of its block and no other |
| ChannelMask.StepWide | pkg/band/channel_mask.go:40-179 | What every other ChMaskCntl does in every decoder, and which are rejected |
| ChannelMask.RunBlocks | pkg/band/channel_mask.go:113-118 | A list of block commands is accepted and leaves in each channel the bit of the last command for its block |
| ChannelMask.OrderIndependence | pkg/band/channel_mask.go:441-451 | All permutations of block commands with distinct ChMaskCntl lead to the same state |
| ChannelMask.BoolsTo16BoolArray | pkg/band/channel_mask.go:181-190 | Up to 16 bits are copied in order and padded with disabled channels |
| ChannelMask.EqualChMasks | pkg/band/channel_mask.go:204-216 | The loop decides equality of two channel lists |
| ChannelMask.CountTrue | pkg/band/channel_mask.go:237-245 | The loop counts the enabled channels |
| ChannelMask.TrueCountExtremes | pkg/band/channel_mask.go:367-368 | A count of zero or of all channels means that none or all are enabled |
| BlockPlanner.GenerateChMaskMatrix | pkg/band/channel_mask.go:218-235 | The nested loops append the block plan to the given pairs, and fail exactly for lengths that differ or are no multiple of 16 |
| BlockPlanner.BlockPlanCommands | pkg/band/channel_mask.go:223-233 | Up to 256 blocks, the plan has one command for each differing block and no other, with the desired bits, in strictly increasing ChMaskCntl order |
| BlockPlanner.BlockPlannerMeaning | pkg/band/channel_mask.go:218-235 | For every length 16 n up to 256 blocks, the plan leads from the current to exactly the desired state |
| BlockPlanner.BlockPlannerMinimal | pkg/band/channel_mask.go:218-235 | No sequence of block commands between the two states is shorter than the plan |
| LowerBound.StepEdits | pkg/band/channel_mask.go:40-179 | What one accepted command can do to a state: edit one block, enable or disable all overwritten channels, or set them by sub-band |
| LowerBound.EditLowersByOne | pkg/band/channel_mask.go:402-404 | No command lowers the bound by more than one |
| LowerBound.LowerBoundHolds | pkg/band/channel_mask.go:402-404 | Every sequence of permitted commands from one state to another, with any masks, is at least as long as the bound |
| UniformPlanners.GenerateChMask16 | pkg/band/channel_mask.go:192-202 | The single command leads to the desired state |
| UniformPlanners.GenerateChMask48 | pkg/band/channel_mask.go:247-297 | The plan leads to the desired state, is empty exactly if nothing changes, uses a wide command only to save one, and is shortest exactly if not two blocks short of a uniform state |
| UniformPlanners.GenerateChMask64 | pkg/band/channel_mask.go:299-353 | The same for 64 channels |
| UniformPlanners.GenerateChMask96 | pkg/band/channel_mask.go:519-570 | The plan leads to the desired state, is a single no-op if nothing changes, and otherwise is no longer than any sequence of commands |
| UniformPlanners.TwoSidedPlanCorrect | pkg/band/channel_mask.go:255-296 | Meaning of the chosen 48 or 64 channel plan and the exact condition of its optimality |
| UniformPlanners.OneSidedPlanCorrect | pkg/band/channel_mask.go:530-569 | Meaning and optimality of the chosen 96 channel plan |
| SubBandPlanner.GenerateChMask72Generic | pkg/band/channel_mask.go:355-459 | The planner without the sub-band command follows the chosen route, with as many commands as the least of the costs that the states give to the options |
| SubBandPlanner.GenerateChMask72 | pkg/band/channel_mask.go:461-517 | By conditions on the two states and the flags: how many commands there are, one if nothing changes; when they lead to the desired state; that they are then shortest in atomic mode, and when they are without atomic processing; when the device is muted on the way |
| SubBandPlanner.SortFunc | pkg/band/channel_mask.go:448-450 | The commands are permuted in place into descending order of enabled channels |
| SubBandPlanner.RouteExactly | pkg/band/channel_mask.go:399-516 | Which strategy is taken, by the numbers of blocks that differ |
| SubBandPlanner.RouteCost | pkg/band/channel_mask.go:399-516 | The number of commands of the chosen strategy is the least of the costs of the options |
| SubBandPlanner.RouteMeaning | pkg/band/channel_mask.go:367-457 | The state each route leads to |
| SubBandPlanner.PlanMeaning | pkg/band/channel_mask.go:355-517 | For both flags, the list leads to the desired state exactly if channel 64 does not change alone among the 500 kHz channels, or the 125 kHz channels are to be uniform or cheapest to make uniform first |
| SubBandPlanner.AtomicPlanShortest | pkg/band/channel_mask.go:399-516 | In atomic mode, whenever the list leads to the desired state, no sequence of supported commands with the same effect is shorter |
| SubBandPlanner.StepwisePlanShortest | pkg/band/channel_mask.go:441-451 | Without atomic processing and sub-band command, a list that leads to the desired state is shortest among those without ChMaskCntl 7 unless ChMaskCntl 6 would save a command, but ChMaskCntl 7 just as many |
| SubBandPlanner.SortedNeverMutes | pkg/band/channel_mask.go:441-451 | After every prefix of a sorted list some channel is enabled, whatever the order among equals |
| SubBandPlanner.StepwiseNeverMuted | pkg/band/channel_mask.go:399-451 | The device is never muted exactly if the channels do not hand over to later ones while sending the blocks is cheapest |
| Deviations.Channel64StaysOn | pkg/band/channel_mask.go:390-398 | A concrete change of channel 64 that is lost for all flags |
| Deviations.MovingUpMutes | pkg/band/channel_mask.go:399-401 | A concrete pair of states between which the device is muted |
| Deviations.TwoCommandsForOne | pkg/band/channel_mask.go:255-257 | A concrete pair of states for which two commands are generated although one would do |
| Deviations.FourCommandsForThree | pkg/band/channel_mask.go:435-451 | A concrete pair of states for which four commands are generated one by one although three would do |
| Deviations.RecordFollowsDevice | pkg/networkserver/mac/link_adr.go:362-381 | Whichever channels the Network Server knows, it can record accepted commands exactly if none enables a channel it does not know, and then its record describes the device's state |
| Deviations.PlansRecorded | pkg/band/channel_mask.go:247-353 | After a generated 48 or 64 channel plan the record is the desired state, and cannot be made exactly if the plan enables all channels first |
| Deviations.PlanNotRecorded | pkg/band/channel_mask.go:53-76 | A concrete pair of states whose plan the device carries out and the Network Server cannot record |
| Payload.CipherExact | pkg/crypto/data_messages.go:49-83 | Encryption combines each payload byte with the key stream for key, address and counter, and decryption is its inverse |
| Payload.DecryptEncrypted | pkg/crypto/data_messages.go:49-83 | Decrypting an encrypted payload with the same key, address and counter gives the payload |
| Payload.EncryptItemsCarry | pkg/applicationserver/payload.go:64-117 | Encryption for a session succeeds if its key is available, and carries all items in order under its key ID, with consecutive counters, enciphered for its address, with nothing else changed |
| Payload.SkippedItemsUntouched | pkg/applicationserver/payload.go:66-98 | Where payload cryptography is skipped, items keep payload and counter, and the session takes over the last counter |
| Payload.DecryptedUnderOwner | pkg/applicationserver/payload.go:177-202 | A downlink is deciphered under the current session if that has its key ID, else under the pending, else under the third one; nothing else of it changes |
| DownlinkQueue.LastAFCntDownFromMinFCnt | pkg/applicationserver/applicationserver.go:486-496 | The next downlink uses the reported minimum, or 1 if that is 0 |
| DownlinkQueue.RebuildReflectsDiagnostics | pkg/applicationserver/applicationserver.go:521-614 | A rebuild succeeds exactly if some device reflects the diagnostics, and yields it: each session is present exactly if reported, its next counter is the reported minimum or 1; known sessions are kept, others have the reported key ID and address and the Join Server's key; a new current session sets the device address |
| DownlinkQueue.AttemptRequests | pkg/applicationserver/applicationserver.go:654-693 | Against arbitrary peers, if payload cryptography is not skipped for an eligible session: at most 50 requests, each carrying the original items once per eligible session; each retry is made with the device rebuilt from the last diagnostics; success exactly if the last request is accepted; it starts if anything can be sent, and gives up only after 50 requests or with nothing left to try |
| DownlinkQueue.QueueOpRequests | pkg/applicationserver/applicationserver.go:634-694 | The same for the whole operation, which sends nothing if an item has no port |
| DownlinkQueue.ExchangeServes | pkg/applicationserver/applicationserver.go:678-681 | Each request names the device's address, and its downlinks are the items for the current session followed by the items for the pending session |
| DownlinkQueue.SkippingSendsOnce | pkg/applicationserver/applicationserver.go:682-688 | With payload cryptography switched off there is at most one request, and sessions without key get the items as they are |
| Handlers.PersistenceSound | pkg/applicationserver/applicationserver.go:974-1456 | Whenever a handler succeeds, writing its mask stores its whole device, except for a dropped nack after a session match |
| Handlers.DroppedNackLosesMatch | pkg/applicationserver/applicationserver.go:1430-1439 | A concrete nack that switches the session without storing it |
| HandlerEffects.MatchEffect | pkg/applicationserver/applicationserver.go:1072-1100 | After a match the current session has the message's key ID: it is the current one, the pending one with all its fields, or a new one with the message's address, the Join Server's key and counter 0; otherwise there is no match |
| HandlerEffects.UplinkEffect | pkg/applicationserver/applicationserver.go:1180-1209 | An uplink stores the matched device and sends nothing; it fails exactly without a match or key |
| HandlerEffects.PushEffect | pkg/applicationserver/applicationserver.go:696-787 | All items of the application are pushed unchanged but for the first attempt of confirmed ones, or nothing if one asks for too many retries |
| HandlerEffects.JoinAcceptEffect | pkg/applicationserver/applicationserver.go:985-1044 | The pending session becomes the accepted one with counter 0; what is kept of the old queue is pushed, but nothing to the session that the first kept item comes from |
| HandlerEffects.JoinAcceptWithoutPush | pkg/applicationserver/applicationserver.go:980-1005 | Without a key it fails; where payload cryptography is skipped it only sets the pending session |
| HandlerEffects.InvalidationEffect | pkg/applicationserver/applicationserver.go:1336-1371 | The matched session gets the reported counter; what is kept of the queue is pushed, and the first request goes on from that counter |
| HandlerEffects.InvalidationWithoutPush | pkg/applicationserver/applicationserver.go:1328-1340 | Where payload cryptography is skipped the session gets the reported counter; otherwise it fails without a match |
| HandlerEffects.NackEffect | pkg/applicationserver/applicationserver.go:1397-1456 | The payload deciphered under the matched session goes upstream with the nack counted, and is pushed again unless its attempts exceed its limit or the default |
| HandlerEffects.NackCarriesItem | pkg/applicationserver/applicationserver.go:1413-1441 | A nack of a downlink that carries an item pushes and passes on that item |
| HandlerEffects.NackWithoutPush | pkg/applicationserver/applicationserver.go:1397-1416 | Where payload cryptography is skipped nothing changes; without session or key it fails |
| Handlers.CrashesExactly | pkg/applicationserver/applicationserver.go:1328-1333 | Of all events, exactly a queue invalidation for a device without session that skips payload cryptography crashes, and stores nothing |
| Handlers.UnjoinedDeviceCrashes | pkg/applicationserver/applicationserver.go:1332 | A concrete device and invalidation for which it crashes |
| Handlers.KeyPassedOn | pkg/applicationserver/applicationserver.go:943-1023 | A join-accept is passed on without key and old queue, unless payload cryptography is skipped for the new session; then it holds the key and the queue |
| FrameCounters.NextKeepsInvariant | pkg/applicationserver/applicationserver.go:907-931 | Every handled message keeps the accepted counters of each stored session consecutive and ending at the stored counter |
| FrameCounters.RunsCountConsecutively | pkg/applicationserver/payload.go:66-98 | So does every run from any stored device |
| FrameCounters.NoFrameCounterReuse | pkg/applicationserver/payload.go:66-98 | No counter is accepted twice for a stored session between resets, up to 2^32 downlinks |
| FrameCounters.OnlyResetsLowerCounters | pkg/applicationserver/applicationserver.go:1072-1100 | Without a rebuild, a session match or an invalidation each stored session is kept, with its counter moved on by exactly the downlinks accepted for it; a join-accept replaces the pending session only |
| QueueRecalculation.KeptPositions | pkg/applicationserver/applicationserver.go:1014-1022 | The kept positions are exactly those that decrypt, in increasing order |
| QueueRecalculation.DecryptQueueSelects | pkg/applicationserver/applicationserver.go:1343-1351 | The recalculated items are the decryptions at the kept positions |
| QueueRecalculation.DecryptQueueRestores | pkg/applicationserver/payload.go:177-202 | A queue that was encrypted for a known session decrypts completely to the original items |
| QueueRecalculation.JoinAcceptPreservesQueue | pkg/applicationserver/applicationserver.go:1014-1039 | Every request on a join-accept carries to each target session, in order, what the kept downlinks of the old queue decrypt to; if any is kept, the handler succeeds exactly if there is a request and the last one is accepted |
| QueueRecalculation.InvalidationPreservesQueue | pkg/applicationserver/applicationserver.go:1343-1364 | The same for a queue invalidation |
| ConfirmedRetries.ValidateDownlinkConfirmationConfig | pkg/applicationserver/applicationserver.go:125-133 | Accepts exactly positive defaults within the maximum, and then every accepted retry limit is within the maximum |
| ConfirmedRetries.RetriesExact | pkg/applicationserver/applicationserver.go:1418-1439 | The retry record survives exactly as many nacks as its limit exceeds its first attempt |
| ConfirmedRetries.RetriesEnd | pkg/applicationserver/applicationserver.go:1423-1430 | It is dropped eventually exactly if its limit is not the largest counter |
| ConfirmedRetries.PushedRetriesBounded | pkg/applicationserver/applicationserver.go:698-714 | A pushed confirmed downlink, with its own retry record or a new one, has a limit within the configured maximum and survives exactly as many nacks as the limit allows |
| ConfirmedRetries.NackPushesOrDrops | pkg/applicationserver/applicationserver.go:1376-1459 | A handled nack pushes the same downlink with the next retry record, carrying the decrypted message, or nothing if its retries are used up |
| ConfirmedRetries.NackedRunPushes | pkg/applicationserver/applicationserver.go:1376-1459 | In every run in which each pushed downlink is nacked, it is pushed again at most as often as its limit exceeds its first attempt, and exactly that often when it is dropped |
| ConfirmedRetries.PushedThenNacked | pkg/applicationserver/applicationserver.go:698-1459 | Whatever confirmed downlink the application pushes, such a run pushes it again no more often than the configured maximum, or once more if its attempt counter starts at the largest value |
| QueueOperation.EncryptDownlink | pkg/applicationserver/payload.go:103-117 | Encrypts the payload in place with the session's key, or leaves the downlink unchanged |
| QueueOperation.EncryptForSession | pkg/applicationserver/payload.go:68-98 | The inner loop encrypts fresh copies as specified and moves the session's counter on; on an error the counter has not moved |
| QueueOperation.EncryptDownlinks | pkg/applicationserver/payload.go:64-101 | The outer loop does so for each session in turn; on an error the counters of the sessions before the failing one have moved on, the others have not |
| QueueOperation.DecryptDownlink | pkg/applicationserver/payload.go:177-202 | Decrypts in place with the first session of that key ID, or leaves the downlink unchanged |
| QueueOperation.BuildSessionsFromError | pkg/applicationserver/applicationserver.go:521-614 | Rebuilds the device in place as specified and reports the session fields; on an error the device is as before, or with only the current session rebuilt |
| QueueOperation.AttemptInPlace | pkg/applicationserver/applicationserver.go:656-693 | One pass of the retry loop updates the device and sends as specified |
| QueueOperation.AttemptUntilAccepted | pkg/applicationserver/applicationserver.go:654-694 | The loop refines the specified operation: device, mask, requests and last encrypted items |
| QueueOperation.AttemptDownlinkQueueOp | pkg/applicationserver/applicationserver.go:634-694 | The same for the whole operation; every request sent has the device's address and the items for its sessions; the result function is called exactly once, with the original items |
| ApplicationServer.DecryptItems | pkg/applicationserver/applicationserver.go:1014-1022 | The loop decrypts messages in place and keeps those that decrypt, in order |
| ApplicationServer.MatchSession | pkg/applicationserver/applicationserver.go:1072-1100 | Updates the device in place to the matched session and reports the changed fields |
| ApplicationServer.InitAndValidateConfirmationRetriesConfig | pkg/applicationserver/applicationserver.go:696-714 | Starts the retry record of a confirmed item in place, and fails exactly for too many retries |
| ApplicationServer.DownlinkQueueOp | pkg/applicationserver/applicationserver.go:716-787 | Stores and sends what the specification of a push says |
| ApplicationServer.HandleJoinAccept | pkg/applicationserver/applicationserver.go:947-1061 | Stores and sends what the specification of a join-accept says, and leaves the message as it is to be passed on |
| ApplicationServer.HandleUplink | pkg/applicationserver/applicationserver.go:1180-1209 | Stores the matched device, or nothing on an error |
| ApplicationServer.HandleDownlinkQueueInvalidated | pkg/applicationserver/applicationserver.go:1300-1374 | Stores and sends what the specification of an invalidation says, says when the message is to be passed on, and crashes exactly for a skipping device without session |
| ApplicationServer.HandleDownlinkNack | pkg/applicationserver/applicationserver.go:1376-1459 | Stores and sends what the specification of a nack says, and leaves the message decrypted and counted, or unchanged, for upstream |
| FieldMigration.EndDevice.GetTransform | pkg/applicationserver/registry.go:121-127 | Reads as specified |
| FieldMigration.EndDevice.SetTransform | pkg/applicationserver/registry.go:128-140 | Writes as specified, and reports a contradiction |
| FieldMigration.Registry.Get | pkg/applicationserver/registry.go:47-57 | Returns the requested fields of the device, transformed for reading |
| FieldMigration.Registry.Set | pkg/applicationserver/registry.go:59-86 | Gives the caller's function the device as read, stores what the wrapper makes of its answer, with the transform's error ignored, and returns it as read; errors and deletions included |
| FieldMigration.UpdateOutcome | pkg/applicationserver/registry.go:59-79 | A failing update stores nothing, a deletion deletes, and fields that were not requested are stored as masked |
| FieldMigration.ReadAgrees | pkg/applicationserver/registry.go:47-57 | A read makes both fields equal to the effective setting, keeps it, is idempotent, and adds an override for an old flag only |
| FieldMigration.WriteTakesEffect | pkg/applicationserver/registry.go:59-86 | Whatever is requested and masked, a write takes effect for later reads exactly if it does not revive an old flag; exactly contradictions are reported, and they are stored; a mask without the fields changes nothing |
| FieldMigration.UntouchedSettingKept | pkg/applicationserver/registry.go:59-86 | Handing the device back as it was loaded keeps the effective setting, with every mask |
| FieldMigration.WritesWithoutEffect | pkg/applicationserver/registry.go:71-76 | Concrete writes that do not take effect |
| BandListing.SelectVersion | pkg/band/rpc.go:82-92 | Deleting and replacing entries of the outer map in place while ranging over it leaves the bands with that version, each with it alone in a new inner map |
| BandListing.ListBands | pkg/band/rpc.go:66-111 | The response holds exactly the entries that match both filters, and no band without one; although maps are shared references, the table of all bands is unchanged on both levels |
| Beacon.EachPositionOnce | pkg/band/beacon.go:25-34 | The computed frequencies of n consecutive periods, from any time and offset, are the table of n frequencies, each position once, rotated |
| Beacon.RoundRepeats | pkg/band/beacon.go:25-34 | After n periods the computed frequency repeats |
| Beacon.UsAuBeaconFrequencies | pkg/band/beacon.go:43-49 | The loop fills the table of eight frequencies |
| Beacon.BeaconsHop | pkg/band/beacon.go:25-49 | Eight consecutive US or AU beacons use eight different frequencies, and every frequency of the table |

## Left out

- The tables of the regional bands, receive window parameters and the conversion of a band to its description: finite data.
- `FindUplinkDataRate`, `FindDownlinkDataRate`, `FindSubBand`: linear searches that would only add easy members.
- `GetPhyVersions` and `MaxTxPowerIndex`: no property beyond their bodies.
- Payload formatters: items are taken with their payload already encoded, and decoded payloads are not computed.
- Key wrapping, AES and `fetchAppSKey`: unwrapping, the key stream and the Join Server's answers are arbitrary functions. The limit of 255 cipher blocks per payload is not modelled.
- The theorems on requests and recalculation exclude sessions for which payload cryptography is skipped; those on frame counters and nacked runs exclude devices whose flag says so. The model itself has that mode.
- Finding and connecting to the peers of the cluster, which can fail before anything is changed.
- Redis: the registry holds one device and a handler is one transaction on it. Device and address types are abstract, malformed addresses are not modelled.
- What happens to an uplink after its transaction, `DownlinkQueueList`, simulated and location messages, events, logs and metrics.
- A crash ends the transaction; what the server does about it is not modelled. Pointers to the keys of a session are never null.
- Beacon.EachPositionOnce: assumes a time after the epoch and no overflow of Go's 64-bit integers.
- UniformPlanners.GenerateChMask48: the error branches after calls of the block planner are not modelled, because they cannot be taken; the same holds for the other planners.
- SubBandPlanner.StepwisePlanShortest: states nothing for the sub-band command, which no band combines with one-by-one processing.
- SubBandPlanner.SortFunc: Go's library sort is represented by its contract, with an insertion sort as one body for it.
