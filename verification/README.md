# A verified model of the home-automation box daemon

The repository is the daemon of a home-automation box, together with a small tool that tells new
devices the Wi-Fi credentials. This project models its five cores in Dafny and proves what they
are relied on for. No socket, thread or clock is involved: received frames, clock readings and the
success of writes are inputs.

| part | files | source |
|---|---|---|
| devices, their registry, timers and linkages | `Device`, `Registry`, `DeviceControl`, `Box`, `BoxRuns`, `Drivers`, `Presence`, `Liveness`, `Timers`, `Firings`, `EveryDay`, `MissedDay`, `IdWrap`, `Announcements`, `Arithmetic` | `core_daemon/device.c`, the two drivers |
| frames, slot requests, status lists, framing | `Wire`, `Requests`, `SlotFrames`, `StatusLists`, `Framing` | `core_daemon/network.c`, the two drivers |
| asynchronous requests and replies | `Replies`, `Options` | `core_daemon/device.c`, `core_daemon/network.c` |
| Zigbee transactions | `Zigbee`, `ZigbeeContext` | `core_daemon/driver_cg_zigbee.c` |
| Base64 | `Base64`, `Base64Encoder`, `Base64Decoder`, `BitStrings` | `lib/utils.c` |
| CRC-8 and Wi-Fi provisioning | `Crc8`, `Provisioning` | `misc/smart_config.c` |

The layers are the same everywhere. A function on values says what a call does to the state. A
class or a method with arrays does it step by step as the C code does, and its contract says that
the new state is that function of the old one. Runs are sequences of steps over the values, and the
main theorems are about every run.

Some properties one would expect are false of the code. Each is stated with the exact condition
under which it holds and with an input or a run on which it fails:

- The registry stays sound along a run, and ids stay distinct and other than the box's, if and only
  if fewer than 2^32 devices are created (`IdWrap.BoxInvIff`); `IdWrap.WrapHappens` is a run after
  which a device has id 0, the id of the box itself.
- A device that keeps talking stays listed if and only if no entry before it has its address
  (`Liveness.TalkingIff`); `Liveness.TalkingDropped` is a run from start-up on which a device is
  dropped although a message comes after every sweep.
- On a matching day a timer fires if and only if its device is first in the queue at the first sweep
  or the timer was not expired, because with one clock reading per sweep only the first device sees
  midnight (`Timers.FiresOnDayIff`); `MissedDay.SecondDayMissed` is a run from start-up on which a
  daily timer misses its second day.
- The framing loop ends if and only if it comes to no valid header whose length field is zero, and
  to none that reaches behind the buffer (`Framing.TerminationExact`); `Framing.ZeroLengthHangs` is
  a four-byte read.
- The number of status values is at most 8 if and only if the message is longer than four bytes, and
  2^32 - 1 otherwise (`StatusLists.StatusCountBound`); exactly then the encode loops of the drivers
  stay within their buffers (`StatusLists.EncodeStaysWithin`).
- What a Zigbee request returns is decided by its own reply if and only if the reply is not
  truncated (`Zigbee.OwnVerdictIff`); for every truncated reply `Zigbee.SameReplyTwoVerdicts` gives
  two runs that end in that same frame, one with success and one with failure, made of frames that
  the monitor thread hands in and with at most one for each request; `Zigbee.TruncatedExists` gives
  such a reply.
- A request is completed by a reply with its id if and only if the id is not 0
  (`ZigbeeContext.EchoCompletes`, `Zigbee.ZeroIdTimesOut`); `Zigbee.ZeroIdHappens` is a run on which
  a request has id 0.
- The codes of a message avoid the guide codes if and only if it has at most 216 frames
  (`Provisioning.GuideCollision`; frame 216 is the first that does not).
- However long the sender runs, a frame is sent only if it stands before the network name, because `dc_len` leaves the name
  out although the commented-out line above it counts it (`Provisioning.SentFrames`).

## Model

| member | source | states |
|---|---|---|
| BoxRuns.BoxInv | core_daemon/device.c:325-415 | from start-up, along every run of register, refresh, timeout-sweep, set, delete, tick, event and mode steps that creates fewer than 2^32 devices: ids online and offline are distinct, nonzero and below the counter (0 standing for 2^32); no driver and MAC pair occurs twice; each driver's queue lists the ids and MACs of exactly its online devices, in order; the work mode is valid; idle counts are at most 11 |
| IdWrap.BoxInvIff | core_daemon/device.c:211-222 | from start-up the same invariant holds at the end of a run if and only if fewer than 2^32 devices were created on it, and so does its observable part: ids online and offline are distinct and none is 0 |
| IdWrap.RunInvIff | core_daemon/device.c:211-222 | from every sound state: sound at the end if and only if nobody was created after the counter wrapped, and otherwise a device has id 0 for ever |
| IdWrap.StepPresent | core_daemon/device.c:325-415 | no step forgets a device: its id stays in the online or the offline queue |
| IdWrap.WrapHappens | core_daemon/device.c:276-287 | a run from start-up that wraps: after 2^32 - 1 devices the registry is sound and the counter 0; the next device gets id 0, which is the box, and it is sound no longer |
| BoxRuns.RunInv | core_daemon/device.c:325-415 | the same from every state that satisfies the invariant, and the counter has advanced by the number of devices created |
| BoxRuns.StepInv | core_daemon/device.c:211-222 | one step keeps the invariant if and only if it does not hand out id 0, which it does after the counter has wrapped |
| BoxRuns.StepNextId | core_daemon/device.c:211-222 | the id counter moves only when a driver announces a device that is in neither its own queue nor the offline queue |
| Box.OnlineInv | core_daemon/device.c:325-376 | `dev_online` keeps ids and MACs unique although it searches the offline queue only, provided its caller has checked the online ones; fails exactly for a new device after the counter's wrap |
| Box.OfflineInv | core_daemon/device.c:378-415 | moving a device to the offline queue keeps the registry sound |
| Box.VsRegisterInv | core_daemon/driver_virtual_switch.c:383-414 | the driver's own MAC check is what makes registration keep the invariant: if and only if the device is listed or does not get id 0 |
| Box.CzRegisterInv | core_daemon/driver_cg_zigbee.c:150-182 | the same for the Zigbee driver with its eight-byte addresses |
| Box.DropInv | core_daemon/driver_virtual_switch.c:364-369 | the sweep's `dev_offline` call finds its device, and removing the entry from both queues keeps them equal |
| Box.SweepInv | core_daemon/driver_virtual_switch.c:352-380 | a whole timeout sweep, from any point on, keeps registry and driver queues in step and leaves the other driver's devices alone |
| Box.SweepIdle | core_daemon/driver_virtual_switch.c:364-374 | after a sweep no idle count exceeds 11 |
| DeviceControl.ControlBlock.constructor | core_daemon/device.c:742-760 | the control block starts in the initial state of the model |
| DeviceControl.ControlBlock.FindDev | core_daemon/device.c:66-85 | the position of the first online device with this id, or the queue length |
| DeviceControl.ControlBlock.CheckLinkage | core_daemon/device.c:417-464 | the actions appended are exactly the images, in slot order, of the active slots whose mode mask and event triple match; none for an unknown device or a device masked out |
| Device.Triggered | core_daemon/device.c:433-443 | the matching slots, each once, in increasing order, and no matching slot missing |
| Device.TriggeredStep | core_daemon/device.c:433-461 | one more slot adds its action at the end exactly if it matches |
| DeviceControl.ControlBlock.DevEvent | core_daemon/device.c:467-483 | linkage actions, then the event to all clients |
| DeviceControl.ControlBlock.SetBoxWorkMode | core_daemon/device.c:515-526 | an invalid mode is refused and changes nothing, a valid one is stored and announced |
| DeviceControl.ControlBlock.DevOnline | core_daemon/device.c:325-376 | in-place queues and counter end as the registry function says; the returned id is the device's |
| DeviceControl.ControlBlock.DevOffline | core_daemon/device.c:378-415 | an unknown id is reported and changes nothing; else the device moves to the end of the offline queue |
| Announcements.OnlineAnnounced | core_daemon/device.c:351-371 | a device that comes online is announced once, as new if it was created and as returning if it was offline, and its own linkages may answer |
| Announcements.OfflineAnnounced | core_daemon/device.c:400-412 | a device that goes offline is announced once and its linkages answer no more; any other id changes nothing |
| Announcements.ModeAnnounced | core_daemon/device.c:515-526 | modes 0 to 2 are taken and announced, others change nothing |
| Announcements.SwitchListed | core_daemon/driver_virtual_switch.c:383-414 | what the driver lists for a new virtual switch |
| Announcements.ZigbeeListed | core_daemon/driver_cg_zigbee.c:150-182 | what the driver lists for a new Zigbee device |
| DeviceControl.ControlBlock.SetDevSlot | core_daemon/device.c:793-821 | a timer, delay or linkage is stored, active and not expired; a missing device or a slot out of range is refused |
| DeviceControl.ControlBlock.DelDevSlot | core_daemon/device.c:823-853 | an active slot is cleared; a missing device, a slot out of range or an inactive slot is refused |
| DeviceControl.ControlBlock.GetDevSlot | core_daemon/device.c:762-791 | the stored record of an active slot, else refused |
| DeviceControl.ControlBlock.Rearm | core_daemon/device.c:1063-1076 | on a rollover every active timer is re-armed or expired by its weekday mask, otherwise nothing changes |
| DeviceControl.ControlBlock.Fire | core_daemon/device.c:1083-1132 | the slot array and the queued actions after one device's pass |
| DeviceControl.ControlBlock.CheckDev | core_daemon/device.c:1039-1132 | one callback: re-arm, move the global day marker, fire |
| DeviceControl.ControlBlock.CheckTimerAndDelay | core_daemon/device.c:1174-1180 | the sweep over all online devices, with the marker passed from device to device |
| Drivers.VirtualSwitchDriver.FindDevByMac | core_daemon/driver_virtual_switch.c:69-88 | first entry with this MAC or the queue length |
| Drivers.VirtualSwitchDriver.FindDevByIp | core_daemon/driver_virtual_switch.c:52-67 | first entry with this address or the queue length |
| Drivers.VirtualSwitchDriver.RegisterDevice | core_daemon/driver_virtual_switch.c:383-414 | queue and registry after registration; nothing for a listed device |
| Drivers.VirtualSwitchDriver.RefreshDevice | core_daemon/driver_virtual_switch.c:416-421 | only the sender's idle count is reset |
| Drivers.VirtualSwitchDriver.RemoveTimeoutDev | core_daemon/driver_virtual_switch.c:352-380 | the loop that pops while indexing against a stale length terminates and drops the silent entries, ages the others and takes the dropped devices offline |
| Drivers.ZigbeeDriver.RegisterDevice | core_daemon/driver_cg_zigbee.c:150-182 | queue and registry after registration; nothing for a listed device |
| Presence.SweepIsFilter | core_daemon/driver_virtual_switch.c:352-380 | the sweep is "drop every entry with idle count over 10, add one to the rest, keep the order" |
| Presence.SilentStays | core_daemon/driver_virtual_switch.c:352-380 | without a message a device stays listed, its idle count the number of sweeps, as long as that is at most 11 |
| Presence.DropSilent | core_daemon/driver_virtual_switch.c:364-371 | the sweep removes a device over the limit from its driver's queue and moves its record, unchanged, to the offline queue |
| Presence.TwelfthSweep | core_daemon/driver_virtual_switch.c:352-421 | along every run, a silent device is listed after eleven sweeps since its last message and removed by the twelfth |
| Liveness.TalkingIff | core_daemon/driver_virtual_switch.c:52-67 | along every run of twelve sweeps or more that starts with a message from a listed device's address and has one in every stretch of eleven sweeps, the device is listed throughout if and only if no entry before it has the same address |
| Liveness.FirstStays | core_daemon/driver_virtual_switch.c:416-421 | the first entry with an address stays listed along every run as long as messages from it come |
| Liveness.BehindDropped | core_daemon/driver_virtual_switch.c:352-421 | a device behind another talking entry with its address is dropped by its twelfth sweep |
| Liveness.TalkingDropped | core_daemon/driver_virtual_switch.c:383-414 | a run from start-up with two devices at one address: a message comes after every sweep and the second device is dropped |
| Presence.StepKeepsOffline | core_daemon/device.c:66-85 | no step except its own return changes or removes an offline device's record |
| Presence.RunKeepsOffline | core_daemon/device.c:1174-1180 | the same along every run |
| Presence.StepReturns | core_daemon/device.c:343-371 | a returning device's record is put at the end of the online queue as it was, and its driver is told its old id |
| Presence.ReturnsAsItWas | core_daemon/device.c:343-371 | a device that went offline and returns after any run has its old id, timers, expired flags, delays and linkages |
| Timers.AtMostOncePerDay | core_daemon/device.c:1048-1132 | under every nondecreasing clock, every timer of every device queues at most one action per calendar day unless it is set again |
| Timers.QuietDay | core_daemon/device.c:1063-1132 | a timer that has fired stays silent for the rest of its day, and past days do not come back |
| Timers.SpentByFiring | core_daemon/device.c:1125-1131 | firing leaves a repeating timer expired and a one-shot timer inactive, wherever the device is |
| Timers.OneShotOnce | core_daemon/device.c:1125-1129 | a one-shot timer queues at most one action ever and is inactive afterwards, unless set again |
| Timers.InactiveRun | core_daemon/device.c:1088-1089 | an inactive slot never fires and stays inactive until it is set |
| Timers.OnlyHeadRearms | core_daemon/device.c:1063-1078 | with one reading per sweep a device sees the rollover if and only if it is first in the queue and the day changed |
| Timers.BehindHeadSilent | core_daemon/device.c:1063-1078 | along every run a timer that has fired on a device behind the head never fires again |
| Timers.BehindHeadOnce | core_daemon/device.c:1063-1132 | along every run a timer, expired or not, on a device that is never the head fires at most once, however many days the run spans |
| Timers.FiresOnDayIff | core_daemon/device.c:1063-1131 | on a day that begins with a rollover, with sweeps at most 6 seconds apart and the mask carrying the mode in force at each, an active timer with a matching weekday whose 3600 * hour + 60 * minute + second is 86394 or less, on a device that stays online, fires exactly once if and only if the device is the head at the first sweep or the timer was not expired, then at the first sweep in its window; otherwise it does not fire |
| Timers.ArmedFires | core_daemon/device.c:1086-1131 | an armed timer, wherever its device is in the queue, fires once in the rest of the day, at the first sweep that reaches its hour, minute and second |
| Timers.FiresEveryMatchingDay | core_daemon/device.c:1063-1131 | so a timer of the device that is head at the first sweep fires exactly once on each matching day that begins with a rollover, whatever its flag was |
| EveryDay.FiresAtItsTime | core_daemon/device.c:1086-1106 | an armed timer fires at a reading if and only if its mask carries the mode, its weekday is set and a clock showed its hour, minute and second 0 to 5 seconds before |
| EveryDay.HeadRollover | core_daemon/device.c:1063-1076 | the first sweep of a day arms the head's timer on a matching weekday and expires it on any other |
| EveryDay.RearmedBy | core_daemon/device.c:1063-1076 | a sweep arms an expired timer of the head if and only if its reading is among the first ten seconds of a day and before the last reading |
| EveryDay.HeadDay | core_daemon/device.c:1063-1131 | a day of a repeating timer of the head: one firing on a matching weekday, none on another, and it stays active with its record |
| EveryDay.FiresEveryDay | core_daemon/device.c:1063-1131 | over any number of days with the device head at each first sweep, a repeating timer fires exactly once on each matching weekday, at its hour, minute and second, and on no other day |
| EveryDay.WeekDays | core_daemon/device.c:1098 | weekdays follow each other, and day 0 is a Thursday |
| Device.TimerShows | core_daemon/device.c:1103 | a timer with a proper time stands for the second at which a clock shows its hour, minute and second |
| Device.BitIsDigit | core_daemon/device.c:1092-1098 | bit k of a mask is the binary digit that stands for 2^k |
| MissedDay.SecondDayMissed | core_daemon/device.c:1063-1131 | a run from start-up with the same daily timer on two devices: both fire on the first day, only that of the head on the second |
| Timers.FiresFirstCount | core_daemon/device.c:1105-1131 | firing at the first sweep in the window and nowhere else is firing exactly once |
| Firings.FiringSlots | core_daemon/device.c:1086-1106 | the slots that fire in one callback, each once, in increasing order, and no firing slot missing |
| Firings.OneActionPerFiring | core_daemon/device.c:1108-1123 | a callback queues exactly one action for each firing slot, that slot's own, in slot order, and no other |
| Firings.ActionsOfDevice | core_daemon/device.c:1174-1180 | the actions of one device stand together in the queue, behind those of the devices before it |
| Firings.FiringIsQueued | core_daemon/device.c:1086-1123 | a timer fires in a sweep if and only if its slot is among the firing slots, once; the device's share of the queue has one action for each of them, and at that slot's place it is the timer's |
| Firings.WatchedDay | core_daemon/device.c:1174-1180 | for every online device and time of day there is a rest of the day with sweeps six seconds apart in an enabled mode, as the daily theorems ask for |
| Wire.BodyOfParsed | core_daemon/network.c:102-163 | writing a parsed timer, delay or linkage gives back all its bytes |
| Wire.ParsedOfBody | core_daemon/network.c:313-426 | parsing a written record gives back the record and the device id |
| SlotFrames.TimerFields | core_daemon/network.c:313-332 | where each field of a SET_TIMER frame stands, byte by byte |
| SlotFrames.DelayFields | core_daemon/network.c:360-379 | where each field of a SET_DELAY frame stands, byte by byte |
| SlotFrames.LinkFields | core_daemon/network.c:406-421 | where each field of a SET_LINKAGE frame stands, byte by byte |
| SlotFrames.RequestBytes | include/net_protocol.h:15-26 | which request each command byte stands for |
| SlotFrames.ReplyBytes | core_daemon/network.c:44-53 | the bytes of result frames with their error codes and of record headers |
| SlotFrames.RefusedIff | core_daemon/device.c:762-1037 | a slot request is answered with error 3, and changes nothing, if and only if the device is not online, the slot is out of range or, for GET and DEL, not in use |
| SlotFrames.DeleteUndoes | core_daemon/device.c:823-853 | a deletion is accepted if and only if the slot can be read; then it can be neither read nor deleted, and nothing else has changed |
| SlotFrames.OffRun | core_daemon/device.c:1088-1089 | an inactive slot of any kind stays inactive along every run that does not set it |
| SlotFrames.OffIsSilent | core_daemon/device.c:433-435 | an inactive slot cannot be read, its timer fires in no sweep and its linkage answers no event |
| SlotFrames.DeletedTimerSilent | core_daemon/device.c:823-853 | a deleted timer never fires until it is set again |
| SlotFrames.DeleteThenGet | core_daemon/network.c:427-435 | over the wire: after an accepted DEL frame and any run that does not set the slot, a GET is answered with the eight bytes of error 3 |
| SlotFrames.LinkageAnswers | core_daemon/device.c:433-461 | a linkage stored by a frame answers exactly the event that the frame's bytes name, in the modes of its mask, and queues the command that they name: an action or one status value |
| SlotFrames.LinkageFrame | core_daemon/network.c:406-426 | over the wire: the same after an accepted SET_LINKAGE frame and any run that does not disturb the linkage |
| SlotFrames.SetTimerArms | core_daemon/device.c:811-817 | an accepted SET_TIMER frame leaves its timer active and armed, even if the slot had fired |
| SlotFrames.TimerFrame | core_daemon/device.c:1108-1123 | over the wire: each sweep in which a timer set by a frame fires queues the command that the frame's bytes name |
| SlotFrames.TimerOneShot | core_daemon/device.c:1125 | a timer is one-shot if and only if the highest bit of its frame's weekday byte is set |
| Wire.Put | core_daemon/network.c:19-22 | a field is stored and the bytes around it stay |
| Requests.ReplyResult | core_daemon/network.c:44-53 | the bytes of a result frame |
| Requests.ReplyGetTimer | core_daemon/network.c:102-121 | the bytes of the reply are header and record |
| Requests.ReplyGetDelay | core_daemon/network.c:123-142 | the bytes of the reply are header and record |
| Requests.ReplyGetLinkage | core_daemon/network.c:144-163 | the bytes of the reply are header and record |
| Requests.DealSlotRequest | core_daemon/network.c:299-435 | registry and reply bytes after any of the nine slot requests |
| Requests.HoldRun | core_daemon/device.c:762-1037 | a stored record stays active and unchanged along every run that does not set, delete or one-shot-clear its slot, online or offline |
| Requests.ReadYourWrite | core_daemon/network.c:102-163 | after an accepted SET frame and any such run, a GET for the slot answers with the same bytes from offset 4 on |
| StatusLists.MakeStatusResp | core_daemon/network.c:205-218 | the bytes of a status response |
| StatusLists.GetDevStatus | core_daemon/network.c:165-185 | the pairs read and the 32-bit count reported for every length |
| StatusLists.StatusCountBound | core_daemon/network.c:169-182 | the count is at most 8 if and only if the message is longer than four bytes, and 2^32 - 1 otherwise |
| StatusLists.EncodeStaysWithin | core_daemon/driver_virtual_switch.c:214-218 | with the count a SET_STATUS message reports, the encode loops of both drivers store within their 64-byte buffers if and only if the message is longer than four bytes |
| StatusLists.StatusRoundTrip | core_daemon/network.c:165-218 | reading a status response gives back all pairs, for up to 8 |
| StatusLists.StatusFrameFields | core_daemon/network.c:205-218 | the fields of a status response, each pair's id before its value |
| StatusLists.DriverMessageFields | core_daemon/driver_virtual_switch.c:209-218 | the fields of a driver's status message |
| StatusLists.EncodeStatus | core_daemon/driver_virtual_switch.c:209-218 | the bytes of a set-status message |
| StatusLists.ParseStatus | core_daemon/driver_virtual_switch.c:274-289 | exactly min(max(1, requested), (rlen - 4) / 4) pairs are stored, the ones in the message |
| StatusLists.DriverRoundTrip | core_daemon/driver_virtual_switch.c:209-289 | parsing inverts the set-status layout, cut to the number asked for; a request for none yields one |
| StatusLists.ListRoundTrip | core_daemon/network.c:176-216 | a list of pairs can be read back wherever it stands in a buffer |
| Framing.ConsumeLoop | core_daemon/network.c:781-786 | the frames dispatched and the bytes consumed for every read, or the place the loop is held at |
| Framing.TerminationExact | core_daemon/network.c:781-786 | the loop reaches the end of the read if and only if no place it comes to has a valid header with length field zero or a header that reaches behind the buffer |
| Framing.DoneIffTerminates | core_daemon/network.c:781-786 | the outcome computed for a read is its end exactly if the turn-by-turn loop reaches it |
| Framing.InvalidDropsRest | core_daemon/network.c:236-240 | a frame with a command outside 0x8801 to 0x88A1, or longer than what is left, is not dispatched and all that is left is dropped |
| Framing.ValidIsDispatched | core_daemon/network.c:242-246 | every other frame is dispatched and the loop goes on behind it |
| Framing.ZeroLengthHangs | core_daemon/network.c:236-246 | a four-byte read that keeps the loop forever |
| Framing.WholeFrames | core_daemon/network.c:27-42 | a read made of whole frames is dispatched at exactly the frame boundaries, in order, to the last byte, even if it fills the buffer |
| Replies.Server.constructor | core_daemon/network.c:610-638 | five unused contexts and no pending action |
| Replies.Server.NotifyResp | core_daemon/network.c:804-835 | an event goes to every client in use, another response only to the client in use that asked |
| Replies.Server.GetClientContext | core_daemon/network.c:646-671 | the first unused context is taken, its queue as it was; none is reported if all are in use |
| Replies.Server.PutClientContext | core_daemon/network.c:673-686 | the context is unused afterwards, its queue as it was |
| Replies.Server.ProcessNotify | core_daemon/network.c:728-749 | the queue is written in order; a failing write loses the response in hand and leaves the rest queued |
| Replies.Server.PushAct | core_daemon/device.c:545-603 | the action is queued last, with its reply handle |
| Replies.Server.TakeAct | core_daemon/device.c:701-702 | actions are taken first in, first out |
| Replies.Server.ProcessDevAct | core_daemon/device.c:605-677 | which response an action makes and to whom it goes |
| Replies.StepSends | core_daemon/network.c:804-835 | a step sends a connected client the answer and the events of that step and nothing else |
| Replies.StepFifo | core_daemon/device.c:679-716 | a step answers the oldest waiting request or none |
| Replies.RepliesInOrder | core_daemon/device.c:605-716 | along every run within a connection, the non-event responses to a client are one for each of its own requests that was worked off, in request order, and tell what the driver returned: the values of a successful status query, otherwise the error code; the other requests are still waiting, and it was sent every event raised, once and in order |
| Replies.ExactlyOneReply | core_daemon/device.c:605-716 | from a fresh connection until its requests are worked off: exactly one response for each request, in order, that tells what the driver returned |
| Replies.UnusedGetsNothing | core_daemon/network.c:812-813 | a context that is not in use is sent nothing |
| Replies.LeftoverReachesNext | core_daemon/network.c:664-680 | what a client did not read is sent to the next connection that takes its context |
| Replies.FailedWriteLosesOne | core_daemon/network.c:734-746 | a write that fails loses one response and keeps the order of the others |
| Zigbee.RunIds | core_daemon/driver_cg_zigbee.c:300-310 | in every run the transaction id is the number of requests that have returned, plus one, modulo 65536 |
| Zigbee.RunInv | core_daemon/driver_cg_zigbee.c:620-637 | in every run an open request holds the last frame that answered it since it began, and is signalled if and only if there was one before any discovery |
| Zigbee.WokenByOwnReply | core_daemon/driver_cg_zigbee.c:250-311 | in every run a request that does not time out has received, while open, a frame with its own nonzero id; no transaction among the 65535 before it had that id, so no late reply completes a later request |
| Zigbee.ReplyDecides | core_daemon/driver_cg_zigbee.c:281-298 | in every run what such a request returns is decided by the bytes of that frame alone, unless it is truncated |
| Zigbee.ResultSays | core_daemon/driver_cg_zigbee.c:284-298 | a complete RESULT of its length means success if its result is not 0 and ActFailed if it is; anything else is an invalid message |
| Zigbee.StatusSays | core_daemon/driver_cg_zigbee.c:359-383 | a complete status message gives success and its pairs, as many as asked for but at least one |
| Zigbee.LateReplyIff | core_daemon/driver_cg_zigbee.c:620-637 | a frame made for transaction n completes a request if and only if the two numbers agree modulo 65536 and the id is not 0 |
| Zigbee.ZeroIdTimesOut | core_daemon/driver_cg_zigbee.c:570-618 | a request whose id is 0 is never completed by a frame |
| Zigbee.OwnVerdictIff | core_daemon/driver_cg_zigbee.c:284-298 | the verdict on a frame is independent of earlier frames if and only if it is not truncated: a good answer as far as it goes, cut inside its message header or inside its result field |
| Zigbee.StaleRun | core_daemon/driver_cg_zigbee.c:630-631 | for every reply that the monitor thread hands in and every buffer content there is a run, of such frames and at most one for each request, on which the reply to an earlier request leaves just those bytes behind this one |
| Zigbee.SameReplyTwoVerdicts | core_daemon/driver_cg_zigbee.c:281-298 | for every truncated reply that is handed in two such runs end in that same frame, and the request succeeds on one and fails on the other |
| Zigbee.TruncatedExists | core_daemon/driver_cg_zigbee.c:284-286 | a truncated reply to the second request, with the magic number and its own length in its header |
| Zigbee.ZeroIdHappens | core_daemon/driver_cg_zigbee.c:300-310 | a run on which a request is open with id 0 and cannot be woken |
| ZigbeeContext.RequestFields | core_daemon/driver_cg_zigbee.c:254-262 | every request frame has the magic number and its own length, goes to the device's short address and end point, carries the transaction id, and its message has its own length |
| ZigbeeContext.MessageFields | core_daemon/driver_cg_zigbee.c:425-429 | command, length and fields of each kind of request message |
| ZigbeeContext.RegisteredReached | core_daemon/driver_cg_zigbee.c:558-578 | bytes 6 to 9 of every request to a device are those of the discovery response that registered it |
| ZigbeeContext.RegisteredEntry | core_daemon/driver_cg_zigbee.c:572-579 | entry and record of a device have the class, interface and addresses that its discovery response carries |
| ZigbeeContext.ProbeBytes | core_daemon/driver_cg_zigbee.c:212-221 | the bytes of the discovery broadcast |
| ZigbeeContext.EventSeen | core_daemon/driver_cg_zigbee.c:525-549 | which event clients see for each kind of event frame, or which mode is set |
| ZigbeeContext.StatusSeen | core_daemon/driver_cg_zigbee.c:598-612 | which event clients see for a status change |
| ZigbeeContext.EchoCompletes | core_daemon/driver_cg_zigbee.c:254-259 | a reply that repeats the id field of the request frame completes the request, unless the id is 0 |
| ZigbeeContext.Context.constructor | core_daemon/driver_cg_zigbee.c:725-751 | the driver context starts in the initial state of the model, with transaction id 1 |
| Drivers.ZigbeeDriver.FindDevById | core_daemon/driver_cg_zigbee.c:107-126 | first entry with this id or the queue length |
| ZigbeeContext.Context.SetStatus | core_daemon/driver_cg_zigbee.c:243-273 | an unknown device changes nothing; else the request is open and the send buffer holds its frame with the current id |
| ZigbeeContext.Context.GetStatus | core_daemon/driver_cg_zigbee.c:323-348 | an unknown device changes nothing; else the request is open and the send buffer holds its frame with the current id |
| ZigbeeContext.Context.SetAction | core_daemon/driver_cg_zigbee.c:407-434 | an unknown device changes nothing; else the request is open and the send buffer holds its frame with the current id |
| ZigbeeContext.Context.CzProbe | core_daemon/driver_cg_zigbee.c:201-231 | the discovery broadcast; an open request is no longer waiting |
| Drivers.ZigbeeDriver.FindDevByShortAddr | core_daemon/driver_cg_zigbee.c:128-147 | first entry with this short address or the queue length |
| ZigbeeContext.Context.RaiseEvent | core_daemon/driver_cg_zigbee.c:525-549 | which event a device's message raises; a key sets the work mode, an undefined key or kind does nothing |
| ZigbeeContext.Context.DealUnsolicited | core_daemon/driver_cg_zigbee.c:570-618 | a discovery response of the right length registers the device, an event or status change of a listed device is raised, anything else changes nothing |
| ZigbeeContext.DispatchedIsStep | core_daemon/driver_cg_zigbee.c:570-618 | every unsolicited frame is one step of the box or none, so the theorems about every run of the box cover it |
| ZigbeeContext.Context.DealRecvBuf | core_daemon/driver_cg_zigbee.c:551-638 | a frame with id 0 is dispatched to the box and leaves the transaction alone; one with another id or nobody waiting changes nothing; else it overwrites the buffer's start and signals |
| ZigbeeContext.Context.ResultReturn | core_daemon/driver_cg_zigbee.c:275-310 | the error of a set-status or action request, and the transaction is over on every way out |
| ZigbeeContext.Context.StatusReturn | core_daemon/driver_cg_zigbee.c:350-395 | the error and pairs of a get-status request, and the transaction is over on every way out |
| Base64.RoundTrip | lib/utils.c:193-342 | decoding an encoding gives the octets back, for every byte sequence, whatever follows the NUL and for every limit that does not cut it short |
| Base64.CanonicalRoundTrip | lib/utils.c:193-342 | encoding what a canonical padded string decodes to gives the string back |
| Base64.EncodeIsCanonical | lib/utils.c:228-255 | every encoding is canonical: alphabet, padding to a multiple of four, zero bits where no data is |
| Base64.EncodeLength | lib/utils.c:193-258 | the encoding of n bytes has 4 * ceil(n / 3) characters |
| Base64.DecodeExact | lib/utils.c:279-342 | with n alphabet characters before the first padding, NUL or limit, decoding fails if and only if it stopped at padding and n mod 4 is 1; else it gives floor(6n / 8) bytes, whose bits are the first bits of the characters' values |
| Base64.SpaceIsPlus | lib/utils.c:296-303 | decoding is unchanged when every space is replaced by a plus |
| Base64.SymbolInOrder | lib/utils.c:206-219 | the alphabet: capital letters, small letters, digits, plus, slash |
| Base64Encoder.EncryptB64 | lib/utils.c:193-258 | the buffer encoder writes the bit regrouping of section 4 of RFC 4648 and a NUL, nothing behind it, and returns the length; -1 without a buffer |
| Base64Encoder.EncodeGroups | lib/utils.c:200-223 | the main loop encodes all whole groups of three |
| Base64Encoder.EncodeTail | lib/utils.c:224-257 | the ending encodes and pads the one or two bytes left |
| Base64Encoder.TranslateInPlace | lib/utils.c:206-219 | cells that hold six-bit values become alphabet characters |
| Base64Decoder.DecodeB64 | lib/utils.c:279-342 | the buffer decoder writes exactly the decoded bytes and a NUL and returns their number; -1 exactly for a missing destination or an invalid text |
| Base64Decoder.DecodeLoop | lib/utils.c:292-325 | the loop stops at the first padding, NUL or limit, and the cells hold the bits read so far |
| Base64.SymbolValue | lib/utils.c:260-277 | the reverse table inverts the alphabet |
| Crc8.InitCrcTable | misc/smart_config.c:56-71 | every table entry is its octet after eight shift-and-reduce turns |
| Crc8.ComputeCrc8 | misc/smart_config.c:73-84 | despite the residue in the accumulator's high half, the table-driven loop computes the bit-by-bit reflected division by 0x8c |
| Crc8.CrcOfOneBit | misc/smart_config.c:34 | a message whose only set bit is the last leaves the polynomial 0x8c |
| Crc8.CrcAppend | misc/smart_config.c:78-81 | one more byte is one table step |
| Crc8.CrcLinear | misc/smart_config.c:73-84 | the checksum of the XOR of two equally long messages is the XOR of their checksums |
| Crc8.CrcSelfCheck | misc/smart_config.c:73-84 | a message followed by its own checksum has checksum 0 |
| Crc8.BurstDetected | misc/smart_config.c:56-84 | two equally long messages that differ only within eight consecutive bits have different checksums |
| Crc8.OctetChangeDetected | misc/smart_config.c:56-84 | changing one byte changes the checksum |
| Provisioning.ReadBack | misc/smart_config.c:102-104 | three codes determine the data byte, the index and the checksum they carry |
| Provisioning.CodeNumbers | misc/smart_config.c:102-104 | the three codes of a frame in numbers |
| Provisioning.MessageLayout | misc/smart_config.c:120-151 | which byte a receiver reads from each frame of the stored codes: lengths, checksums, address, password, name, each with its index and a matching checksum |
| Provisioning.CodeRanges | misc/smart_config.c:28 | payload and sequence codes occupy disjoint ranges, and a sequence code is a guide code exactly for indices 216 to 219 |
| Provisioning.GuideCollision | misc/smart_config.c:28 | the codes of f frames avoid the guide codes if and only if f is at most 216 |
| Provisioning.Encoder.MakeDataCode | misc/smart_config.c:86-105 | the three cells of a frame hold the codes of its low byte, its index and their checksum |
| Provisioning.Encoder.MakeHeader | misc/smart_config.c:120-133 | the first four frames and their running XOR |
| Provisioning.Encoder.MakeRun | misc/smart_config.c:135-151 | a run of bytes is written to consecutive frames, whether `char` is signed or not |
| Provisioning.Encoder.MakeCode | misc/smart_config.c:107-159 | the writes of a message, the cells of every frame up to 256 frames, and `dc_len` |
| Provisioning.FrameDataXor | misc/smart_config.c:114-153 | the XOR of all data bytes of a message, checksum byte included, is 0 |
| Provisioning.WrittenOnce | misc/smart_config.c:120-153 | out of order, every frame is written exactly once and with its own byte |
| Provisioning.MessageStored | misc/smart_config.c:86-153 | what the writes leave in the cells is the whole message in frame order |
| Provisioning.IndexCycle | misc/smart_config.c:315-317 | the sender visits the frames round robin |
| Provisioning.SentFrames | misc/smart_config.c:301-323 | for every number of turns the sender has time for, the frames sent are the first so many of those before the network name; those of the name are never sent |

## Left out

- Sockets, select loops, the serial port, wake-up sockets, logging, pid and ini files, and the `main` loops: received frames, clock readings and write results are inputs of the model.
- Interleavings inside a call: `dev_online` drops its lock between search and pop (core_daemon/device.c:349-364), and `deal_recv_buf` reads the transaction id before it locks (core_daemon/driver_cg_zigbee.c:620-623). Each is one step here.
- Spurious wakeups of a condition variable and more than one requesting thread in the Zigbee driver. A discovery at any time and a timeout that races with a signal are covered.
- Zigbee frames longer than the 256-byte buffers.
- The dispatch of virtual-switch messages to registration, event and status calls: the calls themselves are steps of the box, and the Zigbee driver's dispatch, which is modelled, has the same shape.
- Delay firing (core_daemon/device.c:1137-1169): nothing sets `started`, so the branch is never reached; delays are stored records.
- The other requests of `deal_tcp_packet` (device list, device information, the remote control key table) and the UDP discovery: one read or one table lookup each.
- A SET_STATUS frame batched ahead of another one, whose decoder is given the length of all that is left (core_daemon/network.c:291): the round trip is for a frame that ends the read.
- Reuse of a client context with responses left over from the connection before (core_daemon/network.c:680): routing is proved within one connection.
- `register_dev`, `remove_dev`, `destroy_dev`, `_get_dev_drv`, `find_dev_by_ip`: nothing calls them.
- `remote_key_mapping`, `hsb_mkstemp` and the simulators: finite tables or input and output.
- Provisioning.SentFrames: the 45 seconds of the send loop (misc/smart_config.c:320-322) are an input, the number of turns it has time for; the guide codes sent between are not modelled.
- Time zones, daylight saving and a clock that goes back: readings are pairs of day and second that never decrease.
- The event and result cases of `_make_notify_resp` (core_daemon/network.c:192-204): the responses of `Replies` are values; only the status case is modelled in bytes.
- Memory exhaustion: every allocation succeeds.
- Base64Encoder.EncryptB64: source and destination do not overlap and lengths stay below 2^31, where the C counters would overflow; the same holds for Base64Decoder.DecodeB64.
- DeviceControl.ControlBlock.SetDevSlot: timers, delays and linkages are one operation on a tagged record, because the three C functions differ only in the array; the same holds for DelDevSlot and GetDevSlot. The slots of a device are a sequence that is reassigned, not an array inside the record.
- Requests.DealSlotRequest: the receive buffer holds, from the start of the frame on, the bytes that the request reads: all of a SET frame, ten of a GET or DEL frame. Bytes behind the read are whatever was there; a shorter frame that starts in the last bytes of the buffer is read past its end by the C code.
- StatusLists.EncodeStatus: at most 15 pairs, what the 64-byte buffer holds; the count 2^32 - 1 of a message of four bytes or fewer is the subject of StatusLists.EncodeStaysWithin. The same holds for ZigbeeContext.Context.SetStatus and its at most 8 pairs.
- StatusLists.ParseStatus: the result is a sequence of any length, where the C arrays hold 8 pairs; the only caller asks for none and gets at most one.
- Framing.ConsumeLoop: the model leaves the loop where the C code would repeat a turn forever or read a header behind the buffer, and reports the place.
