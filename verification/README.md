# Satellite1 firmware: a verified model

This project models the stateful cores of the Satellite1 firmware (ESPHome components) and
proves what they keep over whole runs. Hardware, foreign components and other tasks appear
as outcomes that may come out any way; every theorem quantifies over all of them.

| file | what it holds |
|---|---|
| `Words.dfy` | 32-bit words, `millis()` over unbounded real time, division lemmas |
| `FlasherModel.dfy`, `FlasherRuns.dfy`, `FlasherObjects.dfy` | the XMOS flasher over a NOR chip and the Satellite1 bus mode |
| `PdMessage.dfy`, `PdSink.dfy`, `PdPort.dfy`, `PdRuns.dfy`, `PdObjects.dfy` | the USB Power Delivery sink on the FUSB302B |
| `Speaker.dfy`, `SpeakerRuns.dfy`, `SpeakerObjects.dfy` | the I2S speaker task, its interrupt and the DMA |
| `Resampler.dfy`, `ResamplerWake.dfy`, `ResamplerObjects.dfy`, `FrameRate.dfy` | the resampler speaker's loop and task, when its loop is enabled, and its frame-rate callback |
| `FirmwareVersion.dfy` | the firmware version printer and the version grammar |

Each machine is written twice. A step function over a state datatype is the specification;
the theorems are about runs of it. A class with the source's fields and methods follows the
source statement by statement, and every method's postcondition equates the new state with
that step function of the old one. Each objects module ends with a method `Schedule` that
runs a new object under an arbitrary sequence of events and has a run theorem about the
object's own fields as its postcondition.

What the models take from the environment:

- Flash: an accepted erase leaves its sector undefined until a status read shows the chip
  idle, and then all ones. A page write may do anything to its own page and report anything.
  Reads are honest while the bus is switched to the chip and arbitrary otherwise. An image
  fits in 8 MiB; a remote reader never delivers more than was asked for or announced. MD5 is
  an arbitrary function.
- Power Delivery: each message handler and each `loop()` pass is one step. Every lock
  attempt, CC sample and task creation may fail or succeed. Real time does not run backwards.
- Speaker: task, interrupt and hardware interleave freely between queue operations; the
  driver accepts any whole-frame prefix that fits its buffers.
- Resampler: `loop()` and the task are split at their event-group operations and interleave
  freely. A request to enable the loop takes effect when the main thread next begins an
  iteration; disabling it does not cancel a request.

Where code and comments disagree the model follows the code:

- pd.cpp:139 speaks of 500 mA; the fallback request encodes 300 mA and 100 mA.
- fusb302b.cpp:412-416 looks like a Get_Source_Cap retry; `PdRuns.SoftResetAtMostOnce` shows
  it is never sent.
- resampler_speaker.cpp:102 says commands sent while stopping are processed once stopped.
  However loop and task interleave until the stop completes, a command is pending then if and
  only if it was sent when the task was already gone and `loop()` was not between deleting it
  and clearing the event group (`Resampler.CommandOutlivesStop`). A start is then taken by the
  next pass, and otherwise lost (`Resampler.StartWhileStopping`). It is lost both when the task
  has reported its end (`Resampler.StartIsLost`) and when it has not even run
  (`Resampler.UnreportedStartIsLost`).
- i2s_audio_speaker_standard.cpp:70-73 says only 16-to-32-bit expansion passes the driver's
  check; the check at lines 228-232 admits any doubling, such as 8 bits in 16-bit slots.

Findings, each stated with the condition under which the promise does hold:

- An empty remote image is written to page 0 without any erase
  (`FlasherRuns.EmptyImageSkipsErase`), and its progress is a division by zero
  (`FlasherRuns.PercentIsExact`). Pages are erased before they are programmed exactly when
  the image is not empty.
- `flash_accessible()` called while flashing takes the bus away; SUCCESS can then be reported
  over an erased page (`FlasherRuns.ProbeDefeatsVerification`). After such a probe the image is
  on the chip if and only if everything from the current page on was 0xFF anyway, and after a
  probe while erasing if and only if it was there already (`FlasherRuns.StoredDespiteProbeIff`,
  `FlasherRuns.ProbedEraseIsBlankIff`).
- A digest download that ends in a short read fails the request but leaves 32 characters
  behind, so the next request starts on them without a download
  (`FlasherRuns.ShortReadArmsNextRequest`).
- A published progress value is the share of the work done if and only if the first erase
  command was issued before it (`FlasherRuns.PublishedIsShareIffErasing`); before it a full
  erase can publish 255 (`FlasherRuns.EarlyProgressHappens`).
- A DMA completion that lands between draining events and writing can make a later report
  claim frames that have not been played (`SpeakerRuns.OvertakingHappens`). Unless an event is
  dropped, all reports are right if and only if no write adds frames while the task's credits
  are fewer than one buffer for each queued event
  (`SpeakerRuns.ReportsExactIffNeverOvertaken`).
- A command to the stopped resampler speaker can stay pending with the loop disabled, until
  somebody sends another one. This happens if and only if, between the sender's request to
  enable the loop and its setting the bit, the request was served and a pass read the event
  group empty (`ResamplerWake.SendIsStuckIff`, `ResamplerWake.StartGetsStuck`).
- The frame-rate conversion is exact if and only if no callback overflows its 32-bit product.

## Model

| member | source | states |
|---|---|---|
| `FlasherRuns.SuccessMeansStored` | esphome/components/satellite1/memory_flasher/xmos_flashing.cpp:404-467 | in every run with arbitrary page-write faults, SUCCESS of an action not probed half-way means the chip holds the image padded with zeros to a page, and the digest of exactly those bytes is the expected one |
| `FlasherRuns.StoredDespiteProbeIff` | esphome/components/satellite1/memory_flasher/xmos_flashing.cpp:404-467 | SUCCESS after a probe half-way leaves the chip as the probe found it; if the probe came while flashing, the padded image is stored if and only if all of it from the page then reached is 0xFF, and if it came while erasing, if and only if it equals 0xFF up to the sector then reached and the old contents from there on |
| `FlasherRuns.SuccessfulEraseIsBlank` | esphome/components/satellite1/memory_flasher/xmos_flashing.cpp:29-40 | a full erase that reaches SUCCESS leaves all 8 MiB at 0xFF |
| `FlasherRuns.ProbedEraseIsBlankIff` | esphome/components/satellite1/memory_flasher/xmos_flashing.cpp:388-402 | a full erase probed half-way that reaches SUCCESS leaves the chip blank if and only if the sectors not yet reached were blank before |
| `FlasherRuns.ErasedBeforeProgrammed` | esphome/components/satellite1/memory_flasher/xmos_flashing.cpp:348-357 | in every run pages are programmed only in sectors whose erase has finished, exactly when the image is not empty; bytes past the erased sectors never change; the pages fit in the sectors |
| `FlasherRuns.EmptyImageSkipsErase` | esphome/components/satellite1/memory_flasher/xmos_flashing.cpp:348-357 | a reachable state in which an empty remote image programmed a page with nothing erased |
| `FlasherRuns.ProgressIsMonotone` | esphome/components/satellite1/memory_flasher/xmos_flashing.cpp:67-81 | over every run, values published once the first erase was issued never fall and never exceed 100, and the value after the last page is 100 |
| `FlasherRuns.PercentIsExact` | esphome/components/satellite1/memory_flasher/xmos_flashing.cpp:71-76 | after the first erase command the 32-bit computation is the true percentage, undefined exactly for an empty image |
| `FlasherRuns.EarlyProgressIsNotAPercentage` | esphome/components/satellite1/memory_flasher/xmos_flashing.cpp:71-76 | before it, for every action, the subtraction wraps: the value is what 2^32 - 100 leaves after division and truncation, while the formula itself would be negative |
| `FlasherRuns.PublishedIsShareIffErasing` | esphome/components/satellite1/memory_flasher/xmos_flashing.cpp:67-81 | in every reachable state a published value is the share of the work done if and only if the first erase command was issued |
| `FlasherRuns.EarlyProgressHappens` | esphome/components/satellite1/memory_flasher/xmos_flashing.cpp:67-81 | a reachable erasing state that shows 255 |
| `FlasherRuns.FaultFreeSchedule` | esphome/components/satellite1/memory_flasher/xmos_flashing.cpp:15-65 | a fault-free embedded flash, writes that take only when retried included, never fails, and its phase is decided by the number of non-waiting passes: one, then sectors + 1, then one a page, then SUCCESS |
| `FlasherRuns.BusOwnership` | esphome/components/satellite1/satellite1.cpp:93-160 | direct access is on exactly in the flash-connected state; while erasing or flashing control transfers are refused exactly when nobody probed; otherwise the bus and the buffers are released unless the last action ended in the erase-failure branch |
| `FlasherRuns.ProbeDefeatsVerification` | esphome/components/satellite1/memory_flasher/xmos_flashing.h:25-30 | a reachable SUCCESS, after a probe while flashing, with the image not on the chip |
| `FlasherRuns.StoreOutcome` | esphome/components/satellite1/memory_flasher/xmos_flashing.cpp:425-447 | write, read-back and one retry touch only their page, and report success only if the page holds the data |
| `FlasherRuns.StoredIffAWriteTook` | esphome/components/satellite1/memory_flasher/xmos_flashing.cpp:425-447 | a page is verified if and only if the first write left the data on the chip, or the second reported success and did; a second write happens only if the first did not take |
| `FlasherRuns.InitOutcome` | esphome/components/satellite1/memory_flasher/xmos_flashing.cpp:299-360 | from every reachable state, initialisation per action: counters, reader, buffers and bus, or the code of the failure with everything given back |
| `FlasherRuns.ErasePassOutcome` | esphome/components/satellite1/memory_flasher/xmos_flashing.cpp:388-402 | an erasing pass waits, goes on, fails with its code keeping bus and buffers, or ends in SUCCESS or flashing, each under its exact condition |
| `FlasherRuns.FlashPassOutcome` | esphome/components/satellite1/memory_flasher/xmos_flashing.cpp:404-467 | a flashing pass: which block arrives, and exactly when it ends in which error code, in SUCCESS, or goes on with which counters |
| `FlasherRuns.RequestOutcome` | esphome/components/satellite1/memory_flasher/xmos_flashing.cpp:106-156 | every request in every phase: taken only when idle, and the code of each refusal |
| `FlasherRuns.ProgressIsThrottled` | esphome/components/satellite1/memory_flasher/xmos_flashing.cpp:67-81 | nothing is published until more than a second has passed on the wrapped clock |
| `FlasherRuns.ReconnectsIff` | esphome/components/satellite1/satellite1.cpp:34-53 | a link given back by an action is connected again if and only if one of the first three due attempts finds the device |
| `FlasherRuns.EraseStepOutcome` | esphome/components/satellite1/memory_flasher/xmos_flashing.cpp:388-402 | a step that does not wait finishes the pending erase and issues the next one, touching no other sector |
| `FlasherRuns.BlockOutcome` | esphome/components/memory_flasher/memory_flasher.h:75-80 | blocks are consecutive pieces of the image and never exceed what is left |
| `FlasherRuns.StepKeeps` | esphome/components/satellite1/memory_flasher/xmos_flashing.cpp:15-65 | every event keeps the whole invariant: link, resources, counters, chip contents, order, progress, schedule |
| `FlasherObjects.XmosFlasher.Loop` | esphome/components/satellite1/memory_flasher/xmos_flashing.cpp:15-65 | one pass is the model's pass |
| `FlasherObjects.XmosFlasher.InitFlashing` | esphome/components/satellite1/memory_flasher/xmos_flashing.cpp:299-360 | initialisation for each action, with each failure |
| `FlasherObjects.XmosFlasher.DeinitFlashing` | esphome/components/satellite1/memory_flasher/xmos_flashing.cpp:362-386 | buffers, reader, expected digest and bus are released |
| `FlasherObjects.XmosFlasher.ErasingStep` | esphome/components/satellite1/memory_flasher/xmos_flashing.cpp:388-402 | new state and returned count of an erasing step |
| `FlasherObjects.XmosFlasher.FetchBlock` | esphome/components/satellite1/memory_flasher/xmos_flashing.cpp:405-411 | the next block of whichever reader is open lies in the buffer |
| `FlasherObjects.XmosFlasher.PadBuffer` | esphome/components/satellite1/memory_flasher/xmos_flashing.cpp:415-423 | the buffer is the block followed by zeros |
| `FlasherObjects.XmosFlasher.ReadPage` | esphome/components/satellite1/memory_flasher/xmos_flashing.cpp:280-297 | the compare buffer is what the bus returns |
| `FlasherObjects.XmosFlasher.BuffersAgree` | esphome/components/satellite1/memory_flasher/xmos_flashing.cpp:433-442 | true exactly when the two buffers are equal |
| `FlasherObjects.XmosFlasher.StorePage` | esphome/components/satellite1/memory_flasher/xmos_flashing.cpp:425-447 | chip and verdict of write, compare and retry |
| `FlasherObjects.XmosFlasher.FlashingStep` | esphome/components/satellite1/memory_flasher/xmos_flashing.cpp:404-467 | new state and returned count of a flashing step, with each error |
| `FlasherObjects.XmosFlasher.PublishProgressNow` | esphome/components/satellite1/memory_flasher/xmos_flashing.cpp:67-81 | progress is updated only when a second has passed |
| `FlasherObjects.XmosFlasher.FlashEmbeddedImage` | esphome/components/satellite1/memory_flasher/xmos_flashing.cpp:140-156 | request for the embedded image, refused when busy or absent |
| `FlasherObjects.XmosFlasher.FlashRemoteImage` | esphome/components/satellite1/memory_flasher/xmos_flashing.cpp:116-138 | request for a remote image, refused when busy, without URL or without digest |
| `FlasherObjects.XmosFlasher.HttpGetMd5` | esphome/components/memory_flasher/memory_flasher.cpp:18-50 | the expected digest is untouched, or overwritten and incomplete, or received |
| `FlasherRuns.ShortReadArmsNextRequest` | esphome/components/memory_flasher/memory_flasher.cpp:40-50 | from every reachable idle state without a digest, the request after a failed download reaches initialising without asking the server, on the digest left behind, if and only if the failure was a short read |
| `FlasherObjects.XmosFlasher.EraseMemory` | esphome/components/satellite1/memory_flasher/xmos_flashing.cpp:106-114 | request for a full erase, refused when busy |
| `FlasherObjects.XmosFlasher.FlashAccessible` | esphome/components/satellite1/memory_flasher/xmos_flashing.h:25-30 | switches the bus on and off again whatever the phase |
| `FlasherObjects.Schedule` | esphome/components/satellite1/memory_flasher/xmos_flashing.cpp:15-65 | a new flasher object under any events: SUCCESS of an image action not probed half-way means its own chip holds the image |
| `FlasherObjects.EmbeddedImageReader.ReadImageBlock` | esphome/components/memory_flasher/memory_flasher.h:75-80 | copies the next block and advances past it |
| `FlasherObjects.Satellite1.SetSpiFlashDirectAccessMode` | esphome/components/satellite1/satellite1.cpp:150-160 | link state and flag after a mode change |
| `FlasherObjects.Satellite1.Transfer` | esphome/components/satellite1/satellite1.cpp:93-96 | a control transfer fails whenever the flash has the bus, and otherwise as the exchange does |
| `FlasherObjects.Satellite1.Loop` | esphome/components/satellite1/satellite1.cpp:34-53 | connection attempts and their limit |
| `PdMessage.HeaderRoundTrip` | components/fusb302b/pd.cpp:220-263 | decoding the coded header of a well-formed message gives its fields back |
| `PdMessage.HeaderNormalForm` | components/fusb302b/pd.cpp:220-263 | re-encoding any decoded header word gives it back up to the two role bits |
| `PdMessage.HeaderBits` | components/fusb302b/pd.cpp:257-263 | the bits at which each field stands in the header word |
| `PdMessage.LittleEndian` | components/fusb302b/fusb302b.cpp:548-571 | each object occupies four bytes, least significant first |
| `PdMessage.FrameShape` | components/fusb302b/fusb302b.cpp:548-571 | a frame fits 40 bytes, opens with the SOP tokens, announces its payload length in PACKSYM, puts the low header byte first, and closes with the four end tokens |
| `PdMessage.SendMessage` | components/fusb302b/fusb302b.cpp:543-571 | the buffer holds exactly the frame |
| `PdMessage.SendThenRead` | components/fusb302b/fusb302b.cpp:514-571 | reading the payload of a sent frame recovers the message |
| `PdMessage.ReadPacket` | components/fusb302b/fusb302b.cpp:514-541 | reading a packet recovers its message, accepts it exactly for a SOP token, and consumes exactly its bytes |
| `PdMessage.ReadsFromBytes` | components/fusb302b/fusb302b.cpp:514-541 | from raw bytes: SOP by the top three bits, a little-endian header that announces the objects, a CRC of four bytes, and the rest left in the FIFO |
| `PdMessage.Drain` | components/fusb302b/fusb302b.cpp:65-75 | the reader loop ends on any bytes and delivers what the specification says |
| `PdMessage.DrainStaysInSync` | components/fusb302b/fusb302b.cpp:65-75 | on any concatenation of packets the loop delivers exactly the SOP messages in order |
| `PdSink.ParseReads` | components/fusb302b/pd.cpp:12-46 | each field of a contract comes from its own bits of the object, for each of the four kinds |
| `PdSink.SelectionRule` | components/fusb302b/pd.cpp:148-160 | judged by the voltage bits of the objects themselves: the last object that fits, else the first usable one, else none |
| `PdSink.SelectPdo` | components/fusb302b/pd.cpp:148-160 | the loop computes that selection |
| `PdSink.RequestDecodes` | components/fusb302b/pd.cpp:48-63 | the request decodes to the object's position and its own current or power in both fields, clear of the flags |
| `PdSink.AnswerDecodes` | components/fusb302b/pd.cpp:148-175 | for every list of capabilities the request names the object the rule singles out by its position and asks for its own amount, and the contract remembered has the voltage and current bits of that object; without a usable object both are the fallback |
| `PdSink.AnswerVolts` | components/fusb302b/pd.cpp:148-175 | the voltage of that contract is the one the chosen object's bits offer, or 5 V |
| `PdSink.ControlReplies` | components/fusb302b/pd.cpp:103-136 | what each control message puts on the wire, in the codes of the specification, and what it does to negotiation, state and counter |
| `PdSink.AcceptAdopts` | components/fusb302b/pd.cpp:112-118 | Accept adopts the contract asked for exactly while a negotiation is open, and announces a transition exactly when it differs |
| `PdSink.AcknowledgementCounts` | components/fusb302b/pd.cpp:75-80 | an acknowledgement advances the message counter and nothing else |
| `PdSink.CapabilitiesAreAnswered` | components/fusb302b/pd.cpp:86-101 | capabilities open a negotiation and are answered by exactly one request under the current counter; other data messages do nothing |
| `PdSink.FallbackDecodes` | components/fusb302b/pd.cpp:138-167 | the fallback request decodes to position 1, 300 mA and 100 mA, for a 5 V contract |
| `PdSink.AnswerRespectsVoltage` | components/fusb302b/pd.cpp:148-175 | the contract asked for is within the requested voltage exactly when the source offers one that is |
| `PdSink.RetransmissionIsIgnored` | components/fusb302b/pd.cpp:75-136 | a retransmission of the last message, after any acknowledgements and before any further messages, changes neither the final state nor what is sent |
| `PdRuns.AcceptRespectsRequest` | components/fusb302b/pd.cpp:86-122 | over every run an Accept that takes effect adopts the answer to the last capabilities for the voltage last asked for; the contract voltage is the one in the chosen object's bits, and stays within what was asked for exactly when the capabilities allow it |
| `PdRuns.LastRequestIsAnswered` | components/fusb302b/pd.cpp:148-216 | over every run, capabilities are answered for exactly the voltage last asked for with no negotiation open |
| `PdRuns.RequestIsActedOn` | components/fusb302b/pd.cpp:208-216 | a voltage asked for while attached is acted on by the next pass whatever was waited for, and refused while negotiating |
| `PdRuns.NegotiationTimesOut` | components/fusb302b/pd.cpp:177-189 | over every run, a pass leaves an open negotiation open if and only if at most two seconds of real time have passed since the capabilities, and then does nothing else to it |
| `PdRuns.SoftResetAtMostOnce` | components/fusb302b/fusb302b.cpp:401-431 | over every run at most one Soft_Reset is sent per attach and Get_Source_Cap never |
| `PdRuns.TimeoutSchedule` | components/fusb302b/fusb302b.cpp:396-431 | after an attach without capabilities, detach or voltage request, the retry machine acts at most three times, sends exactly one Soft_Reset, and gives up at least ten seconds of real time after its first action, across counter wrap-around |
| `PdRuns.GivingUpIsPatient` | components/fusb302b/fusb302b.cpp:396-431 | with voltage requests interleaved too, every giving-up comes after exactly one Soft_Reset and at least ten seconds of real time after the first action since the attach |
| `PdRuns.PatientPollAdvances` | components/fusb302b/fusb302b.cpp:401-431 | each pass at least five seconds after the last action lowers the rank by one, and the third enters PD_TIMEOUT |
| `PdRuns.AttachStartsTimeline` | components/fusb302b/fusb302b.cpp:385-393 | an attach with no negotiation open starts that schedule |
| `PdRuns.AttachedOnEvidence` | components/fusb302b/fusb302b.cpp:283-363 | over every run, attached means both lines were read stably at least 5 ms after selection, exactly one carried a level, and both switches are on it |
| `PdRuns.IdlePassMeasures` | components/fusb302b/fusb302b.cpp:285-310 | an idle pass waits for the start-up delay, the back-off and the bus, and otherwise selects the first line |
| `PdRuns.FirstLineMeasured` | components/fusb302b/fusb302b.cpp:311-331 | a stable level of the first line is kept and the second selected; an unstable one starts the back-off |
| `PdRuns.AttachesIff` | components/fusb302b/fusb302b.cpp:332-393 | the port attaches if and only if the second level is stable, exactly one line carries one and the task exists or can be created, with both switches on that line |
| `PdRuns.LossDetaches` | components/fusb302b/fusb302b.cpp:219-231 | the pass after VBUS was lost leaves the port detached, no negotiation open, nothing waited for, and the back-off running |
| `PdRuns.ContractIsAnnounced` | components/fusb302b/fusb302b.cpp:232-235 | the contract timer is cleared by the first pass more than a second after it was set |
| `PdRuns.ReaderTaskSteps` | components/fusb302b/fusb302b.cpp:46-64 | what the start of the reader task and a VBUS drop change |
| `PdRuns.StepKeeps` | components/fusb302b/fusb302b.cpp:219-236 | every event keeps negotiation, reset count and line evidence |
| `PdObjects.ReadBcLevel` | components/fusb302b/fusb302b.cpp:239-248 | the first sample, and whether all six agree |
| `PdObjects.PowerDelivery.Handle` | components/fusb302b/pd.cpp:75-136 | new state of a message, and that it is refused exactly when its id repeats |
| `PdObjects.PowerDelivery.HandleControlMessage` | components/fusb302b/pd.cpp:103-136 | new state for each control message |
| `PdObjects.PowerDelivery.RespondToSourceCap` | components/fusb302b/pd.cpp:148-175 | contract remembered and request sent |
| `PdObjects.PowerDelivery.Request` | components/fusb302b/pd.cpp:208-216 | a voltage request is taken exactly when no negotiation is open |
| `PdObjects.PowerDelivery.CheckAmsNow` | components/fusb302b/pd.cpp:184-189 | a negotiation ends after two seconds |
| `PdObjects.PowerDelivery.RetryNow` | components/fusb302b/fusb302b.cpp:401-431 | one action of the retry machine |
| `PdObjects.Fusb302b.CheckUnattachedNow` | components/fusb302b/fusb302b.cpp:285-363 | one pass of the CC measurement |
| `PdObjects.Fusb302b.AttachNow` | components/fusb302b/fusb302b.cpp:365-393 | attach, with task creation on the first one |
| `PdObjects.Fusb302b.HandleLossNow` | components/fusb302b/fusb302b.cpp:219-230 | detach on VBUS loss |
| `PdObjects.Fusb302b.LoopNow` | components/fusb302b/fusb302b.cpp:219-236 | one pass is the model's pass |
| `PdObjects.Schedule` | components/fusb302b/fusb302b.cpp:219-236 | a new port object under any events in real time: no Get_Source_Cap, at most one Soft_Reset an attach, attached only on evidence |
| `SpeakerRuns.FramesAreConserved` | components/i2s_audio/speaker/i2s_audio_speaker_standard.cpp:124-203 | at every point accepted frames are reported frames plus credits, an underflow leaves no credit, and credits never exceed thirteen buffers |
| `SpeakerRuns.StreamIsPreserved` | components/i2s_audio/speaker/i2s_audio_speaker_standard.cpp:147-194 | slot by slot: what the DMA got is the source stream in order, each sample scaled once by the gain it was read with and times 65536 when expanding; the rest waits in the buffer, scaled only |
| `SpeakerRuns.GracefulExitIsComplete` | components/i2s_audio/speaker/i2s_audio_speaker_standard.cpp:155-158 | a graceful exit means everything taken was accepted and reported, and also played if handling was prompt |
| `SpeakerRuns.GracefulRound` | components/i2s_audio/speaker/i2s_audio_speaker_standard.cpp:104-158 | with the source dry, a round ends the task gracefully if and only if that was asked for and the queued events, one buffer each, exceed the credits, or the queue is empty after an underflow |
| `SpeakerRuns.WritingRound` | components/i2s_audio/speaker/i2s_audio_speaker_standard.cpp:124-203 | with samples waiting, what a round does to channel, events and credits, with and without an underflow |
| `SpeakerRuns.DrainedUnderflow` | components/i2s_audio/speaker/i2s_audio_speaker_standard.cpp:124-138 | settling all events leaves an underflow if and only if the credits are fewer than one buffer for each |
| `SpeakerRuns.StopEndsTask` | components/i2s_audio/speaker/i2s_audio_speaker_standard.cpp:104-121 | a stop, a timeout or a changed stream ends the task at the top of its loop, not gracefully |
| `SpeakerRuns.PausedTaskWaits` | components/i2s_audio/speaker/i2s_audio_speaker_standard.cpp:140-143 | a paused task settles events and reads nothing |
| `SpeakerRuns.DriverRoom` | components/i2s_audio/speaker/i2s_audio_speaker_standard.cpp:178-189 | over every run at most four buffers are pending, and any whole frames that fit may be taken |
| `SpeakerRuns.InterruptPlays` | components/i2s_audio/speaker/i2s_audio_speaker.cpp:213-237 | the interrupt plays one buffer and queues one event, losing the oldest of five and ordering a stop |
| `SpeakerRuns.ReportsExactIffNeverOvertaken` | components/i2s_audio/speaker/i2s_audio_speaker_standard.cpp:124-194 | over every run without a dropped event, all reports made and all reports due for queued events name the frames really played if and only if no write added frames while the credits did not cover one buffer for each queued event |
| `SpeakerRuns.OvertakesIffShort` | components/i2s_audio/speaker/i2s_audio_speaker_standard.cpp:124-138 | until that happens, the credits fail to cover the queue exactly when some queued buffer went out short |
| `SpeakerRuns.PromptReportsAreExact` | components/i2s_audio/speaker/i2s_audio_speaker_standard.cpp:124-138 | until that happens, played frames are the reported ones plus what is queued, accepted ones are played or pending, and no restart discards audio |
| `SpeakerRuns.OvertakenReportIsWrong` | components/i2s_audio/speaker/i2s_audio_speaker_standard.cpp:155-194 | the next write keeps all reports right if and only if, at the moment of the write, the credits cover the queue; the task can read both, and an interrupt between that test and the write is the race itself |
| `SpeakerRuns.OvertakingHappens` | components/i2s_audio/speaker/i2s_audio_speaker_standard.cpp:124-194 | a reachable state with a wrong report |
| `SpeakerObjects.SpeakerTask.OnSent` | components/i2s_audio/speaker/i2s_audio_speaker.cpp:213-237 | the bounded event queue, dropping the oldest and commanding a stop when full |
| `SpeakerObjects.SpeakerTask.TopOfLoopNow` | components/i2s_audio/speaker/i2s_audio_speaker_standard.cpp:104-121 | stop, graceful stop and exit conditions |
| `SpeakerObjects.SpeakerTask.Settle` | components/i2s_audio/speaker/i2s_audio_speaker_standard.cpp:124-138 | one event settled against the credits |
| `SpeakerObjects.SpeakerTask.DrainEvents` | components/i2s_audio/speaker/i2s_audio_speaker_standard.cpp:124-138 | the loop reports exactly the credits it gives up |
| `SpeakerObjects.SpeakerTask.ReadFromSource` | components/i2s_audio/speaker/i2s_audio_speaker_standard.cpp:147-153 | new samples are appended, each of them and only they scaled once |
| `SpeakerObjects.SpeakerTask.ApplyGain` | components/i2s_audio/speaker/i2s_audio_speaker.cpp:239-248 | in place, every sample of the tail is scaled once and the rest is unchanged |
| `SpeakerObjects.SpeakerTask.ExpandSamples` | components/i2s_audio/speaker/i2s_audio_speaker_standard.cpp:167-176 | the expansion buffer holds the widened samples |
| `SpeakerObjects.SpeakerTask.WriteToDma` | components/i2s_audio/speaker/i2s_audio_speaker_standard.cpp:155-203 | new state of a partial write, and the slots handed over |
| `SpeakerObjects.Schedule` | components/i2s_audio/speaker/i2s_audio_speaker_standard.cpp:104-203 | a new task object under any schedule: slot by slot what was taken is what was read, scaled once and widened, the rest waits, and frames taken are frames reported plus credits |
| `Resampler.TaskLifecycle` | components/resampler/speaker/resampler_speaker.cpp:83-215 | over every interleaving a stopped speaker has no task, stop orders and reports belong to an existing task, and a task is created only when none exists and nothing stale is pending |
| `Resampler.StopIsHonoured` | components/resampler/speaker/resampler_speaker.cpp:287-389 | a stopping speaker's task has been told, each of its steps brings it nearer to its end, and its final report is there |
| `Resampler.StopCompletes` | components/resampler/speaker/resampler_speaker.cpp:123-206 | once task and output are done, one uninterrupted pass completes the stop |
| `Resampler.StopIsObeyed` | components/resampler/speaker/resampler_speaker.cpp:83-215 | whatever the task reports meanwhile, the pass that finds a stop leaves a starting or running speaker stopping or stopped, no command pending, its task told |
| `Resampler.StopCommanded` | components/resampler/speaker/resampler_speaker.cpp:88-102 | stop comes before all else: what it does in each mode |
| `Resampler.FinishCommanded` | components/resampler/speaker/resampler_speaker.cpp:103-112 | then finish, which leaves a start for the next pass |
| `Resampler.StartCommanded` | components/resampler/speaker/resampler_speaker.cpp:113-121 | then start, taken by a stopped speaker and dropped by a running one |
| `Resampler.CommandsAfterPass` | components/resampler/speaker/resampler_speaker.cpp:83-160 | what is pending after a pass is what that left, unless the report of an ended task has all dropped |
| `Resampler.ErrorStopsSpeaker` | components/resampler/speaker/resampler_speaker.cpp:131-146 | an error report of the task leaves the speaker stopping or stopped after the pass, in every mode |
| `Resampler.PassAcknowledges` | components/resampler/speaker/resampler_speaker.cpp:123-160 | an uninterrupted pass leaves no report of the task pending, and deletes a task that has reported its end |
| `Resampler.PassFollowsOutput` | components/resampler/speaker/resampler_speaker.cpp:162-214 | without commands and reports, the exact state after a pass in each mode for each answer of the output |
| `Resampler.RunningPass` | components/resampler/speaker/resampler_speaker.cpp:83-190 | a running speaker drops a finish, or else a start, and goes on or stops as its output does |
| `Resampler.TaskReports` | components/resampler/speaker/resampler_speaker.cpp:328-389 | the task's reports in order, the code of each set-up outcome, and its end |
| `Resampler.StartOutlivesPass` | components/resampler/speaker/resampler_speaker.cpp:123-160 | a start pending when the bits are read again outlives the pass if and only if no task has reported its end |
| `Resampler.CommandsOutlivePass` | components/resampler/speaker/resampler_speaker.cpp:123-215 | from any later point of a pass too, pending commands all survive or are all dropped, by that report |
| `Resampler.CommandOutlivesStop` | components/resampler/speaker/resampler_speaker.cpp:83-215 | through every interleaving from any point of a stop to its completion, a command not sent again is still pending if and only if it was pending with the task gone and the event group not about to be cleared |
| `Resampler.StartWhileStopping` | components/resampler/speaker/resampler_speaker.cpp:83-215 | in every reachable stopping state with a start pending, whatever happens until the stop completes, the pass after it leaves stopped if and only if that condition held |
| `Resampler.StopCanComplete` | components/resampler/speaker/resampler_speaker.cpp:83-215 | from every state of a stopping speaker some steps without a command complete the stop |
| `Resampler.StoppedTakesStart` | components/resampler/speaker/resampler_speaker.cpp:86-214 | a stopped speaker takes a lone start within one pass: starting, with a task if one is needed, or stopping if its creation failed |
| `Resampler.StartIsLost` | components/resampler/speaker/resampler_speaker.cpp:156-160 | a reachable stopping state with a start pending that the next pass loses |
| `Resampler.UnreportedStartIsLost` | components/resampler/speaker/resampler_speaker.cpp:83-215 | a reachable stopping state whose task has reported nothing, from which the stop can complete and every completion loses the start |
| `Resampler.LoopKeeps` | components/resampler/speaker/resampler_speaker.cpp:83-215 | every stage of the loop keeps the lifecycle invariant |
| `Resampler.TaskKeeps` | components/resampler/speaker/resampler_speaker.cpp:328-389 | every stage of the task keeps it |
| `ResamplerWake.DisabledOnlyWhenStopped` | components/resampler/speaker/resampler_speaker.cpp:207-214 | over every run the loop is disabled only between passes of a stopped speaker without a task, and a command is stuck if and only if its bit was set with the loop disabled, or about to be, and no request outstanding |
| `ResamplerWake.SendIsStuckIff` | components/resampler/speaker/resampler_speaker.cpp:250-258 | a command sent in any reachable state is stuck if and only if, between its request and its bit, the request was served and a pass then read no bits |
| `ResamplerWake.StuckUntilNextRequest` | components/resampler/speaker/resampler_speaker.cpp:207-214 | a stuck command stays pending on a stopped speaker through everything but another request |
| `ResamplerWake.StartGetsStuck` | components/resampler/speaker/resampler_speaker.cpp:250-258 | a run in which the first start gets stuck |
| `ResamplerObjects.ResamplerSpeaker.LoopStage` | components/resampler/speaker/resampler_speaker.cpp:83-215 | one stage is the model's stage |
| `ResamplerObjects.ResamplerSpeaker.ProcessCommands` | components/resampler/speaker/resampler_speaker.cpp:86-121 | commands by priority |
| `ResamplerObjects.ResamplerSpeaker.Start` | components/resampler/speaker/resampler_speaker.cpp:263-283 | task creation or entry into stopping |
| `ResamplerObjects.ResamplerSpeaker.DispatchOnMode` | components/resampler/speaker/resampler_speaker.cpp:162-214 | the state transition of a pass |
| `ResamplerObjects.ResamplerSpeaker.TaskStage` | components/resampler/speaker/resampler_speaker.cpp:328-389 | one stage of the task |
| `ResamplerObjects.Schedule` | components/resampler/speaker/resampler_speaker.cpp:83-215 | a new speaker object under any interleaving: stopped means no task, stopping means its task has been told |
| `FrameRate.ReportsRoundDown` | components/resampler/speaker/resampler_speaker.cpp:66-77 | over any callbacks the total is the converted count rounded down, with a remainder below the target rate, if and only if no product overflows 32 bits |
| `FrameRate.EqualRatesPassThrough` | components/resampler/speaker/resampler_speaker.cpp:74-76 | with equal rates every frame is reported |
| `FrameRate.Ledger` | components/resampler/speaker/resampler_speaker.cpp:68-73 | reports and remainder account for every product except whole lost turns of 32 bits |
| `FrameRate.OutputCallback.OnAudioOutput` | components/resampler/speaker/resampler_speaker.cpp:66-77 | each callback extends that account by its own frames |
| `FirmwareVersion.ParseShapeSound` | esphome/components/memory_flasher/__init__.py:284-285 | whatever is accepted is a string of the version grammar, taken apart correctly |
| `FirmwareVersion.ParseShapeComplete` | esphome/components/memory_flasher/__init__.py:284-285 | every string of the grammar is accepted, in the only way it can be taken apart |
| `FirmwareVersion.PrintThenParse` | esphome/components/satellite1/satellite1.cpp:55-80 | parsing what was printed gives the five bytes back exactly when the pre-release has a name and a counter comes only with one |
| `FirmwareVersion.ParsesByName` | esphome/components/memory_flasher/__init__.py:282-294 | numbers go to their bytes in order, "-alpha", "-beta", "-rc" and "-dev" in any letter case to 1, 2, 3 and 4, and the number behind to the last byte |
| `FirmwareVersion.PrintsByName` | esphome/components/satellite1/satellite1.cpp:55-80 | a printed version contains each of these names exactly when its fourth byte says so |
| `FirmwareVersion.OutOfRangeIff` | esphome/components/memory_flasher/__init__.py:286-294 | a string of the grammar has bytes if and only if all its numbers are below 256 |
| `FirmwareVersion.PlaceValue` | esphome/components/satellite1/satellite1.cpp:76-80 | numbers are written and read with the most significant digit first |
| `FirmwareVersion.NormalForm` | esphome/components/memory_flasher/__init__.py:283-294 | printing what was parsed keeps the bytes and is idempotent |
| `FirmwareVersion.ShownEqualIffMatch` | esphome/components/memory_flasher/memory_flasher.h:133-135 | for such versions equal strings are equal bytes |
| `FirmwareVersion.StrayCounterIsLost` | esphome/components/satellite1/satellite1.cpp:76-80 | a release version with a counter does not survive the round trip |

## Left out

- The SPI byte exchanges below pages and sectors, JEDEC identification, and the retry loops of control transfers: foreign bus behaviour; only the refusal in direct-access mode is modelled.
- HTTP download, MD5 internals, the audio resampler, ring buffer and transfer buffer: arbitrary functions or queues here.
- Concurrent access to the same Power Delivery fields from several tasks: handlers and passes are atomic steps.
- I2C errors, lock failures and the five-entry limit of the message queue in the PD reader task: the reader is modelled with the lock held and working reads; messages are followed up to the queue.
- PS_RDY without a preceding Accept, and the contract voltage after a detach: the code does not tie the first to an Accept nor reset the second, so nothing is claimed about them.
- PdMessage.FrameShape: says nothing about the write result, which the callers of send_message ignore.
- SpeakerRuns.StreamIsPreserved: assumes the source delivers whole 16-bit samples, because the ring buffer that guarantees it is foreign code.
- Sample widths other than 16 bits, the mono sample swap of one chip variant, and the mapping from volume to gain factor: the gain is an arbitrary function of a sample.
- FirmwareVersion.ParseShapeComplete: covers ASCII digits and letters; the Python pattern also accepts other Unicode digits.
- FrameRate.ReportsRoundDown: takes the two rates as fixed since the start, as the source does between starts.
- The microphone: a start and stop machine over a task and an event group of the kind proved for the resampler, with a simpler task.
- The two channel handles of an I2S port: a few branches on which handle exists, around driver calls.
- LED ring, button, timer and voice scripts: YAML automations without invariants over runs.
- Python configuration code apart from the version grammar, and the site pages: they run at build time only.
- The calls to the output speaker itself (start, finish, stop): its reactions are outcomes of each pass here.
- ResamplerWake.SendIsStuckIff: is about the enable flag as a value; the object in `ResamplerObjects` always runs its loop, which in the stopped state with no bits changes nothing.
- SpeakerRuns.ReportsExactIffNeverOvertaken: says nothing about reports after an event was dropped; the interrupt then orders the task to stop, which it does at the top of its loop.
