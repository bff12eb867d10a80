# The nvme.device I/O pipeline, modelled and proved

nvme.device is an AmigaOS 4 block driver for NVMe controllers. Each unit has a task of its own that
turns I/O requests into NVMe commands, publishes them, polls for completions and replies. This
project models that pipeline together with the controller it talks to and the clients that share its
memory, and proves what the driver promises over every run: a successful read has put the right disk
bytes into the caller's buffer, a successful write has stored exactly the caller's bytes, every
completion finds its own request, rings never overflow, every DMA pin is released as it was taken,
and every request is in exactly one place until it is completed once. Around it stand the parts with
a hard property of their own: PRP construction, MDTS chunking, the bounded waits, the polled admin
queue, UNMAP, the mode pages, and the unwinding of a failed start.

## How it is built

A specification of the pipeline as a step system (`Pipeline`) has three actors. The unit task
submits, publishes, harvests, suppresses and gives up; the controller fetches in order, executes in
any order on a disk, through the PRPs found in memory, and posts in any order; clients store into
memory the driver does not own. Properties of runs are proved about it (`Matching`, `Slack`,
`EndToEnd`, `Completion`, `Ledger`, `Published`), and of what the unit task composes of such steps: bounded waits
(`Waiting`), chunked transfers (`Chunking`, `Dispatch`, `ChunkEffects`), who owes a reply
(`Answering`), drains of the port (`Drain`) and sessions of the event loop (`Sessions`).

The code itself changes things in place, and so does its model: `Rings.QueuePair` (two rings with
indices, doorbells and phase bits), `PrpBuild` (the loops that store PRP entries), `UnitTask.Unit`
(inflight table, queue pair, memory, ledger), `Task` (the poll loops, `dispatch_rw`, the port drain,
the event loop), `Requests.IORequest`, `Ownership.UnitOwner` (`BeginIO`, `AbortIO`, `Close` around a
unit), `Admin.AdminQueue`, and the SCSI translations. Every method of `Unit` and `Task` is proved to
take the abstract state `Abs()` to exactly the state the step functions name, so what holds of runs
holds of the unit. They may be called after timeouts too, as long as the rings have room, which
`Slack` measures.

| file | content |
|---|---|
| Base, Endian, Memory | constants, division by a variable, byte order, memory |
| Prp, PrpBuild | section 4.3 of NVM Express 1.4 as a decoder; the two PRP builders and their loops |
| Rings | queue pairs and the phase tag, sections 4.1 and 4.6 of NVM Express 1.4 |
| Commands, Pipeline | commands, validation, the step system |
| Matching, Slack, EndToEnd, Completion, Ledger | invariants of every run; one result for each request |
| Published | which command stands for a slot, and which way its buffer goes |
| Waiting, Chunking, Dispatch, ChunkEffects | bounded waits, MDTS chunks, `dispatch_rw` |
| Answering, Drain, Sessions | replies owed, port drains and bursts, the event loop |
| Requests, Unit, Task | requests, the unit and the unit task's loops, in place |
| Ownership | who holds a request |
| Counterexamples | concrete inputs on which a promise is not kept |
| Admin, Scsi, Unmap, Trim, ModePages, Unwind | the secondary cores |

## Where the code falls short of what it is for

The code is modelled as it is. Where a promised property is false of it, the exact condition under
which it holds is proved, with an input that fails.

- PRP1 has to be dword-aligned. A buffer over 64 KiB goes the direct way whatever its alignment, so
  its PRPs are valid if and only if it starts on a dword (`Prp.DirectPreservesMeaning`,
  `EndToEnd.SubmittedDecodes`, `Counterexamples.OffDwordFails`).
- Only six commands carry a 64-bit offset. FORMAT64 is not one of them
  (`Commands.OffsetFaithful`), and the chunk loop carries into the high word for all commands, so
  chunks cover the range asked for if and only if the last one starts below the limit of the command
  (`Chunking.ChunksCoverDisk`, `Counterexamples.ChunkWrapsAround`).
- `(1 << mdts) * page_size` wraps to zero for large MDTS; then every aligned transfer is reported as
  done without a byte moved (`Admin.CapWraps`, `Dispatch.ZeroCapMovesNothing`).
- The doorbell test after a port drain compares tails modulo the queue depth, so a drain that places a
  multiple of the depth can leave commands unpublished (`Drain.DrainPublishes`,
  `Counterexamples.StalledDrain`).
- The last harvest of `wait_for_free_slot` is not looked at any more (`Waiting.AwaitSlotExact`).
- The admin queue does not check command ids, so after a timeout the next call gets the answer to the
  one that timed out, and every call after it its predecessor's (`Admin.AdminQueue.RunBehind`,
  `Admin.StaleStatus`).
- A poll timeout frees a slot whose command is still under way (`Matching.TimeoutBreaksMatching`); its
  late completion can be taken for another request's (`Counterexamples.LateCompletionMisleads`).
- A last close with slots occupied leaves their requests uncompleted
  (`Ownership.UnitOwner.TaskExit`).
- A MODE SELECT of the write cache is accepted without effect if the controller has none
  (`ModePages.SelectThenSense`).
- `UnitTask_Start` keeps all its buffers when the unit task itself fails (`Unwind.UnitResources.Start`).

## What is taken for granted

- SG lists are what GetDMAList promises: non-empty extents, of which only the first may start and only
  the last may end inside a page. Bounce buffers and list pages are contiguous, page-aligned, and
  apart from each other and from clients' buffers. The page size is any multiple of 8 from 4096 on.
- A command of HD_SCSICMD reaches SubmitAndWait only without data of its own (`Drain.Sound`).
- Clients do not touch a buffer while the driver owns it and do not submit one that another request
  in flight reads into (`Pipeline.ClientBuffer`, `Pipeline.ClientMay`). Requests in flight are told
  apart by an id.
- The completion queue is zeroed before use. The controller fetches in order, refuses PRPs that
  section 4.3 forbids, and may leave anything in the target of a command that fails.
- Timeouts: the matching of completions and the data results are about runs without poll timeouts; the
  DMA ledger and the ownership of requests are about all runs. The rings, and with them the in-place
  unit, are about runs in which fewer than depth - 16 commands have been given up on and never
  answered since; beyond that the driver would overwrite SQEs.
- What others do while a loop yields is an arbitrary script with one turn per poll.

## Model

| member | source | states |
|---|---|---|
| Endian.Le64OfWords | src/nvme/nvme_io.c:44-54 | Two byte-reversed 32-bit stores, low word first, form the 64-bit field the controller reads |
| Endian.Be16OfField | src/scsi_cmds/scsi_unmap.c:62-65 | Any 16-bit value laid out most significant byte first is read back |
| Endian.Be32OfField | src/scsi_cmds/scsi_unmap.c:55-60 | Any 32-bit value likewise |
| Endian.Be64OfField | src/scsi_cmds/scsi_unmap.c:46-53 | Any 64-bit value likewise |
| Prp.DirectPreservesMeaning | src/nvme/nvme_io.c:387-460 | For every well-formed SG list the controller, decoding by section 4.3, gets exactly the addresses the list denotes, byte for byte and in order, when the transfer starts on a dword, and rejects the command otherwise |
| Prp.BounceRefinesWalk | src/nvme/nvme_io.c:250-287 | For any length up to 64 KiB the contiguous arithmetic yields the PRPs and list of the general SG walk over the one extent (bounce buffer, length) |
| Prp.BouncePreservesMeaning | src/nvme/nvme_io.c:250-287 | The bounce path's PRPs always decode to the bounce buffer's bytes in order |
| Prp.ListReadBack | src/nvme/nvme_io.c:279-284 | Every list entry reads back from memory as the page address stored, with a zero high word |
| Prp.ListPageSuffices | src/nvme/nvme_admin.c:172-179 | A transfer within the 2 MiB cap never needs more entries than one list page holds, so the overflow branch is not reached |
| Prp.PoolSuffices | src/unit_task.c:1061-1063 | A well-formed SG list of a transfer within the cap fits the pre-allocated DMAEntry pool |
| Prp.DecodeFrame | src/nvme/nvme_io.c:279-286 | What the controller decodes depends on memory only through the list page, so other slots' stores cannot disturb it |
| PrpBuild.WalkExtent | src/nvme/nvme_io.c:405-434 | The inner scan of one extent stores the next pages of the transfer behind those already in the list, and overflows only when the list page is full with pages left over |
| PrpBuild.BuildDirect | src/nvme/nvme_io.c:387-460 | The nested loops leave PRP1, PRP2 and list memory as the page-boundary specification says, overflow included |
| PrpBuild.FillList | src/nvme/nvme_io.c:279-284 | The bounce loop stores one entry for each page of the buffer after the first, and nothing else |
| PrpBuild.BuildBounce | src/nvme/nvme_io.c:250-287 | One-, two- and many-page cases leave the PRPs and memory the bounce specification names |
| Rings.QueuePair.constructor | src/nvme/nvme_init.c:161-164 | Zeroed rings with expected phase 1 represent empty queues |
| Rings.QueuePair.Place | src/nvme/nvme_io.c:480-511 | An SQE placed at the shadow tail joins the end of the unpublished queue; none before it, published or not, is overwritten |
| Rings.QueuePair.Ring | src/nvme/nvme_io.c:129-135 | The doorbell hands the device everything placed so far, in order |
| Rings.QueuePair.Reap | src/nvme/nvme_io.c:712-728 | Looking at one phase bit takes the oldest unconsumed completion, and nothing exactly when there is none, across any number of wraps |
| Rings.QueuePair.Fetch | src/nvme/nvme_io.c:129-135 | Section 4.1: the device gets published SQEs first in first out, intact, up to the doorbell |
| Rings.QueuePair.Post | src/nvme/nvme_io.c:712-728 | Sections 4.1 and 4.6: a posted CQE joins the end of the completion queue unless it is full |
| Rings.QueuePair.PhaseTagAgreement | src/nvme/nvme_io.c:712-728 | In every state, walking the CQ from the host's head, the entries with the expected phase are exactly the posted and unconsumed ones, in posting order |
| Rings.QueuePair.CqFull | src/nvme/nvme_io.c:724-728 | The device's index test for a full CQ holds exactly with depth - 1 entries unconsumed |
| Commands.OffsetFaithful | src/nvme/nvme_io.c:156-163 | For all nine 64-bit and all other commands the byte offset used is the one asked for if and only if the high word is zero or the command is none of the three FORMAT64 |
| Commands.Format64IgnoresHighWord | src/nvme/nvme_io.c:156-163 | A FORMAT64 at 4 GiB is sent to offset 0 |
| Commands.SwitchExact | src/unit_task.c:595-700 | The switch of dispatch_ioreq sends the five reads to dispatch_rw as reads, the ten writes and formats as writes, the three flushes to the flush, and nothing else there |
| Commands.ValidateExact | src/nvme/nvme_io.c:168-196 | Accepted exactly: aligned, non-empty, with a buffer, at most 65536 blocks; then block numbers address exactly the request's bytes; otherwise a bad address exactly for a misaligned offset, and a bad length for the rest |
| Pipeline.EncodeRoundTrip | src/nvme/nvme_io.c:467-481 | The controller reads the LBA and block count back from CDW10 to CDW12, 65536 blocks included |
| Pipeline.FindFree | src/nvme/nvme_io.c:65-72 | The slot found is free and the first such; none means all are taken |
| Matching.StepMatched | src/nvme/nvme_io.c:463-465 | Each step but a timeout keeps exactly one command, with cid slot + 1, per occupied slot and none for a free one |
| Matching.MatchedAlways | src/nvme/nvme_io.c:463-465 | That matching holds over timeout-free runs of any length and interleaving |
| Matching.HarvestFindsItsRequest | src/nvme/nvme_io.c:730-737 | In every reachable state the head completion's slot is occupied, its cid is unique, and harvesting reports that slot's request and frees that slot alone; the unmatched-cid branch is dead |
| Matching.Occupancy | src/nvme/nvme_io.c:65-72 | At most sixteen commands are under way, at most fifteen with a slot free |
| Matching.RingsNeverFull | src/nvme/nvme_io.c:511 | With depth above sixteen, in every reachable state one more SQE fits unfetched ones and a finished command's completion fits the CQ |
| Matching.AcceptedDepthIsSafe | src/nvme/nvme_init.c:78-85 | Controllers are accepted exactly with more than sixteen entries, at a depth they support; on rings of that depth no run overwrites an unfetched SQE or holds a completion back |
| Matching.TimeoutBreaksMatching | src/unit_task.c:540-563 | Giving up on any occupied slot destroys the matching, which is why timeouts are excluded |
| Slack.MatchedLoad | src/nvme/nvme_io.c:463-465 | As long as no command has been lost the rings would hold exactly sixteen entries if every slot were taken |
| Slack.LoadLeavesRoom | src/nvme/nvme_io.c:511 | As long as that number is below the depth, a free slot means room in the SQ and a finished command room in the CQ |
| Slack.GiveUpLoad | src/unit_task.c:540-563 | Each command given up on costs one entry |
| Slack.HarvestOneLoad | src/nvme/nvme_io.c:730-735 | A completion that finds its slot leaves it as it is, a late one without a slot gives one entry back |
| Slack.RingsSurviveTimeouts | src/unit_task.c:540-563 | In every run in which fewer than depth - 16 commands are given up on, the SQ still never overflows and every completion finds room |
| EndToEnd.SubmittedDecodes | src/nvme/nvme_io.c:105-122 | After a successful submission the SQE's PRPs give the bounce buffer or the caller's bytes in order if and only if the transfer is at most 64 KiB or its buffer dword-aligned |
| EndToEnd.StepFits | src/nvme/nvme_io.c:142-514 | Each step keeps every command under way tied to its slot: PRPs decode to that slot's target, a write's payload is in place, a finished read's bytes are untouched |
| EndToEnd.StepFaithful | src/nvme/nvme_io.c:703-816 | Each step adds only faithful results |
| EndToEnd.RunFaithful | src/nvme/nvme_io.c:703-816 | Both survive runs of any length |
| EndToEnd.RangeAsRequested | src/nvme/nvme_io.c:156-163 | The range addressed is the range asked for if and only if the request is empty, its high word is zero, or it is no FORMAT64 |
| EndToEnd.EveryReplyFaithful | src/nvme/nvme_io.c:703-816 | In every timeout-free run a successful read command leaves in the caller's buffer the disk range it asked for as it was at execution, and a successful write or format stores exactly the caller's bytes in exactly the range it asked for, bounced or direct; the one exception to the range is a FORMAT64 with a high word |
| Completion.OneResultEach | src/nvme/nvme_io.c:703-816 | Over every timeout-free run, for each request: results added plus slots working for it equal slots at the start plus acceptances; so no request is lost, answered twice or answered in another's place, and given results stay |
| Completion.CanFinish | src/nvme/nvme_io.c:142-816 | No matched state is stuck: a run without new submissions frees every slot and adds, for each request, exactly as many results as it had slots; client memory that is nobody's target keeps its content |
| Completion.ServiceableSucceeds | src/nvme/nvme_io.c:142-816 | From every state a timeout-free run can reach, whatever is under way, any well-formed request within the cap, dword-aligned if too long to bounce, can be carried through to one replied, successful and faithful result after all others have had theirs |
| Completion.SomeStart | src/unit_task.c:924-1000 | A unit that meets every hypothesis on memory layout exists, with all invariants true at the start |
| Ledger.UnmapReleasesOwnPin | src/nvme/nvme_io.c:790-804 | EndDMA names the buffer, size and flags of the slot's own StartDMA, marker stripped, and removes only that pin; an array is freed only if it was allocated for this request |
| Ledger.StepBalanced | src/nvme/nvme_io.c:310-349 | Every step, submission errors and timeouts included, leaves exactly the pins and arrays of the occupied direct slots |
| Ledger.LedgerExact | src/unit_task.c:540-563 | In every state of every run, timeouts allowed, the live pins are those of direct slots, each will be ended with its own arguments, and with all slots free nothing is pinned or allocated |
| Ledger.PinDirection | src/nvme/nvme_io.c:310-311 | In every state of every run, timeouts allowed, the live pin of a direct slot, the one its EndDMA ends, has bit 3 (DMA_ReadFromRAM) set if and only if the slot's transfer is a write |
| Published.PinFollowsCommand | src/nvme/nvme_io.c:310-311 | In every timeout-free run a pending command has opcode 1 for a write or format and 2 for a read, as its request's command names it; the pin of a direct buffer says that the device reads it exactly for opcode 1, whose execution leaves memory alone, while that of opcode 2 leaves the disk alone |
| Pipeline.ControlCarries | src/nvme/nvme_io.c:630-646 | An accepted command without data is the newest SQE, every word as the caller built it except the command id, which is slot + 1 |
| Published.FlushCarries | src/nvme/nvme_io.c:533-582 | An accepted flush is opcode 0 with all other words zero, published at once under its slot's id |
| Published.CommandAsAsked | src/nvme/nvme_io.c:643-646 | In every timeout-free run the pending command of an occupied slot without data is, word for word but for the id, the one asked for by the step that took the slot |
| Waiting.AwaitSlotExact | src/unit_task.c:405-416 | wait_for_free_slot succeeds if and only if a completion is posted with two polls left |
| Waiting.AwaitSlotLateExact | src/nvme/nvme_io.c:615-627 | The wait in SubmitAndWait succeeds if and only if one is posted with one poll left |
| Waiting.BackPressureProgress | src/unit_task.c:400-417 | With all slots taken, a device that never sits on published work for n polls frees one that wait_for_free_slot sees within 33 n + 2 polls, by a decreasing measure over its three queues |
| Waiting.LateProgress | src/nvme/nvme_io.c:608-628 | The wait at the head of SubmitAndWait likewise finds a slot within 33 n + 1 polls |
| Waiting.AwaitDoneReports | src/nvme/nvme_io.c:668-684 | A wait for one slot that succeeds has added exactly one result for its request, that of the command in this slot; otherwise none and the slot is unchanged |
| Waiting.HarvestRun | src/nvme/nvme_io.c:703-816 | A whole Harvest is a timeout-free run of the step system |
| Waiting.ElapseRun | src/unit_task.c:412-414 | A yield, whatever happens in it, is such a run |
| Waiting.AwaitSlotRun | src/unit_task.c:400-417 | So is a wait for a slot: all that holds of runs holds after it |
| Waiting.AwaitDoneRun | src/unit_task.c:530-538 | So is a wait for one completion |
| Chunking.ChunksCoverBuffer | src/unit_task.c:470-483 | The chunks' buffers, end to end, are the whole buffer, and their payloads the whole payload |
| Chunking.ChunkLands | src/unit_task.c:476-481 | A chunk goes to its offset modulo what its command can carry |
| Chunking.ChunksCoverDisk | src/unit_task.c:476-481 | The chunks name the request's disk range, each byte once and in order, if and only if the last chunk starts below 2^64, or 2^32 for commands without a high word |
| Chunking.ChunkAccepted | src/unit_task.c:485 | With a cap that is a multiple of the block size no chunk of an aligned request is rejected |
| Chunking.ChunkedWriteIsOneWrite | src/unit_task.c:453-577 | Successful write chunks leave the whole payload in the named range if nobody else writes in that range between them, and change the disk as one command for the whole if nobody writes at all |
| Chunking.WritesStay | src/unit_task.c:453-577 | A byte once written by a chunk is still there after the last one, whatever other slots write outside the range |
| Chunking.ChunkedReadIsOneRead | src/unit_task.c:453-577 | Successful read chunks put into the buffer what one command for the whole would |
| Dispatch.OneChunkAdds | src/unit_task.c:485-566 | A submitted chunk adds exactly one unreplied result, its own, unless it times out; a refused or timed-out one adds none |
| Dispatch.ChunkLoopAdds | src/unit_task.c:453-577 | On every exit exactly a prefix of the chunks has completed, in order, each reported once and replied by nobody; all of them if and only if the loop succeeds; except after a timeout no command of the request is left |
| Dispatch.FastPathBusy | src/unit_task.c:439-450 | UNITBUSY exactly if all slots are taken and none frees in time; never with a device that moves every n polls, n up to 151515 for the five million polls of the code |
| Dispatch.ZeroCapMovesNothing | src/nvme/nvme_admin.c:172-179 | With a cap of zero the chunk loop ends at once with no error and an unchanged state |
| Dispatch.SubmitAndWaitReports | src/nvme/nvme_io.c:603-696 | The status returned is that of the caller's own command, of which exactly one unreplied result was added; without an answer none was |
| Dispatch.SubmitAndWaitPublishes | src/nvme/nvme_io.c:630-661 | The command it waits for is the newest published one, word for word the caller's, under the id of the slot it watches |
| Dispatch.RefusalsExact | src/nvme/nvme_io.c:142-452 | Which code and error stand for which refusal, each exactly when: no slot, misaligned offset, bad length or no buffer, buffer refused by StartDMA or without DMAEntry array, more pages than the list holds, nothing to do; all else is accepted |
| Dispatch.NoErrorMeansDone | src/unit_task.c:470-577 | With a cap the chunk loop leaves no error if and only if every chunk was done |
| ChunkEffects.LoopLeaves | src/unit_task.c:453-577 | The chunk loop changes no client memory but what it reads into, all results remain faithful, and unless it times out all data invariants hold again at its end |
| ChunkEffects.LoopFaithful | src/unit_task.c:453-577 | Each result the loop adds is faithful |
| ChunkEffects.ChunkedWrite | src/unit_task.c:453-577 | A loop run that succeeds leaves the caller's bytes in the named range, if the last chunk's offset fits and nobody else writes in that range meanwhile, while other slots may write elsewhere |
| ChunkEffects.ChunkedRead | src/unit_task.c:453-577 | A loop run that succeeds leaves the named disk range in the caller's buffer, if the last chunk's offset fits and the range does not change meanwhile |
| Answering.HarvestWaited | src/nvme/nvme_io.c:703-816 | A harvest, timeouts and late completions included, changes for no request the replies given plus the replies slots still owe |
| Answering.FastPathOwes | src/unit_task.c:439-450 | The fast path leaves one reply more to come from a slot for this request exactly if it was submitted, and none more or fewer for any other, whatever is harvested while it waits |
| Answering.ChunkLoopOwes | src/unit_task.c:470-569 | The chunk loop, on every exit, timeouts included, leaves the replies of all requests as they were: this one's is still its dispatcher's to give |
| Answering.SubmitAndWaitOwes | src/nvme/nvme_io.c:603-696 | So does a synchronous command |
| Drain.DispatchedOwes | src/unit_task.c:584-703 | dispatch_ioreq leaves a request's reply either to exactly one slot or to itself, and disturbs no other request's |
| Drain.DispatchedAsNamed | src/unit_task.c:584-703 | What a dispatch leaves in a slot works in the direction the request's command names, without data for a flush; commands that move data are never answered at once |
| Drain.FastPathAnswers | src/unit_task.c:439-450 | The dispatcher answers a transfer within the cap with UNITBUSY exactly if all slots are taken and none frees in time, and never a non-empty one without an error |
| Drain.GoodMeansDone | src/unit_task.c:428-578 | A non-empty transfer is answered by the dispatcher without an error if and only if it was chunked and every chunk was done |
| Drain.DrainPlaces | src/unit_task.c:838-845 | A drain leaves no more unpublished than it has placed, and no slot suppressed |
| Drain.DrainCosts | src/unit_task.c:838-845 | A drain places no more SQEs than its messages count: one for a flush, a command or a whole transfer, the length divided by the cap, rounded up, for a chunked one |
| Drain.DrainPublishes | src/unit_task.c:838-845 | A drain that starts with everything published ends so if and only if nothing was placed since the last doorbell or the total placed is not a multiple of the depth; always when the messages, counted beforehand as one SQE each or one per chunk, cannot reach the depth |
| Drain.BurstNeverBusy | src/unit_task.c:437-451 | A drain of any length, of transfers, chunked transfers, flushes and synchronous commands in any mix, never ends in UNITBUSY if the device moves every n polls, 33 n + 2 of them fit each wait, and nothing is lost; the cids stay matched |
| Drain.ChunkLoopNotBusy | src/unit_task.c:485-491 | Only the first chunk of a transfer can find the pipeline full, because the chunk before has freed its slot |
| Sessions.DispatchedGood | src/unit_task.c:584-703 | Every dispatch that does not time out, waits and chunks included, keeps all data invariants |
| Sessions.SessionFaithful | src/unit_task.c:709-901 | Over whole sessions of the event loop, polls and drains in any order, every result is faithful, in the direction its command names and on the range it asked for, as long as clients keep to their buffers and nothing times out |
| UnitTask.Unit.constructor | src/unit_task.c:907-1081 | A new unit is the initial state of the step system |
| UnitTask.Unit.FindFreeSlot | src/nvme/nvme_io.c:65-72 | The scan returns the first free slot, or -1 when all are taken |
| UnitTask.Unit.SubmitBounced | src/nvme/nvme_io.c:211-287 | Copy, PRPs, slot and SQE in place are the bounced submission of the step system |
| UnitTask.Unit.MapBuffer | src/nvme/nvme_io.c:310-341 | The buffer is pinned with exactly the arguments recorded, flags 8 for a write and 0 for a read, or, if DMA or array is refused, nothing is left pinned or allocated |
| UnitTask.Unit.CancelMapped | src/nvme/nvme_io.c:436-452 | After a list overflow pin, array and slot are as before the submission |
| UnitTask.Unit.SubmitMapped | src/nvme/nvme_io.c:288-461 | The direct path in place is the direct submission of the step system, on every error exit too |
| UnitTask.Unit.SubmitNoRing | src/nvme/nvme_io.c:142-514 | The whole function takes the unit to the specified state with the specified code, also after timeouts, as long as fewer than depth - 16 commands are lost |
| UnitTask.Unit.RingSQ | src/nvme/nvme_io.c:129-135 | Everything placed becomes visible to the device |
| UnitTask.Unit.Submit | src/nvme/nvme_io.c:524-531 | As SubmitNoRing, and on success everything is published |
| UnitTask.Unit.SubmitControl | src/nvme/nvme_io.c:630-660 | The caller's command takes the first free slot and is the newest SQE in every word but the id, which is slot + 1; or it is reported that there is no slot |
| UnitTask.Unit.Flush | src/nvme/nvme_io.c:533-582 | A flush is such a command, replied to by Harvest and published at once |
| UnitTask.Unit.Take | src/nvme/nvme_io.c:712-728 | The oldest completion leaves the CQ |
| UnitTask.Unit.Settle | src/nvme/nvme_io.c:737-815 | Copy-back only for a good bounced read, EndDMA with the recorded arguments, slot freed, result recorded, for the one slot named |
| UnitTask.Unit.Harvest | src/nvme/nvme_io.c:703-816 | All posted completions are dealt with, in posting order, and then none is left |
| UnitTask.Unit.EndDMA | src/nvme/nvme_io.c:797-798 | May only be called for a pin that is live, and removes that one |
| UnitTask.Unit.ReleaseDma | src/nvme/nvme_io.c:790-804 | Ends the pin its StartDMA opened; frees the array unless it is the pool's |
| UnitTask.Unit.Suppress | src/unit_task.c:523 | The reply for one slot is taken over by its dispatcher, all else unchanged |
| UnitTask.Unit.GiveUp | src/unit_task.c:540-563 | The slot is freed and its pin released; its command is not withdrawn |
| UnitTask.Unit.LetRun | src/unit_task.c:797-806 | The event loop's own yield, which does not look whether everything is published, is the specified turn of the controller and the clients |
| UnitTask.Unit.Yield | src/unit_task.c:412-414 | May only be called with every SQE published, so each poll of each bounded loop is proved to wait on published work; keeps it so |
| Task.WaitForFreeSlot | src/unit_task.c:400-417 | The poll loop rings and then does what the exact wait of Waiting says |
| Task.WaitForSlotLate | src/nvme/nvme_io.c:608-628 | Likewise, and it returns the first free slot |
| Task.WaitForSlot | src/unit_task.c:530-538 | The poll loop for one slot, with everything published throughout |
| Task.SubmitAndWait | src/nvme/nvme_io.c:603-696 | The synchronous command in place is the one of Dispatch.SubmitAndWaitPublishes, and its status the one Dispatch.SubmitAndWaitReports characterises |
| Task.FindSlotOf | src/unit_task.c:499-506 | The first slot that holds the request, or none |
| Task.SubmitPatiently | src/unit_task.c:485-491 | A full pipeline delays a chunk by one bounded wait and one retry |
| Task.FinishChunk | src/unit_task.c:514-566 | Suppress, wait, and on a timeout release slot and pin |
| Task.DispatchChunk | src/unit_task.c:475-566 | One pass of the loop is one chunk of the specification |
| Requests.IORequest.Aim | src/unit_task.c:475-483 | The rewritten fields name exactly the chunk at `done` |
| Task.RunChunks | src/unit_task.c:470-569 | The loop in place does to the unit what the specified loop does, and terminates, also with a cap of zero |
| Task.DispatchChunked | src/unit_task.c:453-577 | On every exit offset, data and length are restored, io_Actual is the whole length without an error and zero with one, there is none exactly if all chunks were done, and the request has been replied exactly once |
| Task.DispatchWhole | src/unit_task.c:437-451 | Replied here exactly if nothing was submitted, with the error that stopped it, UNITBUSY exactly for want of a slot |
| Task.DispatchRw | src/unit_task.c:428-578 | Either left to Harvest or replied once with the error that stopped it, with its fields restored, for transfers of any length |
| Task.FlushPatiently | src/unit_task.c:616-631 | A flush that finds the pipeline full waits once and is tried once more |
| Task.DispatchMessage | src/unit_task.c:584-703 | The switch on the command, in place, does what Drain.DispatchedAsNamed, Drain.DispatchedOwes, Drain.BurstNeverBusy and Sessions.DispatchedGood are about; a timeout costs one ring entry |
| Task.RingIfMoved | src/unit_task.c:838-845 | The comparison of tails modulo the depth rings exactly if no multiple of depth SQEs has been placed since the tail was noted |
| Task.DrainPort | src/unit_task.c:838-845 | The whole drain in place, from the noted tail over all messages to the comparison, is the one Drain.DrainPublishes is about |
| Task.WakeUp | src/unit_task.c:821-848 | Harvest, drain, harvest, as specified |
| Task.PollOnce | src/unit_task.c:797-806 | One poll of the event loop yields and harvests, with whatever is unpublished left so |
| Task.Session | src/unit_task.c:709-901 | Over any sequence of polls and drains on the in-place unit, with the waits, chunks and synchronous commands of dispatch_ioreq, every result handed back is faithful |
| Counterexamples.StalledDrain | src/unit_task.c:838-845 | 64 one-block reads drained on a fresh unit of depth 64, all accepted: tails agree, no doorbell, and sixteen commands sit unpublished in sixteen occupied slots |
| Counterexamples.ChunkWrapsAround | src/unit_task.c:476-481 | A CMD_READ of 3 MiB from 1 MiB below 4 GiB into a good buffer: the loop runs, both chunks succeed, and the last mebibyte of the buffer holds the disk from 1 MiB on instead of 4 GiB + 1 MiB |
| Counterexamples.OffDwordFails | src/nvme/nvme_io.c:105-122 | A read of 128 KiB into a client's buffer two bytes off a dword is accepted and submitted, and the controller can only fail it |
| Counterexamples.LateCompletionMisleads | src/nvme/nvme_io.c:686-695 | A SubmitAndWait gives up, a read takes its slot, the late completion arrives: the read is replied as successful although its command was never published, and its buffer does not hold the disk range |
| Ownership.UnitOwner.BeginIO | src/BeginIO.c:67-286 | Queued at the end of the port, held (the one held before replied as aborted, for either kind of notification), or completed before return with the error of its case, unknown commands with NOCMD; a read, write, format or flush is queued or refused with OPENFAIL, never completed here without an error; each request issued is counted in exactly one place; IOF_QUICK decides between message and direct return |
| Ownership.QueuedIsHandled | src/BeginIO.c:227-256 | BeginIO queues exactly the commands that dispatch_ioreq handles |
| Ownership.UnitOwner.BeginNotification | src/BeginIO.c:83-124 | At most one of each kind held, the displaced one replied as aborted, and TD_REMCHANGEINT lets the held one go without an error before it is answered itself |
| Ownership.UnitOwner.AbortIO | src/BeginIO.c:288-316 | Succeeds exactly for a request still on an open port, which leaves the port once and is replied as aborted; otherwise nothing changes |
| Ownership.UnitOwner.Unlink | src/BeginIO.c:300-310 | One message leaves the middle of the port and is replied, the others keep their order |
| Ownership.UnitOwner.Harvest | src/nvme/nvme_io.c:703-816 | Whenever it comes, also while a request is being dispatched and also with late completions, a harvest replies only to requests whose slots owed it, and conservation holds |
| Ownership.UnitOwner.Submit | src/unit_task.c:440-446 | Once accepted, the request in hand is its slot's and no longer the dispatcher's; otherwise it still is |
| Ownership.UnitOwner.StartChunk | src/unit_task.c:485-523 | A chunk takes a slot and its reply is taken over: the request stays with its dispatcher, counted once |
| Ownership.UnitOwner.StartCommand | src/nvme/nvme_io.c:630-661 | Likewise for a synchronous command |
| Ownership.UnitOwner.GiveUp | src/unit_task.c:540-563 | A suppressed slot freed by a timeout costs no request its reply and gives none twice |
| Ownership.UnitOwner.Reply | src/unit_task.c:571-577 | A request in hand is replied once, and not while a slot still works for its dispatcher |
| Ownership.UnitOwner.AwaitSlot | src/unit_task.c:400-417 | wait_for_free_slot with a request in hand, while harvests reply to others and clients issue, abort and close in each yield: conservation holds and the request stays in hand |
| Ownership.UnitOwner.DispatchWhole | src/unit_task.c:437-451 | The fast path with all that may happen in its wait: the request ends in a slot, or is replied once with the error that stopped it |
| Ownership.UnitOwner.FinishCommand | src/unit_task.c:525-563 | The wait for a chunk or synchronous command with all that may happen in it: in the end its slot is free, answered or given up, and the request is still in hand, unreplied |
| Ownership.UnitOwner.Dispatch | src/unit_task.c:584-703 | Whatever becomes of it in dispatch_ioreq, waits and timeouts included, the request ends in one slot of the unit that works in the direction its command names, or is replied once with its error: aborted after a chunk timed out, a bad status after a command failed or was lost |
| Ownership.UnitOwner.Close | src/Close.c:30-48 | The last close, also with a request in hand, lets both held requests go without an error and asks the unit task to stop; any other close changes only the count |
| Ownership.UnitOwner.TaskExit | src/unit_task.c:868-873 | Everything still on the port is replied once as aborted, in order; with nothing held, everything ever issued has then been completed if and only if no slot was occupied |
| Ownership.UnitOwner.LastClose | src/Close.c:33-45 | After the last close of an idle task nothing is held or queued, and everything ever issued has been completed if and only if no slot was occupied |
| Ownership.UnitOwner.ExactlyOnePlace | src/BeginIO.c:67-286 | A request issued once is on the port, in a slot of the unit, in hand or held, or completed: exactly one of these, once |
| Ownership.UnitOwner.Session | src/unit_task.c:709-901 | Conservation holds over every interleaving of BeginIO, AbortIO and Close with single steps of the unit task (GetMsg, submissions, doorbells, harvests, chunks, commands, timeouts, replies, exit) and of the controller, also while a request is in hand; slots and results are the unit's own, and each issue is counted |
| Admin.AdminQueue.AdminCmd | src/nvme/nvme_admin.c:47-122 | From an idle queue the call returns the controller's answer to this command or times out; in every other state it returns the oldest answer there is, or the first there will be, and says what is left behind |
| Admin.AdminQueue.SerialState | src/nvme/nvme_admin.c:64-104 | After n serial commands tail and head are n mod 64, the phase is 1 exactly when n / 64 is even, and command ids have wrapped at 2^16, for all n |
| Admin.AdminQueue.RunAll | src/nvme/nvme_admin.c:47-122 | A run of commands of any length, each with its own dwords, schedule and controller behaviour, is a run of synchronous calls: call i returns the status posted during it for its own command, also beyond the wrap of the 16-bit id |
| Admin.AdminQueue.RunBehind | src/nvme/nvme_admin.c:89-121 | After timeouts have left n commands behind, each later answered call returns the answer to the command n before its own, its predecessor after one timeout, also when answers are posted between calls |
| Admin.StaleStatus | src/nvme/nvme_admin.c:89-121 | Two calls of which the second returns the first one's answer |
| Admin.CapWraps | src/nvme/nvme_admin.c:172-179 | The cap is zero exactly when mdts plus the page shift reaches 32; otherwise it is what MDTS allows, at most 2 MiB, exactly 2 MiB for MDTS 0, and no less than a page of up to that size |
| Unmap.Translate | src/scsi_cmds/scsi_unmap.c:168-182 | One descriptor becomes one range with the same LBA and count and no attributes; all other bytes stay |
| Unmap.ImageReads | src/scsi_cmds/scsi_unmap.c:40-44 | Four little-endian stores are read back by the controller as the range |
| Unmap.TranslateAll | src/scsi_cmds/scsi_unmap.c:168-182 | The controller's reading of the buffer is the sequence of ranges the descriptors name; nothing is written behind them |
| Unmap.ParameterListRoundTrip | src/scsi_cmds/scsi_unmap.c:117-173 | Any list of ranges, laid out byte by byte as a big-endian parameter list, is read back as announced and range for range |
| Unmap.Prepare | src/scsi_cmds/scsi_unmap.c:67-194 | A command is issued exactly for a well-formed list of 1 to 256 descriptors; for the layout of any such list of ranges the controller will read exactly these ranges from the buffer, with nothing written past 4096 bytes; an empty list is good, anything else refused with its sense code and an untouched buffer |
| Trim.HandleUnmap | src/scsi_cmds/scsi_unmap.c:67-209 | Whatever ranges the caller laid out, the newest published command is a deallocating Dataset Management at the buffer that holds exactly these ranges, and the SCSI status after it is good exactly if it succeeded |
| ModePages.FillPage | src/scsi_cmds/scsi_mode.c:36-46 | The caching page, or the part there is room for, and no byte outside it |
| ModePages.ModeSense | src/scsi_cmds/scsi_mode.c:66-154 | The response reports the current setting with a consistent length, truncated to the allocation, for both CDB sizes; all refusals |
| ModePages.WalkFindsLast | src/scsi_cmds/scsi_mode.c:216-246 | Over any list of pages the walk yields the last caching page's setting |
| ModePages.WalkParses | src/scsi_cmds/scsi_mode.c:216-246 | Where the walk succeeds the bytes are a list of pages, so it overruns exactly on lists that are not |
| ModePages.WalkPages | src/scsi_cmds/scsi_mode.c:216-246 | The while loop terminates and finds what the walk does |
| ModePages.ModeSelect | src/scsi_cmds/scsi_mode.c:168-266 | Set Features is issued exactly for a well-formed list that would change an existing cache, and the setting changes exactly if it succeeds |
| ModePages.SenseThenSelect | src/scsi_cmds/scsi_mode.c:91-153 | SENSE, and its untruncated response fed to SELECT, ends with good status, no command issued and nothing changed, for both CDB sizes, with or without a cache |
| ModePages.ResponseParses | src/scsi_cmds/scsi_mode.c:216-246 | A response parses as one caching page with the setting it reports |
| ModePages.ResponseHeader | src/scsi_cmds/scsi_mode.c:133-148 | The mode data length counts exactly the bytes after itself, and no block descriptors are announced |
| ModePages.SelectListParses | src/scsi_cmds/scsi_mode.c:199-246 | In a list with block descriptors of any length the header can announce, SELECT skips them and finds the setting of the last caching page |
| ModePages.SelectThenSense | src/scsi_cmds/scsi_mode.c:216-260 | SENSE after an accepted SELECT reports its setting if and only if that was the setting already or there is a cache and Set Features succeeded |
| Unwind.Controller.InitNVMe | src/nvme/nvme_init.c:110-279 | Succeeds exactly if no step fails; a failure at any step restores every leak counter and holds nothing |
| Unwind.Controller.CleanupNVMe | src/nvme/nvme_init.c:279-339 | Undoes a successful init exactly, and nothing otherwise |
| Unwind.ManyControllers | src/nvme/nvme_init.c:110-339 | Any number of starts and cleanups, whatever fails, leaves all counters as they were |
| Unwind.UnitResources.MapSlots | src/unit_task.c:924-1000 | Sixteen pairs of buffers mapped, or the counters still say exactly what is held |
| Unwind.UnitResources.Start | src/unit_task.c:907-1165 | Succeeds exactly if all mandatory steps do, then holding all pairs and whichever of range buffer and pool arrays could be had; a failure restores every counter, except a failed task, which keeps at least 32 buffers |
| Unwind.UnitResources.ReleaseAll | src/unit_task.c:1128-1164 | Whatever subset of buffers is held, it is given back exactly |
| Unwind.UnitResources.Shutdown | src/unit_task.c:1167-1254 | With the signal handshake every counter returns to where it was before the start |
| Unwind.ManyUnits | src/unit_task.c:907-1254 | Any number of start and shutdown cycles leaves all counters as they were |

## Left out

- ChunkEffects.ChunkedWrite: nobody else may write in the named range between the chunks, because the code does not exclude it.
- ChunkEffects.ChunkedRead: likewise the named range must not change between the chunks.
- Prp.BounceRefinesWalk: memory is compared only when PRP2 points at the list; for two pages the walk also stores the one entry, which no one reads.
- Task.Session: ends with the first poll timeout, after which the controller may still write to a buffer that has been handed back.
- Task.DispatchMessage: a SCSI command is at most one command through SubmitAndWait; what its handler makes of the answer is not modelled except for UNMAP and the mode pages.
- Ownership.UnitOwner.TaskExit: what a controller does with commands still in slots after the last close.
- Ownership.UnitOwner.Session: which step comes next is open, so it covers what the code does and more; the orders of the code itself, with clients acting in its yields, are Ownership.UnitOwner.DispatchWhole and FinishCommand.
- Unwind.UnitResources.Shutdown: without an acknowledge signal the code only spins for the unit task; that exit is modelled as keeping what it holds.
- Admin.CapWraps: MDTS of 32 and more, where the shift itself is undefined.
- Trim.HandleUnmap: the range list stands in an array of its own, not in the memory the controller of the step system reads, so what a Dataset Management does to the disk is left open there.
- Status codes: a completion is a success or an error; which io_Error an NVMe status maps to is a table.
- MMIO, doorbell addresses, cache attributes, PCI discovery, the interrupt handler and INTMS/INTMC masking: the unit task polls, and doorbells are variables the device reads.
- exec's ports, signals, Forbid and Permit: a port is a queue, a yield is a turn for everybody else.
- The watchdog and yield inside the admin poll; the SQ head pointer in completions, which the driver does not read.
- The contents of CreateIOCQ and CreateIOSQ beyond the queue size, and ready_poll_budget.
- The other SCSI handlers, INQUIRY, READ CAPACITY, LOG SENSE, SMART, geometry, statistics and latency counters: field copies.
- UNMAP's list length in the CDB is only compared with zero, as in the code, which trusts scsi_Length.
- Open, Expunge, mounter announcements, debug output, the installer and the test programs.
