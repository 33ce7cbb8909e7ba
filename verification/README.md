# A verified model of the seL4 virtio message channel

The program connects a virtual machine monitor (the driver) with a device backend through shared
memory: lock-free rings of message ids, a table of 32 message buffers lent by a bitmap, and slots
that hold the continuation of every request in flight. This project models that machinery in Dafny
and proves what it keeps in every interleaving and over every run.

How the pieces fit:

- `Ring` is the queue of `include/sel4/rpc_queue.h` as a step machine. Each atomic load, each test
  of a shared field, each compare-and-swap and each word copied to or from a buffer is one step of one
  thread; an execution is any sequence of such steps by any number of threads. Positions are
  unbounded there. `RingSafety` and `RingData` hold the inductive invariant, `RingTheorems` what it
  means for every reachable state, `RingAcquire` how a thread gets an entry beside others and what it
  leaves there, and `RingSolo` what one thread alone sees (a bounded FIFO).
- `Ring32` is the same machine on the program's 32-bit fields. A wrapped comparison can err when a
  tail is old, and `RingLoose` is the unbounded machine with exactly those errors: it keeps the
  invariant and the history of `Ring`, and every 32-bit run is the image of one of its runs.
  `Ring32Limit` builds a run in which an error happens.
- `RingUse` and `Pipeline*` put three rings, 32 buffers and 32 slots together into the
  request-reply protocol between driver, kernel module and device. `PipelineLife` says where a message
  can go, `PipelineData` what it contains, and `PipelineServes` builds runs that serve a request.
  `PipelineCode` shows that start, write and finish are those of the code below, and `PipelineRings32`
  that the rings are 32-bit rings.
- `RpcQueue`, `Bitmap`, `Rpc`, `IoProxy`, `Irq` and `Glue` are the program's code as it is written:
  classes with the program's fields, arrays and loops, each method proved against a function of the
  old state. `GlueTheorems`, `GlueResults`, `NativeThreads` and the second half of `Irq` prove what those
  functions add up to over batches and whole runs.
- `Packing`, `Bits`, `Finite` and `Options` hold the bit fields of `mr0` and the arithmetic beneath.

Assumptions: memory is sequentially consistent; compare-and-swap is the user-space one, which is
strong and refreshes the expected value (`include/sel4/rpc_queue.h:30`); a semaphore post wakes
its waiter; `vm_set_irq_level` succeeds; the virtual PCI bus gives every device its own slot; the
kernel module and the device write only messages they have received and not yet passed on, and answer
each request once.

Where the code and its description part, the model follows the code:

- When every tail is used within 2^32 reservations of its load, wrap-around harms neither exclusion nor
  delivery (`Ring32.Exclusion32`, `Delivery32`, `Once32`), but two tests can err. The wait for the
  head/tail distance lets a thread pass exactly when the head has come within h of the tail it loaded
  plus 2^32 (`Ring32.WrongWait`), and a refusal is wrong exactly when the limit has reached it
  (`Ring32.OnlyRefusalsWrong`); `Ring32Limit.WrongRefusalHappens` reaches a state with a producer told
  "full" while 27 of 32 entries are in use. Within 2^32 - n reservations no test errs
  (`Ring32.StrictAgrees`).
- `rpc_run` can return 0 although a response failed, and then keeps its buffer lent:
  `GlueResults.HiddenFailure` says for which messages, and `GlueResults.ErrorHidden` gives some.
- The assertion `slot <= ARRAY_SIZE` in `ioreq_finish` lets slot 32 through, past the end of the array:
  `IoProxy.AssertionGap` gives such a message and `IoProxy.AssertionProtects` says which messages they
  are. Runs of the protocol never get there (`PipelineCode.FinishIsCode`).

## Model

| member | source | states |
|---|---|---|
| RingTheorems.Ordering | include/sel4/rpc_queue.h:217-296 | in every reachable state of any number of threads: consumer head <= consumer tail <= producer head <= producer tail <= consumer head + n, and each tail at most h + 1 past its head, although test and swap are separate steps and the loaded tail may be stale |
| RingTheorems.Exclusion | include/sel4/rpc_queue.h:298-342 | no two threads in flight, on either side, ever use the same ring entry |
| RingTheorems.HistoryStep | include/sel4/rpc_queue.h:298-342 | a step changes no result; it adds one only when a consumer commits a position nobody committed before, with the item reserved there |
| RingTheorems.HistoryFixed | include/sel4/rpc_queue.h:298-342 | over any run, what a position carries and what was read from it never change |
| RingTheorems.ExactlyOnceFifo | include/sel4/rpc_queue.h:298-342 | the k-th reservation of a consumer reads exactly what the k-th reservation of a producer wrote, published entries stay intact until the consumers pass them, and the results below the consumer head are complete: no loss, duplicate or overwrite, though commits come out of order |
| RingTheorems.HoldersCount | include/sel4/rpc_queue.h:276-296 | the threads in flight on a side number tail.count - head.count |
| RingTheorems.CommitAggregation | include/sel4/rpc_queue.h:276-296 | head.count is the number of commits, everything below head.pos is committed, and with nobody in flight head equals tail, so the last commit always publishes |
| RingTheorems.CommitWindow | include/sel4/rpc_queue.h:207-215 | while a thread holds position p, head.pos <= p and tail.pos <= p + h + 1, and the copy of the head it holds is at most 2h commits old, less its failures |
| RingTheorems.CommitFailures | include/sel4/rpc_queue.h:276-296 | the swap of a commit fails at most 2h = 16 times |
| RingTheorems.CommitWaitFree | include/sel4/rpc_queue.h:276-296 | a thread that takes 4h + 3 steps of its commit finishes it, whatever the others do |
| RingTheorems.RefusalTruthful | include/sel4/rpc_queue.h:224-239 | whatever step refuses a thread, in whatever phase it was and however old its copy of the tail, "full" and "empty" are true of the queue at that moment |
| RingAcquire.AcquireOutcome | include/sel4/rpc_queue.h:217-274 | a step of a thread that asks for an entry has one of three outcomes: it still asks for the same and nothing shared has changed; it is refused and nothing else has changed, with the queue exhausted; or it has the next entry, the queue was not exhausted, and only its side's tail and the log have changed |
| RingAcquire.LostSwap | include/sel4/rpc_queue.h:224-243 | on both sides a thread that loses the swap of the tail asks again with the new tail, and it loses only because the tail has moved on |
| RingAcquire.AcquireAlone | include/sel4/rpc_queue.h:217-274 | from every reachable state, whatever the others are doing, a thread that asks while its side is within the head/tail distance and then runs alone has the next entry, or is refused by an exhausted queue, after at most six steps |
| RingAcquire.SentAsGiven | include/sel4/rpc_queue.h:380-415 | from the call of an enqueue to its reservation, with any steps of others in between, the log gains exactly the words that were handed to the call, with the id given or, for an event, the index of the entry |
| RingTheorems.ReportsTruthful | include/sel4/rpc_queue.h:162-176 | when rpcmsg_queue_full or rpcmsg_queue_empty reports true, no swap of a tail on that side can succeed |
| RingTheorems.ReportsExact | include/sel4/rpc_queue.h:162-176 | in every reachable state "full" is reported exactly when the queue is exhausted for producers and no consumer is in flight, and "empty" exactly when it is exhausted for consumers and none is in flight |
| RingSafety.PublishBound | include/sel4/rpc_queue.h:288-295 | the value a commit installs is right: if the counts meet, everything below the tail it read is committed; if everything reserved is committed, the counts meet |
| RingSafety.ProtocolStep | include/sel4/rpc_queue.h:207-296 | every step of every thread keeps the invariant on markers, holders and local copies |
| RingData.InvStep | include/sel4/rpc_queue.h:298-342 | every step keeps the invariant on the contents of ring and buffer as well |
| RingData.InvExec | include/sel4/rpc_queue.h:298-342 | so does every interleaving |
| RingSolo.SoloEnqueue | include/sel4/rpc_queue.h:298-319 | with nothing else in flight, an enqueue on a queue not reported full ends with exactly one more waiting item: the words it was given, with the id given or, for an event, the index of the entry |
| RingSolo.SoloEnqueueFull | include/sel4/rpc_queue.h:162-168 | with nothing in flight, "full" is reported exactly when n items wait, and then the enqueue is refused |
| RingSolo.SoloDequeue | include/sel4/rpc_queue.h:321-342 | with nothing else in flight, a dequeue on a queue not reported empty takes the oldest item |
| RingSolo.SoloDequeueEmpty | include/sel4/rpc_queue.h:170-176 | with nothing in flight, "empty" is reported exactly when nothing waits, and then the dequeue is refused |
| Ring32.InstancesFit | include/sel4/rpc_queue.h:102-108 | 32 entries and a distance of 8 meet what the 32-bit refinement needs |
| Ring32.NearAgrees | include/sel4/rpc_queue.h:211 | below 2^32 reservations since the load, the wrapped head/tail distance test equals the unbounded one, or the head has come within h of the copy plus 2^32 |
| Ring32.WrongWait | include/sel4/rpc_queue.h:207-215 | below 2^32 reservations the wrapped distance test errs if and only if copy + 2^32 <= head + h, and then it lets the thread pass |
| Ring32.BlockedAgrees | include/sel4/rpc_queue.h:231-264 | below 2^32 reservations the wrapped tests for a free or filled entry equal the unbounded ones, or the limit equals the copy plus 2^32 |
| Ring32.TailAgrees | include/sel4/rpc_queue.h:239 | below 2^32 reservations the 64-bit swap of a wrapped tail succeeds only on the very tail that was loaded |
| Ring32.SwapAnyAge | include/sel4/rpc_queue.h:239 | at any age it succeeds if and only if the tail has moved by a multiple of 2^32 |
| Ring32.HeadAgrees | include/sel4/rpc_queue.h:288-295 | the swap of the head suffers no ABA and installs the wrapped unbounded head, with no assumption on how long the thread took |
| Ring32.IndexAgrees | include/sel4/rpc_queue.h:315 | masking a wrapped position gives the position modulo n |
| RingLoose.LooseKeeps | include/sel4/rpc_queue.h:207-342 | the two errors that wrapped tests can make keep the invariant, with every other step |
| RingLoose.LooseHistory | include/sel4/rpc_queue.h:298-342 | with those errors too, over any run, what a position carries and what was read from it never change |
| Ring32.StepAgrees | include/sel4/rpc_queue.h:207-342 | below 2^32 reservations every step of the 32-bit machine is a step of the unbounded one with those two errors |
| Ring32.RunAgrees | include/sel4/rpc_queue.h:207-342 | so is every run, through any number of wraps, whose loaded tails are used within 2^32 reservations |
| Ring32.StrictAgrees | include/sel4/rpc_queue.h:207-342 | within 2^32 - n reservations no test errs: the run is one of the exact unbounded machine |
| Ring32.FromZero | include/sel4/rpc_queue.h:152-160 | from zeroed memory the 32-bit run stays the image of an unbounded run that meets the invariant |
| Ring32.Ordering32 | include/sel4/rpc_queue.h:207-274 | the wrapped distances between the markers of the program add up to at most n, and each tail is at most h + 1 past its head |
| Ring32.Exclusion32 | include/sel4/rpc_queue.h:315-338 | in every such 32-bit run no two threads in flight use the same masked index |
| Ring32.Delivery32 | include/sel4/rpc_queue.h:321-342 | in every such 32-bit run a completed dequeue returns what was sent at its own position, which its 32-bit entry names up to wrap-around |
| Ring32.Once32 | include/sel4/rpc_queue.h:321-342 | every dequeue that completes in a 32-bit run delivers a position not delivered before, and what it delivered stays recorded to the end of the run |
| Ring32.ReportsAgree | include/sel4/rpc_queue.h:162-176 | the wrapped full and empty reports equal the unbounded ones |
| Ring32.WrongRefusal | include/sel4/rpc_queue.h:231-264 | below 2^32 reservations a refusal is wrong if and only if the limit has gained exactly 2^32 on the loaded tail |
| Ring32.OnlyRefusalsWrong | include/sel4/rpc_queue.h:217-274 | in every 32-bit run from zeroed memory a thread that gets an entry gets the next one and there was one to get; a step from any phase refuses a thread wrongly if and only if it is the test of a limit that has gained exactly 2^32 on the loaded tail |
| Ring32.Acquire32 | include/sel4/rpc_queue.h:217-274 | a 32-bit step of a thread that asks for an entry leaves everything shared alone and goes on asking or is refused, or gets the entry at the tail with the words it was given; a lost swap asks again with the new tail |
| Ring32.SentAsGiven32 | include/sel4/rpc_queue.h:298-319 | in every 32-bit run from zeroed memory a reservation of a producer appends to the log the words the producer asks with, and the id it asks with or, for an event, the index |
| Ring32.Given32 | include/sel4/rpc_queue.h:298-319 | from the call of an enqueue on, whatever others do, a thread that still asks for its entry asks with what it was given |
| Ring32Limit.WrongRefusalHappens | include/sel4/rpc_queue.h:224-235 | such a state is reached: a producer is refused with 27 of 32 entries used |
| RingUse.ReleaseInOrder | include/sel4/rpc_queue.h:276-296 | a single consumer publishes exactly its own position |
| RingUse.HandOut | include/sel4/rpc_queue.h:321-342 | the commit of a single consumer hands out the oldest item |
| RingUse.RoomLeft | include/sel4/rpc_queue.h:229-235 | a ring whose waiting entries carry distinct ids below n, none of them the one being sent, has room |
| PipelineTheorems.ExactlyOnePlace | include/sel4/rpc_queue.h:442-463 | in every reachable state each id is free, with one holder, with one sending thread or in one entry of one queue, and the bitmap is exactly the ids that are not free |
| PipelineTheorems.OnlyLentIds | include/sel4/rpc_queue.h:527-539 | queues carry only lent ids |
| PipelineTheorems.ContentsIntact | include/sel4/rpc_queue.h:457-460 | a message that is queued holds what it held when it was handed over, and what was recorded of a response is in its message (`PipelineData.DataOfLastWrite` says what that is) |
| PipelineTheorems.WrittenByHolder | include/sel4/rpc_queue.h:457-460 | a start writes only a buffer that was not lent, no queue operation writes a message, and other writes are those of whoever received it, as assumed |
| PipelineTheorems.TransitUnchanged | include/sel4/rpc_queue.h:457-460 | over any run, a message stays unchanged while its id is in transit |
| PipelineData.DataOfLastWrite | include/sel4/rpc.h:271-294 | in every run, counted on its events alone: a lent message is its request as it was started with the data last written to it by the kernel module or the device, and the continuation of a completed request got that data, or the request's own when nothing was written |
| PipelineLife.LifeCycle | include/sel4/rpc_queue.h:442-463 | in every reachable state an event moves an id only along its life: free to driver, holder to a queue on its route, queue to the receiver of that queue, and processor to free; these are all its moves |
| PipelineServes.Served | include/sel4/rpc_queue.h:497-631 | from rest, for every request on a slot and every answer, some run serves it through the kernel module or the device, calls its continuation with that answer, and comes to rest again |
| PipelineServes.StartsAtRest | include/sel4/rpc_queue.h:152-160 | the pipeline starts at rest |
| PipelineRings32.RingsIn32 | include/sel4/rpc_queue.h:497-631 | beside every pipeline run whose tails are used within 2^32 - 32 reservations, three rings on 32-bit fields make the same steps |
| PipelineTheorems.BufferFound | include/sel4/rpc_queue.h:497-513 | a request made on a free slot finds a free buffer, because 32 slots bound 32 ids |
| PipelineTheorems.NeverFull | include/sel4/rpc_queue.h:541-631 | with one consumer per queue no request, forward or reply finds its ring full |
| PipelineTheorems.NoFailure | src/io_proxy.c:50-63 | no NULL message is written, and every response finds its handler and a stored continuation |
| PipelineTheorems.SlotServed | src/io_proxy.c:28-63 | a slot is busy if and only if a lent message names it, and then exactly one does |
| PipelineTheorems.CalledExactlyOnce | src/io_proxy.c:28-63 | a started request still waits in its slot and was never called, or was called exactly once with the answer sent back for it |
| PipelineTheorems.ResponseFindsRequest | src/io_proxy.c:175-187 | processing a response calls the continuation of the very request it answers and frees its buffer |
| PipelineTheorems.NothingLost | src/libsel4vm_glue.c:341-348 | when no buffer is lent, every request has had its one call |
| PipelineCode.StartIsCode | src/io_proxy.c:28-48 | the pipeline's start is the code's: on a free slot of a reachable state ioreq_start lends and fills the same buffer, queues its id and marks the same slot busy |
| PipelineCode.FinishIsCode | src/libsel4vm_glue.c:341-348 | so is its finish: a response in hand meets the assertions of the code, which succeeds, calls the stored continuation with the data the pipeline records, and frees the same slot and buffer |
| PipelineCode.WriteIsCode | include/sel4/rpc.h:289-294 | and so is its answer: writing a message in hand changes the third word of that message to the answer, as driver_rpc_ack_mmio_finish does, and nothing else |
| PipelineSafety.Pigeonhole | include/tii/io_proxy.h:28-50 | distinct ids serve distinct slots, so a free slot leaves a free id |
| PipelineSafety.NextKeeps | include/sel4/rpc_queue.h:497-631 | every event of the protocol keeps its invariant |
| RpcQueue.Bound.TailWait | include/sel4/rpc_queue.h:207-215 | the wait loop ends, and replaces a copy that is too far from the head by the tail |
| RpcQueue.Bound.CommitUpdate | include/sel4/rpc_queue.h:276-296 | the only reservation in flight is published at the first attempt |
| RpcQueue.Queue.AcquireProdEntry | include/sel4/rpc_queue.h:217-244 | returns the next producer position and reserves it, or -1 exactly when 32 ids are queued |
| RpcQueue.Queue.AcquireConsEntry | include/sel4/rpc_queue.h:246-274 | returns the next consumer position and reserves it, or -1 exactly when none is |
| RpcQueue.Queue.Enqueue | include/sel4/rpc_queue.h:298-319 | appends to the contents, or returns -1 and changes nothing when they are full, with 32-bit positions that wrap |
| RpcQueue.Queue.Dequeue | include/sel4/rpc_queue.h:321-342 | takes the oldest of the contents, or returns -1 and changes nothing when there is none |
| RpcQueue.Queue.Reports | include/sel4/rpc_queue.h:162-176 | with nothing in flight, full and empty are exact |
| RpcQueue.EventQueue.Tx | include/sel4/rpc_queue.h:380-415 | an accepted event is appended with its four words |
| RpcQueue.EventQueue.Rx | include/sel4/rpc_queue.h:417-440 | the oldest event is returned with its four words unchanged |
| Bitmap.FindFirstZero | include/sel4/rpc_queue.h:52-67 | for any size and number of words: the least index below size that is clear, or size |
| Bitmap.SetBit | include/sel4/rpc_queue.h:73-82 | sets just that bit |
| Bitmap.ClearBit | include/sel4/rpc_queue.h:88-97 | clears just that bit |
| Bitmap.FirstZeroInWord | include/sel4/rpc_queue.h:59-65 | what the first word that is not full says about the whole bitmap |
| Bitmap.AllLent | include/sel4/rpc_queue.h:502-509 | no id is found exactly when all 32 are lent |
| Bitmap.BufferState.Lend | include/sel4/rpc_queue.h:497-513 | lends the lowest free id, and finds none exactly when 32 are lent |
| Bitmap.BufferState.Reclaim | include/sel4/rpc_queue.h:515-525 | takes back just that id |
| Packing.GetSetSame | include/sel4/rpc.h:67-73 | reading a field just set gives the value, cut to the width of the field |
| Packing.GetSetOther | include/sel4/rpc.h:67-73 | setting a field leaves every disjoint field alone |
| Packing.SetCommutes | include/sel4/rpc.h:67-73 | fields may be set in any order |
| Packing.MmioFields | include/sel4/rpc.h:271-287 | every field of a request reads back as given, cut to its width |
| Packing.MmioRoundTrip | include/sel4/rpc.h:271-287 | and unchanged when it is in range |
| Packing.FieldPlaces | include/sel4/rpc.h:75-111 | where each field of mr0 is: op, slot, direction, address space and length, from bit 0, 6, 12, 13 and 21 |
| Packing.MmioNumber | include/sel4/rpc.h:271-287 | a request in range is the number 64 slot + 4096 direction + 8192 space + 2097152 length |
| Packing.PciSpaceDistinct | include/sel4/rpc.h:107-108 | the address space of a PCI device is never AS_GLOBAL, which is 255 |
| Packing.PciSlotOf | include/tii/pci.h:11-12 | PCI_SLOT undoes PCI_DEVFN up to five bits: slot % 32 comes back |
| Packing.PciNumbers | include/tii/pci.h:11-12 | PCI_DEVFN of a slot is eight times it modulo 32, and PCI_SLOT is the number divided by eight, modulo 32 |
| Rpc.OpArrives | include/sel4/rpc.h:221-227 | the op that selects the handler is the op that was sent, cut to six bits; the other bits of mr0 and the other three words arrive as given |
| Rpc.SendKeeps | include/sel4/rpc_queue.h:541-566 | a request writes no buffer that is lent, and queues exactly the one buffer it lends; when refused it lends none |
| Rpc.Channel.SendLent | include/sel4/rpc_queue.h:560-566 | a refused request gives its buffer back and rings nobody; one that is queued rings the doorbell once, if there is one |
| Rpc.Channel.Request | include/sel4/rpc.h:170-189 | the message with its op is in the lowest free buffer, whose id is lent and queued, and the doorbell rings once |
| Rpc.Channel.MmioStart | include/sel4/rpc.h:271-287 | the same for the packed MMIO request, and the doorbell rings once |
| Rpc.Channel.Reply | include/sel4/rpc.h:199-212 | the id joins the responses and the doorbell rings once, or -1 is returned and nobody is rung when they are full |
| Rpc.Channel.AckMmioFinish | include/sel4/rpc.h:289-294 | the answer is stored in mr2 of that message alone, its id joins the responses and the doorbell rings |
| Rpc.Channel.EventTx | include/sel4/rpc.h:221-235 | the event joins the event queue with its op and the doorbell rings, or -1 when that is full |
| Rpc.Channel.ReclaimAndReceive | include/sel4/rpc.h:143-147 | the step of the response loop: the buffer is free again and the next response is in hand |
| IoProxy.Proxy.IoreqStart | src/io_proxy.c:28-48 | a slot out of range is refused and nothing changes; otherwise the slot holds the continuation for the direction, and the packed request is sent |
| IoProxy.AssertionProtects | src/io_proxy.c:50-56 | a message that passes the assertion on the slot stays within the array if and only if its slot bits are not 32 |
| IoProxy.AssertionGap | src/io_proxy.c:50-56 | a message with op MMIO that passes the assertion and indexes past the array |
| IoProxy.Proxy.IoreqFinish | src/io_proxy.c:50-63 | the stored continuation is called with the data and the slot is free |
| IoProxy.Proxy.NativeSlot | src/io_proxy.c:65-89 | the slot of a native thread, given on first use |
| IoProxy.Proxy.HandleMmio | src/io_proxy.c:175-187 | passes on other ops, and finishes the slot named in mr0 with the data in mr2 |
| IoProxy.StartThenAnswer | src/io_proxy.c:28-63 | an answer to the request a start has sent names that start's slot, calls the continuation stored by it with the answer's data, and restores the slots |
| IoProxy.Proxy.NativeStart | src/io_proxy.c:122-138 | ioreq_native up to its wait: without a slot nothing is sent; otherwise the thread's own slot holds its continuation and the packed request is sent |
| IoProxy.Proxy.NativeWait | src/io_proxy.c:111-120 | takes one post of that thread and returns its value; nothing else of it, and nothing of other threads, changes |
| IoProxy.SlotStays | src/io_proxy.c:65-89 | in every run a thread keeps the native slot it was given |
| IoProxy.ApartInRuns | src/io_proxy.c:122-138 | in every run no native thread waits in two slots |
| IoProxy.DirectionAgrees | src/io_proxy.c:28-48 | the continuation stored for a request is the one for the direction bit that is sent |
| NativeThreads.PostsCounted | src/io_proxy.c:91-120 | in every run the semaphore of a thread holds the answers to it less its waits that have passed |
| NativeThreads.AnsweredOnce | src/io_proxy.c:91-138 | in every run the requests a thread has begun have been answered once each, but for the one in flight |
| NativeThreads.NoEarlyWait | src/io_proxy.c:111-138 | so with one request in flight and all those before answered and waited for, the semaphore is down and no wait passes |
| NativeThreads.WaitAfterAnswer | src/io_proxy.c:111-138 | and when its answer has come the semaphore holds just that post, which the wait takes |
| NativeThreads.ValueIsLastRead | src/io_proxy.c:91-120 | in every run the value of a thread is the data of the last read answered to it |
| NativeThreads.NativeSlots | src/io_proxy.c:65-89 | in every run a native slot is one of 16 to 31 and belongs to one thread, and a thread is refused exactly when it has none and no semaphore can be made or sixteen threads have slots |
| Glue.HandlePci | src/libsel4vm_glue.c:261-284 | the effect of an interrupt or registration message on the PCI tables, with its result |
| Glue.Monitor.ProcessMessage | src/libsel4vm_glue.c:302-332 | the loop over the handlers computes the first answer that is not "none" |
| Glue.Monitor.RunResponse | src/libsel4vm_glue.c:342-348 | one round: the response in hand is processed and, unless that fails, its buffer is reclaimed and the next one is in hand |
| Glue.Monitor.RunResponses | src/libsel4vm_glue.c:341-348 | every response up to the first that fails is processed in order and its buffer reclaimed; the loop ends |
| Glue.Monitor.RunEvents | src/libsel4vm_glue.c:350-357 | every event up to the first that fails is processed once and in order; the loop ends |
| Glue.Monitor.RpcRun | src/libsel4vm_glue.c:334-360 | state, queues, bitmap and result after both loops |
| GlueTheorems.Routes | src/libsel4vm_glue.c:302-332 | the list of handlers acts as a table of ops; a message nobody takes fails and changes nothing |
| GlueTheorems.InterruptRoutes | src/libsel4vm_glue.c:261-284 | for every message with op 16: an interrupt below 32 acts on the PCI device of that slot and never on emulated devices; any other goes to the emulated devices and changes nothing here; interrupt numbers and operations are cut to 32 bits |
| GlueTheorems.LineEventRoutes | include/sel4/rpc.h:256-269 | a set, clear or pulse event acts on the device registered for slot irq when irq < 32, and goes to the emulated devices when it is 32 or more |
| GlueTheorems.RepliesAnswered | src/libsel4vm_glue.c:341-348 | any batch of replies to distinct busy slots succeeds and calls exactly the stored continuations, each once, with the data replied |
| GlueTheorems.RepliesFree | src/io_proxy.c:50-63 | after such a batch exactly the slots that were answered are free |
| GlueTheorems.AnyOrder | include/sel4/rpc_queue.h:462-463 | replies may come in any order: the same slots are free, the same calls are made, and every native thread gets the same |
| GlueTheorems.NativeAnswered | src/io_proxy.c:91-120 | a native thread is woken once and after a read finds the data replied; a write leaves its value |
| GlueResults.FailsDecides | src/libsel4vm_glue.c:311-332 | whether a message fails, from its words, the registered devices and what the environment refuses; a reply never does |
| GlueResults.GoodRun | src/libsel4vm_glue.c:334-360 | when all responses are replies to requests in flight, rpc_run empties the queue, reclaims exactly their buffers, and returns 0 exactly when no waiting event fails |
| GlueResults.ZeroMeans | src/libsel4vm_glue.c:339-359 | result 0 means that no waiting response fails, if no event waits, and else that no waiting event does |
| GlueResults.HiddenFailure | src/libsel4vm_glue.c:339-359 | rpc_run returns 0 and leaves the buffer of a queued response lent if and only if a waiting response fails, events wait, and none of them fails |
| GlueResults.FailedKeepsBuffer | src/libsel4vm_glue.c:342-348 | exactly the buffers of the responses before the first failing one are reclaimed; that one has left the queue but its buffer stays lent, and those behind it still wait |
| GlueResults.EventsLeft | src/libsel4vm_glue.c:350-357 | whatever becomes of the responses, exactly the events up to the first failing one are taken, those behind it still wait, and devices registered on the way stay registered; events return no buffer |
| GlueResults.ErrorHidden | src/libsel4vm_glue.c:339-359 | an input on which a response fails, rpc_run returns 0 and a buffer is lost |
| Irq.SharedIrqLine.Change | src/shared_irq_line.c:31-53 | sources of 64 and above are refused; otherwise the mask changes and the line is driven only when the mask becomes or stops being zero |
| Irq.ChangedHigh | src/shared_irq_line.c:41-45 | a change moves exactly its source, for 0 to 30 and for the sign-extended 31 |
| Irq.WiredOr | src/shared_irq_line.c:47-52 | the mask is non-zero exactly when some source is high |
| Irq.RegisteredFound | src/libsel4vm_glue.c:153-212 | a registration fails exactly when the table is full, memory runs out or the bus refuses; otherwise interrupts of that backend and number reach the new device, unless an earlier one has the same |
| Irq.PinIsLine | src/libsel4vm_glue.c:77-84 | a device is on the line of its slot, bits 3 to 7 of its number, modulo four |
| Irq.PciGlue.RegisterDevice | src/libsel4vm_glue.c:153-201 | a device is appended to the table, unless that is full, memory runs out or the bus refuses |
| Irq.PciGlue.FindDevice | src/libsel4vm_glue.c:203-212 | the first registered device of this backend and number, or none |
| Irq.PciGlue.SetLevel | src/libsel4vm_glue.c:214-233 | the level of that device on its line |
| Irq.PciGlue.HandleIntx | src/libsel4vm_glue.c:235-259 | set, clear, pulse and unknown operations |
| Irq.LinesFollowLevels | src/libsel4vm_glue.c:203-259 | after every run of registrations and interrupt messages, the level last driven on each line is the OR of the levels of the devices mapped to it, a line is driven only when that OR changes, and no other interrupt is driven |
| Irq.MessageDrives | src/libsel4vm_glue.c:214-259 | exactly what one interrupt message drives after any run: set raises a line that is low, clear lowers one on which no other device is high, a pulse does the one and then the other, and anything else is silent |
| Irq.GuestSeesLine | src/libsel4vm_glue.c:108-121 | the interrupt the guest reads at PCI_INTERRUPT_LINE is high exactly when some device on that line is |
| Irq.ReadsLine | src/libsel4vm_glue.c:108-121 | the registers name interrupt and pin of the device, if and only if the interrupt fits 8 bits |

## Left out

- Memory ordering: both compare-and-swaps are acquire-only, and nothing is claimed for weakly ordered machines.
- The `__KERNEL__` compare-and-swap, which does not refresh the expected value; retries and wait-freedom are not claimed for it.
- Progress of the acquire and tail-wait loops under contention, which are not wait-free (the commit loop is): `RingAcquire.AcquireAlone` is about a thread that runs alone, and a side at its full distance waits for commits.
- Linearizability of "empty": a completed enqueue stays invisible while an earlier producer is in flight, so only the form of `RefusalTruthful` is claimed.
- Interleavings inside `rpcmsg_lend_buffer` and inside finish-and-reclaim, which the pipeline takes as one step each.
- Runs of the pipeline after an error path: a send that fails leaves its slot busy, and a response that fails leaves its buffer lent. Requests there are made on free slots, and devices answer each request once.
- Pipeline runs in which a tail is used 2^32 - 32 reservations or more after its load, where a refusal could be wrong.
- Ring runs in which a tail is used 2^32 reservations or more after its load: `Ring32.SwapAnyAge` says when its swap then succeeds.
- IoProxy.Proxy.IoreqStart: asks for a free buffer, because the source writes through a NULL pointer when there is none; `PipelineTheorems.BufferFound` shows when there is one. A busy slot is a failed assertion there.
- IoProxy.Proxy.IoreqFinish: asks for a slot below 32, which the array needs; the source's assertion admits 32 (`IoProxy.AssertionGap`), and what lies past the array is not described.
- IoProxy.Proxy.HandleMmio: asks the same of the slot a response names.
- Rpc.Channel.Request: asks for a free buffer for the same reason.
- RpcQueue.Bound.TailWait: run alone, so the head and tail do not move during the wait; `Ring` covers waiting beside other threads.
- Irq.SharedIrqLine.Change: leaves out sources 32 to 63, where the shift of an int is undefined.
- The value a native write returns, which the source never sets.
- The blocking of `ioreq_native` between its two halves; a wait is made once the semaphore has been posted.
- vCPU fault data and advancing the fault, which happen in continuations: a call is recorded with its data.
- `driver_rpc_request_pending`, which returns the test for an empty queue.
- MSI (the weak handler that passes every message on is modelled), emulated devices (a parameter says which messages they turn down), reservations, device trees, dataports, guest setup, PL011 and tracing.
- The PCI bus itself: a parameter says which number it gives each device, or that it refuses one, or that no memory was left for it.
- PCI configuration space other than interrupt line and pin.
- `VIRTIO_CON_PLAT_INTERRUPT_LINE`, the first line's interrupt, is a parameter.
