/** The RPC pipeline: 32 lent message buffers whose ids travel through three concurrent rings, and
    32 slots of pending continuations (include/sel4/rpc_queue.h, include/sel4/rpc.h, src/io_proxy.c).

    The driver requests on queue 0, the kernel module receives there and forwards on queue 1 or
    replies on queue 2, the user device receives on queue 1 and replies on queue 2, and the driver
    processes what arrives on queue 2.  Every queue is the ring machine, so the steps of all
    enqueueing and dequeueing threads interleave freely. */
module Pipeline {
  import opened Ring
  import opened RingSafety
  import opened RingUse
  import opened Options
  import opened Packing
  import Bitmap

  const IDS: nat := 32
  const SLOTS: nat := 32
  const REQUEST: nat := 0
  const FORWARD: nat := 1
  const RESPONSE: nat := 2

  /** Who may read and write a message that is in no queue. */
  datatype Role = Requester | Kernel | Device | Processor

  /** Where a message id is. */
  datatype Place =
    | Free
    | Held(who: Role)
    | Sending(q: nat, i: nat, who: Role)  // thread i of queue q is enqueueing it
    | Queued(q: nat, p: nat)             // entry p of queue q, until the consumer commits it

  /** Whether a started request still waits in a slot, or which completion it was. */
  datatype Status = Pending(slot: nat) | Done(k: nat)

  /** A continuation has been called: which request it belonged to, and the data it got. */
  datatype Completion = Completion(request: nat, data: nat)

  /** lent: the bitmap; callback: the request whose continuation a slot stores (None for NULL).
      The rest is history: who has which id, which id serves a slot, which request an id serves,
      what its message held when last handed over, the answer given to a request, and the calls. */
  datatype Sys = Sys(
    rings: seq<State>, msgs: seq<Message>, lent: set<nat>, callback: seq<Option<nat>>,
    place: seq<Place>, carrier: seq<nat>, request: seq<nat>, sent: seq<Message>,
    status: seq<Status>, answer: map<nat, nat>, ran: seq<Completion>, crashed: bool)
  {
    function SetRing(q: nat, s: State): Sys
      requires q < |rings|
    {
      this.(rings := rings[q := s])
    }

    function Move(id: nat, p: Place): Sys
      requires id < |place|
    {
      this.(place := place[id := p])
    }
  }

  datatype Event =
    | Start(slot: nat, direction: nat, space: nat, addr: nat, len: nat, data: nat)
    | Write(id: nat, data: nat)
    | Send(q: nat, i: nat, id: nat)
    | Receive(q: nat)
    | RunThread(q: nat, i: nat)
    | Finish(id: nat)

  /** What arrays of fixed size the program has. */
  predicate Shape(y: Sys) {
    && |y.rings| == 3 && |y.msgs| == |y.place| == |y.request| == |y.sent| == IDS
    && |y.callback| == |y.carrier| == SLOTS
  }

  function Init(threads: nat): Sys {
    Sys(seq(3, _ => Ring.Init(RPC, threads + 1)), seq(IDS, _ => Message(0, 0, 0, 0)), {}, seq(SLOTS, _ => None),
        seq(IDS, _ => Free), seq(SLOTS, _ => 0), seq(IDS, _ => 0), seq(IDS, _ => Message(0, 0, 0, 0)),
        [], map[], [], false)
  }

  /* ---------------------------------------------------------------- events */

  predicate MaySend(who: Role, q: nat) {
    match who
    case Requester => q == REQUEST
    case Kernel => q == FORWARD || q == RESPONSE
    case Device => q == RESPONSE
    case Processor => false
  }

  function Receiver(q: nat): Role {
    if q == REQUEST then Kernel else if q == FORWARD then Device else Processor
  }

  /** ioreq_start up to the lent and filled message; a busy slot is an assertion failure there, so
      requests are made on free slots. */
  function DoStart(y: Sys, e: Event): (r: Sys)
    requires Shape(y) && e.Start?
    ensures Shape(r)
  {
    if e.slot >= SLOTS || y.callback[e.slot] != None then y
    else StartWith(y, e.slot, Message(MmioMr0(e.direction, e.space, e.len, e.slot), e.addr, e.data, 0))
  }

  /** The continuation is stored, and the lowest free buffer is lent and filled with message m. */
  function StartWith(y: Sys, slot: nat, m: Message): (r: Sys)
    requires Shape(y) && slot < SLOTS
    ensures Shape(r)
  {
    var id := Bitmap.LowestFree(y.lent, 0, IDS);
    var y1 := y.(callback := y.callback[slot := Some(|y.status|)], status := y.status + [Pending(slot)]);
    if id == IDS then y1.(crashed := true)  // the message pointer is NULL
    else
      y1.(lent := y.lent + {id}, carrier := y.carrier[slot := id], request := y.request[id := |y.status|],
          msgs := y.msgs[id := m])
        .Move(id, Held(Requester))
  }

  /** The kernel module or the device stores its answer in a message it has received. */
  function DoWrite(y: Sys, id: nat, data: nat): (r: Sys)
    requires Shape(y)
    ensures Shape(r)
  {
    if id < IDS && (y.place[id] == Held(Kernel) || y.place[id] == Held(Device))
    then y.(msgs := y.msgs[id := y.msgs[id].(mr2 := data)]) else y
  }

  /** rpcmsg_request, rpcmsg_forward or rpcmsg_reply begins to enqueue a message. */
  function DoSend(y: Sys, q: nat, i: nat, id: nat): (r: Sys)
    requires Shape(y)
    ensures Shape(r)
  {
    if q < 3 && 0 < i < |y.rings[q].threads| && y.rings[q].threads[i].Resting()
       && id < IDS && y.place[id].Held? && MaySend(y.place[id].who, q)
    then
      y.(sent := y.sent[id := y.msgs[id]],
         answer := if q == RESPONSE then y.answer[y.request[id] := y.msgs[id].mr2] else y.answer)
       .SetRing(q, Apply(RPC, y.rings[q], BeginEnqueue(i, Item(id, []))))
       .Move(id, Sending(q, i, y.place[id].who))
    else y
  }

  /** rpcmsg_receive or rpcmsg_receive_response begins to dequeue. */
  function DoReceive(y: Sys, q: nat): (r: Sys)
    requires Shape(y)
    ensures Shape(r)
  {
    if q < 3 then y.SetRing(q, Apply(RPC, y.rings[q], BeginDequeue(0))) else y
  }

  /** One step of a thread inside a queue, and where it leaves the id it carries. */
  function DoRun(y: Sys, q: nat, i: nat): (r: Sys)
    requires Shape(y)
    ensures Shape(r)
  {
    if q < 3 && i < |y.rings[q].threads| then
      var s := y.rings[q];
      var id := s.threads[i].item.id;
      var y1 := y.SetRing(q, Step(RPC, s, i));
      if id >= IDS then y1
      else if s.threads[i].side.Prod? && Reserves(s, i) then y1.Move(id, Queued(q, s.prod.tail.pos))
      else if s.threads[i].side.Cons? && Publishes(s, i) then y1.Move(id, Held(Receiver(q)))
      else if Refuses(RPC, s, i) && y.place[id].Sending? then
        if q == REQUEST then y1.(lent := y.lent - {id}).Move(id, Free) else y1.Move(id, Held(y.place[id].who))
      else y1
    else y
  }

  /** handle_mmio on a received response, with ioreq_finish, and the reclaim that follows. */
  function DoFinish(y: Sys, id: nat): (r: Sys)
    requires Shape(y)
    ensures Shape(r)
  {
    if id < IDS && y.place[id] == Held(Processor) then
      var slot := SlotOf(y.msgs[id]);
      if OpOf(y.msgs[id]) == OP_MMIO && slot < SLOTS && y.callback[slot].Some?
      then
        var r := y.callback[slot].value;
        y.(callback := y.callback[slot := None], lent := y.lent - {id},
           ran := y.ran + [Completion(r, y.msgs[id].mr2)],
           status := if r < |y.status| then y.status[r := Done(|y.ran|)] else y.status)
         .Move(id, Free)
      else y.(crashed := true)  // no handler, or the assertion on the callback fails
    else y
  }

  function Next(y: Sys, e: Event): (r: Sys)
    requires Shape(y)
    ensures Shape(r)
  {
    match e
    case Start(_, _, _, _, _, _) => DoStart(y, e)
    case Write(id, data) => DoWrite(y, id, data)
    case Send(q, i, id) => DoSend(y, q, i, id)
    case Receive(q) => DoReceive(y, q)
    case RunThread(q, i) => DoRun(y, q, i)
    case Finish(id) => DoFinish(y, id)
  }

  function Exec(y: Sys, run: seq<Event>): (r: Sys)
    requires Shape(y)
    ensures Shape(r)
  {
    if run == [] then y else Next(Exec(y, run[..|run| - 1]), run[|run| - 1])
  }
}
