/** The two ends of the message channel as include/sel4/rpc.h composes them: requests in lent
    buffers, replies in the same buffers, and events. */
module Rpc {
  import opened Bits
  import opened Packing
  import opened Bitmap
  import opened RpcQueue

  /** The event or request message that device_event_tx and driver_rpc_request build. */
  function WithOp(op: nat, mr0: nat, mr1: nat, mr2: nat, mr3: nat): Message {
    Message(SetField(mr0, OP, op), mr1, mr2, mr3)
  }

  /** The handler is chosen by the op that was sent, as far as it fits the field, and everything else
      arrives as it was given. */
  lemma OpArrives(op: nat, mr0: nat, mr1: nat, mr2: nat, mr3: nat)
    ensures var m := WithOp(op, mr0, mr1, mr2, mr3);
            && m.mr0 % 64 == op % 64 && m.mr1 == mr1 && m.mr2 == mr2 && m.mr3 == mr3
            && forall i: nat :: 6 <= i < 64 ==> Bit(m.mr0, i) == Bit(mr0, i)
  {
    forall i: nat ensures 6 <= i < 64 ==> Bit(SetField(mr0, OP, op), i) == Bit(mr0, i) { SetFieldBit(mr0, OP, op, i); }
    OpBits(WithOp(op, mr0, mr1, mr2, mr3));
    GetSetSame(mr0, OP, op);
    LowIsMod(op, 6);
    assert Pow2(6) == 64;
  }

  /** The request side as values: the message buffers, the ids queued, and the ids lent. */
  datatype Requests = Requests(messages: seq<Message>, queued: seq<nat>, lent: set<nat>)

  /** The side of the driver that receives: the ids of the responses queued, the ids lent, and the
      events queued. */
  datatype Arrived = Arrived(replies: seq<nat>, lent: set<nat>, events: seq<Message>)

  /** The oldest response or event is taken, if there is one. */
  function Pop(b: Arrived): (Arrived, int) {
    if b.replies == [] then (b, -1) else (b.(replies := b.replies[1..]), 0)
  }
  function PopEvent(b: Arrived): (Arrived, int) {
    if b.events == [] then (b, -1) else (b.(events := b.events[1..]), 0)
  }

  /** rpcmsg_request: message m goes into the lowest free buffer, whose id is lent and queued,
      unless the queue is full. */
  ghost function Send(r: Requests, m: Message): (r': Requests)
    requires |r.messages| == BUFFERS && LowestFree(r.lent, 0, BUFFERS) < BUFFERS
  {
    var id := LowestFree(r.lent, 0, BUFFERS);
    var filled := r.(messages := r.messages[id := m]);
    if |r.queued| < SIZE then filled.(queued := r.queued + [id], lent := r.lent + {id}) else filled
  }

  /** A request touches no buffer that is lent, and queues exactly the buffer it lends. */
  lemma SendKeeps(r: Requests, m: Message)
    requires |r.messages| == BUFFERS && LowestFree(r.lent, 0, BUFFERS) < BUFFERS
    ensures forall id: nat :: id in r.lent && id < BUFFERS ==> Send(r, m).messages[id] == r.messages[id]
    ensures |r.queued| < SIZE ==>
              && exists id: nat :: id < BUFFERS && id !in r.lent && Send(r, m).lent == r.lent + {id}
                   && Send(r, m).queued == r.queued + [id] && Send(r, m).messages[id] == m
    ensures |r.queued| >= SIZE ==> Send(r, m).lent == r.lent && Send(r, m).queued == r.queued
  {
    var id := LowestFree(r.lent, 0, BUFFERS);
    assert id !in r.lent && Send(r, m).messages[id] == m;
  }

  /** vso_rpc_t with the buffers and queues it points to; doorbell tells whether one is set. */
  class Channel {
    const request: Queue
    const response: Queue
    const events: EventQueue
    const state: BufferState
    const messages: array<Message>
    const doorbell: bool
    var rung: nat

    /** All the memory of the channel */
    ghost const Repr: set<object>

    /** The parts share no memory. */
    ghost predicate Apart() {
      && request != response && request != events.queue && response != events.queue
      && {request.prod, request.cons} !! {response.prod, response.cons} !! {events.queue.prod, events.queue.cons}
      && state.state !in {request.ring, response.ring, events.queue.ring}
      && request.ring != response.ring && request.ring != events.queue.ring && response.ring != events.queue.ring
      && messages != events.buffer
    }

    ghost predicate Valid()
      reads this, Repr
    {
      && Apart() && messages.Length == BUFFERS
      && {this, messages, state, state.state} + request.Repr() + response.Repr() + events.Repr() <= Repr
      && request.Valid() && response.Valid() && events.Valid() && state.Valid()
    }

    ghost function View(): (r: Requests)
      requires Valid()
      reads this, Repr
      ensures |r.messages| == BUFFERS
    {
      Requests(messages[..], request.Contents(), state.Lent())
    }

    /** vso_rpc_init, with a fresh bitmap: the queues and buffers are those of the shared memory. */
    constructor (request: Queue, response: Queue, events: EventQueue, messages: array<Message>, doorbell: bool)
      requires request.Valid() && response.Valid() && events.Valid() && messages.Length == BUFFERS
      requires request != response && request != events.queue && response != events.queue
      requires {request.prod, request.cons} !! {response.prod, response.cons} !! {events.queue.prod, events.queue.cons}
      requires request.ring != response.ring && request.ring != events.queue.ring && response.ring != events.queue.ring
      requires messages != events.buffer
      ensures Valid() && state.Lent() == {} && fresh({state, state.state})
      ensures this.request == request && this.response == response && this.events == events
      ensures this.messages == messages && this.doorbell == doorbell
    {
      this.request, this.response, this.events, this.messages := request, response, events, messages;
      var bitmap := new BufferState();
      state, this.doorbell, rung := bitmap, doorbell, 0;
      Repr := {this, messages, bitmap, bitmap.state} + request.Repr() + response.Repr() + events.Repr();
    }

    /** The lowest free buffer is lent and filled; the source writes through NULL when none is free. */
    method LendFilled(m: Message) returns (id: nat)
      requires Valid() && |state.Lent()| < BUFFERS
      modifies state.state, messages
      ensures Valid() && id == LowestFree(old(state.Lent()), 0, BUFFERS) < BUFFERS
      ensures messages[..] == old(messages[..])[id := m] && state.Lent() == old(state.Lent()) + {id}
      ensures request.Contents() == old(request.Contents())
    {
      id := state.Lend();
      messages[id] := m;
    }

    /** The second half of rpcmsg_request, and the doorbell. */
    method SendLent(id: nat) returns (err: int)
      requires Valid() && id < BUFFERS && id in state.Lent()
      modifies request`sent, request.prod, request.ring, state.state, this`rung
      ensures Valid()
      ensures if |old(request.Contents())| < SIZE
              then && err == (if doorbell then 0 else -1)
                   && request.Contents() == old(request.Contents()) + [id] && state.Lent() == old(state.Lent())
              else err == -1 && request.Contents() == old(request.Contents()) && state.Lent() == old(state.Lent()) - {id}
      ensures rung == old(rung) + if |old(request.Contents())| < SIZE && doorbell then 1 else 0
    {
      var ret := request.Enqueue(id);
      if ret != 0 {
        state.Reclaim(id);
        return -1;
      }
      err := Doorbell();
    }

    /** vso_doorbell */
    method Doorbell() returns (err: int)
      modifies this`rung
      ensures err == if doorbell then 0 else -1
      ensures rung == old(rung) + if doorbell then 1 else 0
    {
      if !doorbell { return -1; }
      rung := rung + 1;
      return 0;
    }

    /** driver_rpc_request */
    method Request(op: nat, mr0: nat, mr1: nat, mr2: nat, mr3: nat) returns (err: int)
      requires Valid() && |state.Lent()| < BUFFERS
      modifies request`sent, request.prod, request.ring, state.state, messages, this`rung
      ensures Valid() && LowestFree(old(state.Lent()), 0, BUFFERS) < BUFFERS
      ensures View() == Send(old(View()), WithOp(op, mr0, mr1, mr2, mr3))
      ensures err == if |old(request.Contents())| < SIZE && doorbell then 0 else -1
      ensures rung == old(rung) + if |old(request.Contents())| < SIZE && doorbell then 1 else 0
    {
      var id := LendFilled(WithOp(op, mr0, mr1, mr2, mr3));
      err := SendLent(id);
    }

    /** driver_rpc_req_mmio_start */
    method MmioStart(direction: nat, space: nat, slot: nat, addr: nat, len: nat, data: nat) returns (err: int)
      requires Valid() && |state.Lent()| < BUFFERS
      modifies request`sent, request.prod, request.ring, state.state, messages, this`rung
      ensures Valid() && LowestFree(old(state.Lent()), 0, BUFFERS) < BUFFERS
      ensures View() == Send(old(View()), Message(MmioMr0(direction, space, len, slot), addr, data, 0))
      ensures err == if |old(request.Contents())| < SIZE && doorbell then 0 else -1
      ensures rung == old(rung) + if |old(request.Contents())| < SIZE && doorbell then 1 else 0
    {
      var mr0 := SetField(0, DIRECTION, direction);
      mr0 := SetField(mr0, ADDR_SPACE, space);
      mr0 := SetField(mr0, LENGTH, len);
      mr0 := SetField(mr0, SLOT, slot);
      err := Request(OP_MMIO, mr0, addr, data, 0);
    }

    /** driver_rpc_reply */
    method Reply(id: nat) returns (err: int)
      requires Valid() && id < BUFFERS
      modifies response`sent, response.prod, response.ring, this`rung
      ensures Valid()
      ensures if |old(response.Contents())| < SIZE
              then err == (if doorbell then 0 else -1) && response.Contents() == old(response.Contents()) + [id]
              else err == -1 && response.Contents() == old(response.Contents())
      ensures rung == old(rung) + if |old(response.Contents())| < SIZE && doorbell then 1 else 0
    {
      err := response.Enqueue(id);
      if err != 0 { return; }
      err := Doorbell();
    }

    /** driver_rpc_ack_mmio_finish */
    method AckMmioFinish(id: nat, data: nat) returns (err: int)
      requires Valid() && id < BUFFERS
      modifies response`sent, response.prod, response.ring, this`rung, messages
      ensures Valid() && messages[..] == old(messages[..])[id := old(messages[id]).(mr2 := data)]
      ensures if |old(response.Contents())| < SIZE
              then err == (if doorbell then 0 else -1) && response.Contents() == old(response.Contents()) + [id]
              else err == -1 && response.Contents() == old(response.Contents())
      ensures rung == old(rung) + if |old(response.Contents())| < SIZE && doorbell then 1 else 0
    {
      messages[id] := messages[id].(mr2 := data);
      err := Reply(id);
    }

    /** device_event_tx */
    method EventTx(op: nat, mr0: nat, mr1: nat, mr2: nat, mr3: nat) returns (err: int)
      requires Valid()
      modifies events.queue`sent, events.queue.prod, events.queue.ring, events.buffer, this`rung
      ensures Valid()
      ensures if |old(events.Contents())| < SIZE
              then && err == (if doorbell then 0 else -1)
                   && events.Contents() == old(events.Contents()) + [WithOp(op, mr0, mr1, mr2, mr3)]
              else err == -1 && events.Contents() == old(events.Contents())
      ensures rung == old(rung) + if |old(events.Contents())| < SIZE && doorbell then 1 else 0
    {
      err := events.Tx(WithOp(op, mr0, mr1, mr2, mr3));
      if err != 0 { return; }
      err := Doorbell();
    }

    /** What has arrived, and which buffers are lent. */
    ghost function Inbox(): (b: Arrived)
      requires Valid()
      reads this, Repr
    {
      Arrived(response.Contents(), state.Lent(), events.Contents())
    }

    /** rpcmsg_receive_response: the oldest response, if any. */
    method Receive() returns (ret: int, id: nat)
      requires Valid()
      modifies response`received, response.cons
      ensures Valid() && (Inbox(), ret) == Pop(old(Inbox()))
      ensures ret == 0 ==> |old(Inbox()).replies| > 0 && id == old(Inbox()).replies[0]
    {
      ret, id := response.Dequeue();
    }

    /** rpcmsg_reclaim_buffer on the response queue */
    method Reclaim(id: nat)
      requires Valid() && id < BUFFERS
      modifies state.state
      ensures Valid() && Inbox() == old(Inbox()).(lent := old(Inbox()).lent - {id})
    {
      state.Reclaim(id);
    }

    /** The step of for_each_rpc_resp: the buffer is reclaimed and the next response received. */
    method ReclaimAndReceive(id: nat) returns (ret: int, next: nat)
      requires Valid() && id < BUFFERS
      modifies response`received, response.cons, state.state
      ensures Valid() && (Inbox(), ret) == Pop(old(Inbox()).(lent := old(Inbox()).lent - {id}))
      ensures ret == 0 ==> |old(Inbox()).replies| > 0 && next == old(Inbox()).replies[0]
    {
      Reclaim(id);
      ret, next := Receive();
    }

    /** rpcmsg_event_rx: the oldest event, if any. */
    method EventRx() returns (ret: int, m: Message)
      requires Valid()
      modifies events.queue`received, events.queue.cons
      ensures Valid() && (Inbox(), ret) == PopEvent(old(Inbox()))
      ensures ret == 0 ==> |old(Inbox()).events| > 0 && m == old(Inbox()).events[0]
    {
      ret, m := events.Rx();
    }
  }
}
