/** The queue as the program's code, run without interruption: include/sel4/rpc_queue.h with its
    32-bit markers, its retry loops and its arrays, against a bounded first-in first-out sequence. */
module RpcQueue {
  import opened Finite
  import opened Bits
  import Ring
  import R = Ring32
  import opened Packing

  const SIZE: nat := 32
  const MASK: nat := SIZE - 1
  const HTD_MAX: nat := SIZE / 4

  type Marker = Ring.Marker

  /** The marker that stands at unbounded position p. */
  function At(p: nat): Marker { Ring.Marker(p % M, p % M) }

  /** rpcmsg_queue_bound_t: one side of a queue. */
  class Bound {
    var tail: Marker
    var head: Marker

    constructor ()
      ensures tail == head == At(0)
    {
      tail, head := Ring.Marker(0, 0), Ring.Marker(0, 0);
    }

    /** atomic_compare_and_swap on the tail: on failure the expected value is refreshed. */
    method CasTail(ot: Marker, nt: Marker) returns (ok: bool, seen: Marker)
      modifies this`tail
      ensures ok == (old(tail) == ot) && seen == old(tail)
      ensures tail == if ok then nt else old(tail)
    {
      ok, seen := tail == ot, tail;
      if ok { tail := nt; }
    }

    method CasHead(oh: Marker, nh: Marker) returns (ok: bool, seen: Marker)
      modifies this`head
      ensures ok == (old(head) == oh) && seen == old(head)
      ensures head == if ok then nh else old(head)
    {
      ok, seen := head == oh, head;
      if ok { head := nh; }
    }

    /** rpcmsg_tail_wait: a copy of the tail too far from the head is replaced by the tail, whose
        distance is small when no other thread holds an entry. */
    method TailWait(ot: Marker) returns (t: Marker)
      requires R.Sub32(tail.pos, head.pos) <= 8
      ensures t == if R.Sub32(ot.pos, head.pos) <= 8 then ot else tail
    {
      t := ot;
      while R.Sub32(t.pos, head.pos) > HTD_MAX
        invariant t == ot || (t == tail && R.Sub32(ot.pos, head.pos) > HTD_MAX)
        decreases t != tail
      {
        t := tail;
      }
    }

    /** rpcmsg_commit_update: the only reservation in flight is published. */
    method CommitUpdate()
      requires tail.count == R.Inc32(head.count)
      modifies this`head
      ensures head == old(tail) && tail == old(tail)
    {
      var oh := head;
      var done := false;
      while !done
        invariant tail == old(tail)
        invariant if done then head == tail else head == oh == old(head)
        decreases !done
      {
        var t := tail;
        var nh := oh.(count := R.Inc32(oh.count));
        if nh.count == t.count { nh := nh.(pos := t.pos); }
        done, oh := CasHead(oh, nh);
      }
    }
  }

  lemma NextMarker(p: nat)
    ensures At(p + 1) == Ring.Marker(R.Inc32(p % M), R.Inc32(p % M)) && R.Sub32(p % M, p % M) == 0
  {
    R.WrapInc(p);
  }

  /** The free-entry test on wrapped positions. */
  lemma FreeEntries(sent: nat, received: nat)
    requires received <= sent <= received + SIZE
    ensures R.Sub32(SIZE + received % M, sent % M) == 0 <==> sent == received + SIZE
    ensures R.Sub32(sent % M, received % M) == 0 <==> sent == received
  {
    R.WrapRoom(SIZE, received, sent);
    R.SmallMod(SIZE + received - sent);
    R.WrapSub(sent, received);
    R.SmallMod(sent - received);
  }

  /** The masked index of a wrapped position. */
  lemma Index(p: nat)
    ensures And(p % M, MASK) == p % SIZE
  {
    R.MIsPow2();
    assert Pow2(5) == SIZE;
    MaskIsMod(p, 5, 32);
  }

  /** The ids at positions a to b of a ring. */
  ghost function Window(ring: seq<nat>, a: nat, b: nat): seq<nat>
    requires |ring| == SIZE && a <= b
  {
    seq(b - a, k requires 0 <= k < b - a => ring[(a + k) % SIZE])
  }

  /** Writing the entry of position b leaves up to 31 entries before it alone. */
  lemma OneCellChanged(was: seq<nat>, now: seq<nat>, a: nat, b: nat, id: nat)
    requires |was| == |now| == SIZE && a <= b < a + SIZE
    requires now == was[b % SIZE := id]
    ensures Window(now, a, b + 1) == Window(was, a, b) + [id]
  {
    forall k | 0 <= k < b - a ensures Window(now, a, b)[k] == Window(was, a, b)[k] {
      ModDistinct(a + k, b, SIZE);
    }
  }

  /** rpcmsg_queue_t; sent and received count the completed enqueues and dequeues. */
  class Queue {
    const prod: Bound
    const cons: Bound
    const ring: array<nat>
    ghost var sent: nat
    ghost var received: nat

    ghost function Repr(): set<object> { {this, prod, cons, ring} }

    /** Nothing is in flight. */
    ghost predicate Valid()
      reads this, prod, cons
    {
      && prod != cons && ring.Length == SIZE
      && prod.tail == prod.head == At(sent) && cons.tail == cons.head == At(received)
      && received <= sent <= received + SIZE
    }

    /** The ids in the queue, oldest first. */
    ghost function Contents(): (c: seq<nat>)
      requires Valid()
      reads this, prod, cons, ring
      ensures |c| == sent - received
    {
      Window(ring[..], received, sent)
    }

    constructor ()
      ensures Valid() && Contents() == [] && fresh(Repr())
    {
      prod := new Bound();
      cons := new Bound();
      ring := new nat[SIZE](_ => 0);
      sent, received := 0, 0;
    }

    /** rpcmsg_acquire_prod_entry */
    method AcquireProdEntry() returns (ret: int, entry: nat)
      requires Valid()
      modifies prod`tail
      ensures ret == if sent - received < SIZE then 0 else -1
      ensures ret == 0 ==> entry == sent % M && prod.tail == At(sent + 1)
      ensures ret != 0 ==> prod.tail == old(prod.tail)
    {
      ret := 0;
      var ot := prod.tail;
      var done := false;
      NextMarker(sent);
      FreeEntries(sent, received);
      while !done
        invariant ot == At(sent) && ret == 0
        invariant prod.tail == if done then At(sent + 1) else At(sent)
        invariant done ==> sent - received < SIZE
        decreases !done
      {
        ot := prod.TailWait(ot);
        var entries := R.Sub32(SIZE + cons.head.pos, ot.pos);
        if entries == 0 {
          ret := -1;
          break;
        }
        done, ot := prod.CasTail(ot, Ring.Marker(R.Inc32(ot.pos), R.Inc32(ot.count)));
      }
      entry := ot.pos;
    }

    /** rpcmsg_acquire_cons_entry */
    method AcquireConsEntry() returns (ret: int, entry: nat)
      requires Valid()
      modifies cons`tail
      ensures ret == if sent > received then 0 else -1
      ensures ret == 0 ==> entry == received % M && cons.tail == At(received + 1)
      ensures ret != 0 ==> cons.tail == old(cons.tail)
    {
      ret := 0;
      var ot := cons.tail;
      var done := false;
      NextMarker(received);
      FreeEntries(sent, received);
      while !done
        invariant ot == At(received) && ret == 0
        invariant cons.tail == if done then At(received + 1) else At(received)
        invariant done ==> sent > received
        decreases !done
      {
        ot := cons.TailWait(ot);
        var entries := R.Sub32(prod.head.pos, ot.pos);
        if entries == 0 {
          ret := -1;
          break;
        }
        done, ot := cons.CasTail(ot, Ring.Marker(R.Inc32(ot.pos), R.Inc32(ot.count)));
      }
      entry := ot.pos;
    }

    /** rpcmsg_enqueue with rpcmsg_rpc_enqueue_fn: append, or refuse when full. */
    method Enqueue(id: nat) returns (ret: int)
      requires Valid()
      modifies this`sent, prod, ring
      ensures Valid()
      ensures ret == if |old(Contents())| < SIZE then 0 else -1
      ensures Contents() == if ret == 0 then old(Contents()) + [id] else old(Contents())
      ensures received == old(received) && sent == old(sent) + (if ret == 0 then 1 else 0)
    {
      var entry;
      ret, entry := AcquireProdEntry();
      if ret != 0 { return; }
      Index(sent);
      NextMarker(sent);
      var x := And(entry, MASK);
      ring[x] := id;
      prod.CommitUpdate();
      sent := sent + 1;
      OneCellChanged(old(ring[..]), ring[..], received, old(sent), id);
    }

    /** rpcmsg_dequeue with rpcmsg_rpc_dequeue_fn: take the oldest, or fail when empty. */
    method Dequeue() returns (ret: int, id: nat)
      requires Valid()
      modifies this`received, cons
      ensures Valid() && sent == old(sent)
      ensures ret == if |old(Contents())| > 0 then 0 else -1
      ensures ret == 0 ==> id == old(Contents())[0] && Contents() == old(Contents())[1..] && received == old(received) + 1
      ensures ret != 0 ==> Contents() == old(Contents()) && received == old(received)
    {
      var entry;
      ret, entry := AcquireConsEntry();
      id := 0;
      if ret != 0 { return; }
      Index(received);
      NextMarker(received);
      id := ring[And(entry, MASK)];
      cons.CommitUpdate();
      received := received + 1;
    }

    /** rpcmsg_queue_full and rpcmsg_queue_empty */
    predicate Full() reads this, prod, cons { R.Sub32(SIZE + cons.tail.pos, prod.tail.pos) == 0 }
    predicate Empty() reads this, prod, cons { prod.head.pos == cons.head.pos }

    lemma Reports()
      requires Valid()
      ensures Full() <==> |Contents()| == SIZE
      ensures Empty() <==> |Contents()| == 0
    {
      FreeEntries(sent, received);
      R.WrapEq(sent, received);
    }
  }

  /** The messages in the ring entries of positions a to b. */
  ghost function Messages(buffer: seq<Message>, a: nat, b: nat): seq<Message>
    requires |buffer| == SIZE && a <= b
  {
    seq(b - a, k requires 0 <= k < b - a => buffer[(a + k) % SIZE])
  }

  lemma OneMessageChanged(was: seq<Message>, now: seq<Message>, a: nat, b: nat, m: Message)
    requires |was| == |now| == SIZE && a <= b < a + SIZE
    requires now == was[b % SIZE := m]
    ensures Messages(now, a, b + 1) == Messages(was, a, b) + [m]
  {
    forall k | 0 <= k < b - a ensures Messages(now, a, b)[k] == Messages(was, a, b)[k] {
      ModDistinct(a + k, b, SIZE);
    }
  }

  /** The index of every position. */
  ghost function Indices(a: nat, b: nat): seq<nat>
    requires a <= b
  {
    seq(b - a, k requires 0 <= k < b - a => (a + k) % SIZE)
  }

  lemma FirstEntry(ring: seq<nat>, a: nat, b: nat)
    requires |ring| == SIZE && a < b && Window(ring, a, b) == Indices(a, b)
    ensures ring[a % SIZE] == a % SIZE && Window(ring, a + 1, b) == Indices(a + 1, b)
  {
    assert Window(ring, a, b)[0] == ring[a % SIZE];
    assert Window(ring, a + 1, b) == Window(ring, a, b)[1..];
    assert Indices(a + 1, b) == Indices(a, b)[1..];
  }

  /** rpcmsg_event_queue_t: every entry names the message with its own index. */
  class EventQueue {
    const queue: Queue
    const buffer: array<Message>

    ghost predicate Valid()
      reads this, queue, queue.prod, queue.cons, queue.ring, buffer
    {
      && queue.Valid() && buffer.Length == SIZE
      && Window(queue.ring[..], queue.received, queue.sent) == Indices(queue.received, queue.sent)
    }

    /** The events waiting, oldest first. */
    ghost function Contents(): (c: seq<Message>)
      requires Valid()
      reads this, queue, queue.prod, queue.cons, queue.ring, buffer
      ensures |c| == queue.sent - queue.received
    {
      Messages(buffer[..], queue.received, queue.sent)
    }

    ghost function Repr(): set<object> { {this, buffer} + queue.Repr() }

    constructor ()
      ensures Valid() && Contents() == [] && fresh(Repr())
    {
      queue := new Queue();
      buffer := new Message[SIZE](_ => Message(0, 0, 0, 0));
    }

    /** rpcmsg_event_tx: copy the four words to the message of the entry, and store its index. */
    method Tx(m: Message) returns (ret: int)
      requires Valid()
      modifies queue`sent, queue.prod, queue.ring, buffer
      ensures Valid()
      ensures ret == if |old(Contents())| < SIZE then 0 else -1
      ensures Contents() == if ret == 0 then old(Contents()) + [m] else old(Contents())
    {
      var entry;
      ret, entry := queue.AcquireProdEntry();
      if ret != 0 { return; }
      Index(queue.sent);
      NextMarker(queue.sent);
      var x := And(entry, MASK);
      buffer[x] := m;
      queue.ring[x] := x;
      queue.prod.CommitUpdate();
      OneMessageChanged(old(buffer[..]), buffer[..], queue.received, queue.sent, m);
      OneCellChanged(old(queue.ring[..]), queue.ring[..], queue.received, queue.sent, x);
      queue.sent := queue.sent + 1;
    }

    /** rpcmsg_event_rx: load the index and copy the message it names. */
    method Rx() returns (ret: int, m: Message)
      requires Valid()
      modifies queue`received, queue.cons
      ensures Valid()
      ensures ret == if |old(Contents())| > 0 then 0 else -1
      ensures ret == 0 ==> m == old(Contents())[0] && Contents() == old(Contents())[1..]
      ensures ret != 0 ==> Contents() == old(Contents())
    {
      var entry;
      ret, entry := queue.AcquireConsEntry();
      m := Message(0, 0, 0, 0);
      if ret != 0 { return; }
      Index(queue.received);
      NextMarker(queue.received);
      var x := And(entry, MASK);
      FirstEntry(queue.ring[..], queue.received, queue.sent);
      m := buffer[queue.ring[x]];
      queue.cons.CommitUpdate();
      queue.received := queue.received + 1;
    }
  }
}
