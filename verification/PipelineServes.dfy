/** Every request can be served: from an idle pipeline, for any request and any answer, there is a run
    that carries the message to the kernel module or on to the device and brings the answer back. */
module PipelineServes {
  import opened Ring
  import opened RingSafety
  import opened RingSolo
  import opened RingUse
  import opened Packing
  import opened Options
  import opened Pipeline
  import opened PipelineSafety
  import opened PipelineTheorems
  import opened PipelineLife
  import RingData
  import Bitmap

  const OPERATION: nat := 8  // the steps of a whole enqueue or dequeue

  /* ---------------------------------------------------------------- one queue */

  predicate AllRest(s: State) {
    2 <= |s.threads| && forall i :: 0 <= i < |s.threads| ==> s.threads[i].Resting()
  }

  /** Nothing is in flight, and n items wait. */
  predicate Holding(s: State, n: nat) { AllRest(s) && |s.log| == s.cons.head.pos + n }

  lemma Ends(s: State, side: Side)
    requires RingOk(s) && AllRest(s)
    ensures s.Of(side).head == s.Of(side).tail && |s.log| == s.prod.tail.pos
  {
    hide RingData.CellsOk, RingData.OutOk, RingData.Carries, LocalsOk, HoldersOk;
    QuiescentMarkers(RPC, s, side);
  }

  lemma {:induction false} EnqueueOne(s: State, id: nat)
    requires RingOk(s) && Holding(s, 0)
    ensures var s' := RunN(RPC, Apply(RPC, s, BeginEnqueue(1, Item(id, []))), 1, OPERATION);
            Holding(s', 1) && s'.log == s.log + [Item(id, [])]
  {
    hide RingOk, Step;
    Ends(s, Prod);
    Ends(s, Cons);
    var s0 := s.SetThread(1, Thread(Prod, LoadTail, Item(id, []), 0));
    Complete(RPC, s0, 1);
    var s' := RunN(RPC, s0, 1, OPERATION);
    assert RingSolo.Done(RPC, s0, s', 1);
    Rested(s, s0, s', 1);
  }

  lemma {:induction false} DequeueOne(s: State)
    requires RingOk(s) && Holding(s, 1)
    ensures var s' := RunN(RPC, Apply(RPC, s, BeginDequeue(0)), 0, OPERATION);
            Holding(s', 0) && s'.log == s.log
  {
    hide RingOk, Step;
    Ends(s, Prod);
    Ends(s, Cons);
    var s0 := s.SetThread(0, Thread(Cons, LoadTail, Item(0, []), 0));
    Complete(RPC, s0, 0);
    var s' := RunN(RPC, s0, 0, OPERATION);
    assert RingSolo.Done(RPC, s0, s', 0);
    Rested(s, s0, s', 0);
  }

  lemma Rested(s: State, s0: State, s': State, i: nat)
    requires AllRest(s) && i < |s.threads| && |s0.threads| == |s.threads| && s0 == s.SetThread(i, s0.threads[i])
    requires SameElsewhere(s0, s', i) && s'.threads[i].Resting()
    ensures AllRest(s')
  {
    forall j | 0 <= j < |s'.threads| ensures s'.threads[j].Resting() {
      assert j != i ==> s'.threads[j] == s0.threads[j];
    }
  }

  /* ---------------------------------------------------------------- the pipeline around it */

  function Steps(q: nat, i: nat, n: nat): seq<Event> { seq(n, _ => RunThread(q, i)) }

  /** Where id may be while thread i of queue q runs, and nothing else has changed. */
  predicate Carried(y: Sys, y': Sys, q: nat, id: nat)
    requires Shape(y) && q < 3 && id < IDS
  {
    && OnlyMoves(y, y') && |y'.rings| == 3 && |y'.place| == IDS
    && (forall p: nat :: p < 3 && p != q ==> y'.rings[p] == y.rings[p])
    && (y.place[id].Queued? && y.place[id].q == q ==> y'.place[id] == y.place[id] || y'.place[id] == Held(ReceiverOf(q)))
  }

  lemma {:induction false} RunSteps(y: Sys, q: nat, i: nat, id: nat, n: nat)
    requires PipeOk(y) && q < 3 && i < |y.rings[q].threads| && id < IDS
    ensures var y' := Pipeline.Exec(y, Steps(q, i, n));
            && PipeOk(y') && Carried(y, y', q, id) && y'.rings[q] == RunN(RPC, y.rings[q], i, n)
    decreases n
  {
    hide Step, RingsOk, DataOk, Carried;
    if n == 0 {
      assert Carried(y, y, q, id) by { NotMoved(y, q, id); }
    } else {
      RunSteps(y, q, i, id, n - 1);
      var y1 := Pipeline.Exec(y, Steps(q, i, n - 1));
      assert Steps(q, i, n)[..n - 1] == Steps(q, i, n - 1);
      NextKeeps(y1, RunThread(q, i));
      OneMore(y, y1, q, i, id);
    }
  }

  lemma NotMoved(y: Sys, q: nat, id: nat)
    requires Shape(y) && q < 3 && id < IDS
    ensures Carried(y, y, q, id)
  {
  }

  lemma OneMore(y: Sys, y1: Sys, q: nat, i: nat, id: nat)
    requires Shape(y) && PipeOk(y1) && q < 3 && i < |y1.rings[q].threads| && id < IDS && Carried(y, y1, q, id)
    ensures Carried(y, DoRun(y1, q, i), q, id) && DoRun(y1, q, i).rings[q] == Step(RPC, y1.rings[q], i)
  {
    hide Step, RingsOk, DataOk, ReceiverOf;
    RunLife(y1, q, i);
  }

  /** All rings are at rest and empty. */
  predicate Calm(y: Sys) {
    |y.rings| == 3 && Holding(y.rings[0], 0) && Holding(y.rings[1], 0) && Holding(y.rings[2], 0)
  }

  /** What a message's way through a queue may change. */
  predicate OnlyHops(y: Sys, y': Sys) {
    y' == y.(rings := y'.rings, place := y'.place, sent := y'.sent, answer := y'.answer)
  }

  lemma LinkAt(y: Sys, q: nat)
    requires PipeOk(y) && q < 3
    ensures RingOk(y.rings[q]) && LinkOk(q, y.rings[q], y.place)
  {
    hide DataOk, RingOk, LinkOk;
  }

  /** The first half of the way: the id ends up queued. */
  lemma {:induction false} SendThrough(y: Sys, q: nat, id: nat) returns (run: seq<Event>)
    requires PipeOk(y) && q < 3 && Holding(y.rings[q], 0) && id < IDS
    requires y.place[id].Held? && Route(y.place[id].who, q)
    ensures var y' := Pipeline.Exec(y, run);
            && PipeOk(y') && OnlyHops(y, y') && |y'.rings| == 3 && |y'.place| == IDS
            && (forall p: nat :: p < 3 && p != q ==> y'.rings[p] == y.rings[p])
            && Holding(y'.rings[q], 1) && y'.place[id].Queued? && y'.place[id].q == q
  {
    hide Step, RingsOk, DataOk, RingOk;
    LinkAt(y, q);
    EnqueueOne(y.rings[q], id);
    var e := Send(q, 1, id);
    var y1 := DoSend(y, q, 1, id);
    SendStarts(y, q, id);
    NextKeeps(y, e);
    RunSteps(y1, q, 1, id, OPERATION);
    var y2 := Pipeline.Exec(y1, Steps(q, 1, OPERATION));
    run := [e] + Steps(q, 1, OPERATION);
    ExecOne(y, e);
    ExecConcat(y, [e], Steps(q, 1, OPERATION));
    LinkAt(y2, q);
    assert y2.rings[q].log[|y.rings[q].log|].id == id;
  }

  lemma SendStarts(y: Sys, q: nat, id: nat)
    requires Shape(y) && q < 3 && AllRest(y.rings[q]) && id < IDS
    requires y.place[id].Held? && Route(y.place[id].who, q)
    ensures var y' := DoSend(y, q, 1, id);
            && OnlyHops(y, y') && |y'.rings| == 3 && |y'.place| == IDS
            && y'.rings == y.rings[q := Apply(RPC, y.rings[q], BeginEnqueue(1, Item(id, [])))]
  {
    hide Apply;
  }

  lemma ExecOne(y: Sys, e: Event)
    requires Shape(y)
    ensures Pipeline.Exec(y, [e]) == Next(y, e)
  {
    hide Next;
    assert [e][..0] == [];
  }

  /** The second half: the receiver gets it. */
  lemma {:induction false} ReceiveThrough(y: Sys, q: nat, id: nat) returns (run: seq<Event>)
    requires PipeOk(y) && q < 3 && Holding(y.rings[q], 1) && id < IDS && y.place[id].Queued? && y.place[id].q == q
    ensures var y' := Pipeline.Exec(y, run);
            && PipeOk(y') && OnlyHops(y, y') && |y'.rings| == 3 && |y'.place| == IDS
            && (forall p: nat :: p < 3 && p != q ==> y'.rings[p] == y.rings[p])
            && Holding(y'.rings[q], 0) && y'.place[id] == Held(ReceiverOf(q))
  {
    hide Step, RingsOk, DataOk, RingOk, Apply;
    LinkAt(y, q);
    DequeueOne(y.rings[q]);
    var e := Receive(q);
    var y1 := DoReceive(y, q);
    NextKeeps(y, e);
    assert AllRest(y.rings[q]);
    BeginKeeps(y.rings[q]);
    RunSteps(y1, q, 0, id, OPERATION);
    var y2 := Pipeline.Exec(y1, Steps(q, 0, OPERATION));
    run := [e] + Steps(q, 0, OPERATION);
    ExecOne(y, e);
    ExecConcat(y, [e], Steps(q, 0, OPERATION));
    LinkAt(y2, q);
  }

  lemma BeginKeeps(s: State)
    ensures |Apply(RPC, s, BeginDequeue(0)).threads| == |s.threads|
  {
  }

  lemma {:induction false} Hop(y: Sys, q: nat, id: nat) returns (run: seq<Event>)
    requires PipeOk(y) && Calm(y) && q < 3 && id < IDS && y.place[id].Held? && Route(y.place[id].who, q)
    ensures var y' := Pipeline.Exec(y, run);
            PipeOk(y') && OnlyHops(y, y') && Calm(y') && |y'.place| == IDS && y'.place[id] == Held(ReceiverOf(q))
  {
    hide RingsOk, DataOk, Holding, Route;
    var out := SendThrough(y, q, id);
    var y1 := Pipeline.Exec(y, out);
    var back := ReceiveThrough(y1, q, id);
    run := out + back;
    ExecConcat(y, out, back);
  }

  /* ---------------------------------------------------------------- a whole request */

  /** Nothing is in flight, queued or lent. */
  predicate AtRest(y: Sys) { Calm(y) && y.lent == {} }

  /** A pipeline with a producer thread for each queue starts at rest. */
  lemma StartsAtRest(threads: nat)
    requires threads > 0
    ensures AtRest(Pipeline.Init(threads))
  {
  }

  /** At rest every slot is free, and a request lends a buffer and puts it into the driver's hand. */
  lemma {:induction false} Begins(y: Sys, e: Event) returns (id: nat)
    requires PipeOk(y) && AtRest(y) && e.Start? && e.slot < 32
    ensures var y' := Next(y, e);
            && PipeOk(y') && y'.rings == y.rings && id < 32 && y'.place[id] == Held(Requester) && y'.lent == {id}
            && |y'.status| == |y.status| + 1 && y'.ran == y.ran && y'.request[id] == |y.status|
  {
    hide RingsOk, ContentsOk, MmioMr0, SlotOf, OpOf, Holding;
    NextKeeps(y, e);
    SlotFree(y, e.slot);
    BufferLeft(y, e.slot);
    id := Bitmap.LowestFree(y.lent, 0, IDS);
  }

  lemma SlotFree(y: Sys, slot: nat)
    requires PipeOk(y) && y.lent == {} && slot < SLOTS
    ensures y.callback[slot].None?
  {
    hide RingsOk, ContentsOk, SlotOf, OpOf;
  }

  /** An answer is written by whoever holds the message. */
  lemma Writes(y: Sys, id: nat, data: nat)
    requires PipeOk(y) && id < IDS && (y.place[id] == Held(Kernel) || y.place[id] == Held(Device))
    ensures var y' := Next(y, Write(id, data));
            && PipeOk(y') && y' == y.(msgs := y'.msgs) && |y'.msgs| == IDS && y'.msgs[id].mr2 == data
  {
    hide RingsOk, DataOk;
    NextKeeps(y, Write(id, data));
  }

  /** Processing ends the request. */
  lemma Finishes(y: Sys, id: nat)
    requires PipeOk(y) && id < IDS && y.place[id] == Held(Processor)
    ensures var y' := Next(y, Finish(id));
            && PipeOk(y') && y'.rings == y.rings && y'.lent == y.lent - {id} && |y'.status| == |y.status|
            && y'.ran == y.ran + [Completion(y.request[id], y.msgs[id].mr2)]
  {
    hide RingsOk, SlotOf, OpOf;
    NextKeeps(y, Finish(id));
    FinishFinds(y, id);
  }

  /** From rest, for every request and every answer, there is a run that serves the request, by the kernel
      module or by the device, calls its continuation with the answer, and comes to rest again. */
  lemma {:induction false} Served(y: Sys, e: Event, byDevice: bool, data: nat) returns (run: seq<Event>)
    requires Reachable(y) && AtRest(y) && e.Start? && e.slot < 32
    ensures Shape(y) && |run| > 0 && run[0] == e
    ensures var y' := Pipeline.Exec(y, run);
            && Reachable(y') && AtRest(y')
            && |y'.status| == |y.status| + 1 && y'.ran == y.ran + [Completion(|y.status|, data)]
  {
    hide Reachable, RingsOk, DataOk, Holding, Next;
    ReachableOk(y);
    var id := Begins(y, e);
    var y1 := Next(y, e);
    var toKernel := Hop(y1, 0, id);
    var y2 := Pipeline.Exec(y1, toKernel);
    var onward := [];
    if byDevice { onward := Hop(y2, 1, id); }
    var y3 := Pipeline.Exec(y2, onward);
    Writes(y3, id, data);
    var y4 := Next(y3, Write(id, data));
    var back := Hop(y4, 2, id);
    var y5 := Pipeline.Exec(y4, back);
    Finishes(y5, id);
    run := [e] + (toKernel + (onward + ([Write(id, data)] + (back + [Finish(id)]))));
    ExecOne(y, e);
    ExecOne(y3, Write(id, data));
    ExecOne(y5, Finish(id));
    ExecConcat(y, [e], toKernel + (onward + ([Write(id, data)] + (back + [Finish(id)]))));
    ExecConcat(y1, toKernel, onward + ([Write(id, data)] + (back + [Finish(id)])));
    ExecConcat(y2, onward, [Write(id, data)] + (back + [Finish(id)]));
    ExecConcat(y3, [Write(id, data)], back + [Finish(id)]);
    ExecConcat(y4, back, [Finish(id)]);
    ReachableExec(y, run);
  }
}
