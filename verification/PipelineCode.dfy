/** The events of the pipeline are what the program's code does: a start is ioreq_start with
    rpcmsg_request, and a finish is one round of rpc_run on a response. */
module PipelineCode {
  import opened Options
  import opened Packing
  import opened Pipeline
  import opened PipelineSafety
  import opened PipelineTheorems
  import Bitmap
  import Rpc
  import IoProxy
  import Glue
  import GlueTheorems

  /** The code's slots are busy exactly where the pipeline's are. */
  ghost predicate Agree(y: Sys, a: IoProxy.Acks)
    requires Shape(y)
  {
    |a.waiting| == 32 && forall t: nat :: t < 32 ==> (a.waiting[t].Some? <==> y.callback[t].Some?)
  }

  /** On a free slot, in a reachable state, the code lends and fills the very buffer that the pipeline
      does, and queues its id, which the pipeline then has in the hand of the requester. */
  lemma StartIsCode(y: Sys, e: Event, a: IoProxy.Acks, w: IoProxy.Waiter, r: Rpc.Requests)
    requires Reachable(y) && Shape(y) && e.Start? && e.slot < 32 && y.callback[e.slot].None?
    requires Agree(y, a) && r.messages == y.msgs && r.lent == y.lent && |r.queued| < 32
    ensures Bitmap.LowestFree(r.lent, 0, Bitmap.BUFFERS) < Bitmap.BUFFERS
    ensures var m := Message(MmioMr0(e.direction, e.space, e.len, e.slot), e.addr, e.data, 0);
            var r', y' := Rpc.Send(r, m), DoStart(y, e);
            && r'.messages == y'.msgs && r'.lent == y'.lent
            && Agree(y', IoProxy.Store(a, e.slot, w))
            && r'.queued == r.queued + [y'.carrier[e.slot]] && y'.carrier[e.slot] < IDS
            && y'.place[y'.carrier[e.slot]] == Held(Requester)
  {
    hide Reachable, MmioMr0;
    BufferFound(y, e.slot);
  }

  /** A write to a message in hand changes the messages as driver_rpc_ack_mmio_finish does: the third word
      of that message is the answer, and nothing else has changed. */
  lemma WriteIsCode(y: Sys, id: nat, data: nat)
    requires Shape(y) && id < 32 && (y.place[id] == Held(Kernel) || y.place[id] == Held(Device))
    ensures var m := y.msgs[id];
            Next(y, Write(id, data)) == y.(msgs := y.msgs[id := Message(m.mr0, m.mr1, data, m.mr3)])
  {
  }

  /** A response in hand, in a reachable state, meets the assertions of the code and succeeds; the
      code then calls the continuation stored in the slot with the data that the pipeline records,
      and slots and bitmap agree again. */
  lemma FinishIsCode(y: Sys, id: nat, env: Glue.Env, v: Glue.Vmm)
    requires Reachable(y) && Shape(y) && id < IDS && y.place[id] == Held(Processor)
    requires Glue.Shape(v) && Agree(y, v.acks)
    ensures Glue.Sound(v, y.msgs[id]) && SlotOf(y.msgs[id]) < SLOTS
    ensures var (v', rc) := Glue.Process(env, v, y.msgs[id]); var y' := DoFinish(y, id);
            && rc == 0 && Agree(y', v'.acks) && y'.lent == y.lent - {id}
            && y'.ran != [] && v.acks.waiting[SlotOf(y.msgs[id])].Some?
            && v'.acks.calls == v.acks.calls +
                 [IoProxy.Call(v.acks.waiting[SlotOf(y.msgs[id])].value, y'.ran[|y'.ran| - 1].data)]
  {
    hide Reachable, Glue.Process, GetField;
    ReachableOk(y);
    FinishCalls(y, id);
    GlueTheorems.Routes(env, v, y.msgs[id]);
  }

  lemma FinishCalls(y: Sys, id: nat)
    requires PipeOk(y) && id < IDS && y.place[id] == Held(Processor)
    ensures var slot := SlotOf(y.msgs[id]);
            && IsMmio(y.msgs[id]) && slot < SLOTS && y.callback[slot].Some?
            && DoFinish(y, id).callback == y.callback[slot := None] && DoFinish(y, id).lent == y.lent - {id}
            && DoFinish(y, id).ran == y.ran + [Completion(y.callback[slot].value, y.msgs[id].mr2)]
  {
    hide RingsOk, GetField;
    assert Serves(y, id);
  }
}
