/** The life of a message in the pipeline: which event moves its id from where to where. */
module PipelineLife {
  import opened Ring
  import opened RingSafety
  import opened RingUse
  import opened Packing
  import opened Options
  import opened Pipeline
  import opened PipelineSafety
  import opened PipelineTheorems
  import RingData
  import Bitmap

  /** Who sends where: the driver to the kernel module, the kernel module on to the device or back to the
      driver, and the device back to the driver. */
  predicate Route(who: Role, q: nat) {
    (who == Requester && q == 0) || (who == Kernel && (q == 1 || q == 2)) || (who == Device && q == 2)
  }

  /** Who receives from queue 0, 1 and 2. */
  function ReceiverOf(q: nat): Role { if q == 0 then Kernel else if q == 1 then Device else Processor }

  /** Whether a state differs from another in rings and places only. */
  predicate OnlyMoves(y: Sys, y': Sys) {
    y' == y.(rings := y'.rings, place := y'.place)
  }

  /** A step inside a queue takes an id in, hands one out, or moves none. */
  lemma RunLife(y: Sys, q: nat, i: nat)
    requires PipeOk(y) && q < 3 && i < |y.rings[q].threads|
    ensures var s := y.rings[q]; var id := s.threads[i].item.id; var y' := DoRun(y, q, i);
            && OnlyMoves(y, y') && y'.rings == y.rings[q := Step(RPC, s, i)]
            && (y'.place == y.place
                || (id < IDS && SentBy(y.place[id], q, i) && y'.place == y.place[id := Queued(q, s.prod.tail.pos)])
                || (id < IDS && i == 0 && y.place[id] == Queued(q, s.cons.head.pos)
                    && y'.place == y.place[id := Held(ReceiverOf(q))]))
  {
    hide Step, DataOk, Reserves, Publishes, Refuses, RingOk, LinkOk;
    var s := y.rings[q];
    assert RingOk(s) && LinkOk(q, s, y.place);
    RunShape(y, q, i);
    if s.threads[i].side.Prod? && Reserves(s, i) {
      RingTakeIn(q, s, y.place, i);
    } else if s.threads[i].side.Cons? && Publishes(s, i) {
      RingHandOut(q, s, y.place, i);
      OnlyConsumer(s, i);
    } else {
      RingQuiet(q, s, y.place, i);
    }
  }

  lemma OnlyConsumer(s: State, i: nat)
    requires RingOk(s) && i < |s.threads| && s.threads[i].side.Cons?
    ensures i == 0
  {
    hide RingData.Inv;
  }

  /** The moves that an event may make of an id. */
  predicate LegalMove(e: Event, id: nat, from: Place, to: Place) {
    match from
    case Free => e.Start? && to == Held(Requester)
    case Held(who) =>
      || (e == Finish(id) && who == Processor && to == Free)
      || (e.Send? && e.id == id && Route(who, e.q) && to == Sending(e.q, e.i, who))
    case Sending(q, i, _) => e == RunThread(q, i) && to.Queued? && to.q == q
    case Queued(q, _) => e == RunThread(q, 0) && to == Held(ReceiverOf(q))
  }

  lemma Moves(y: Sys, e: Event, id: nat)
    requires PipeOk(y) && id < IDS && Next(y, e).place[id] != y.place[id]
    ensures LegalMove(e, id, y.place[id], Next(y, e).place[id])
  {
    hide Step, Apply, RingsOk, DataOk, GetField;
    match e
    case Start(slot, _, _, _, _, _) => StartMoves(y, e, id);
    case RunThread(q, i) =>
      if q < 3 && i < |y.rings[q].threads| { RunLife(y, q, i); }
    case _ =>
  }

  /** There are no other moves, in any reachable state: an id goes from free to the driver, from a holder
      into a queue on its route, out of the queue to the receiver, and back to free when processed. */
  lemma LifeCycle(y: Sys, e: Event, id: nat)
    requires Reachable(y) && Shape(y) && id < IDS && Next(y, e).place[id] != y.place[id]
    ensures LegalMove(e, id, y.place[id], Next(y, e).place[id])
  {
    hide Reachable, Next, LegalMove;
    ReachableOk(y);
    Moves(y, e, id);
  }

  lemma StartMoves(y: Sys, e: Event, id: nat)
    requires PipeOk(y) && e.Start? && id < IDS && Next(y, e).place[id] != y.place[id]
    ensures y.place[id] == Free && Next(y, e).place[id] == Held(Requester)
  {
    hide RingsOk, SlotsOk, ContentsOk, HistoryOk, MmioMr0;
    if e.slot < SLOTS && y.callback[e.slot].None? { assert Bitmap.LowestFree(y.lent, 0, IDS) !in y.lent; }
  }
}
