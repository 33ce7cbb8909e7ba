/** What every event of the pipeline keeps. */
module PipelineSafety {
  import opened Finite
  import opened Ring
  import opened RingSafety
  import opened RingUse
  import opened Pipeline
  import RingData
  import opened Options
  import opened Packing
  import Bitmap
  import Bits

  /* ---------------------------------------------------------------- the invariant */

  ghost predicate RingOk(s: State) { RingData.Inv(RPC, s) && OneConsumer(s) }

  /** Queue q and the recorded places agree: an entry not yet released, or a thread that enqueues,
      carries an id exactly when the id is recorded there. */
  ghost predicate LinkOk(q: nat, s: State, place: seq<Place>) {
    && (forall p: nat :: s.cons.head.pos <= p < |s.log| ==>
          s.log[p].id < |place| && place[s.log[p].id] == Queued(q, p))
    && (forall i: nat :: i < |s.threads| && Sends(s.threads[i]) ==>
          s.threads[i].item.id < |place| && SentBy(place[s.threads[i].item.id], q, i))
    && (forall id: nat :: id < |place| && place[id].Queued? && place[id].q == q ==>
          s.cons.head.pos <= place[id].p < |s.log| && s.log[place[id].p].id == id)
    && (forall id: nat :: id < |place| && place[id].Sending? && place[id].q == q ==>
          place[id].i < |s.threads| && Sends(s.threads[place[id].i]) && s.threads[place[id].i].item.id == id)
  }

  predicate SentBy(p: Place, q: nat, i: nat) { p.Sending? && p.q == q && p.i == i }

  predicate Elsewhere(p: Place, q: nat) { (p.Sending? || p.Queued?) ==> p.q != q }

  predicate InTransit(p: Place) { p.Sending? || p.Queued? }

  /** The message holds its answer: it is on its way back, or has arrived. */
  predicate Answered(p: Place) {
    match p
    case Sending(q, _, _) => q == RESPONSE
    case Queued(q, _) => q == RESPONSE
    case Held(who) => who == Processor
    case Free => false
  }

  ghost predicate PlacesOk(place: seq<Place>) {
    forall id: nat :: id < |place| ==>
      && (place[id].Sending? ==> place[id].q < 3 && MaySend(place[id].who, place[id].q))
      && (place[id].Queued? ==> place[id].q < 3)
  }

  ghost predicate LentOk(y: Sys) {
    && (forall id: nat :: id < |y.place| ==> (id in y.lent <==> y.place[id] != Free))
    && (forall id :: id in y.lent ==> id < |y.place|)
  }

  predicate IsMmio(m: Message) { OpOf(m) == OP_MMIO }

  /** A lent message names the slot whose continuation is the one of its request. */
  ghost predicate Serves(y: Sys, id: nat)
    requires Shape(y) && id < IDS
  {
    && SlotOf(y.msgs[id]) < SLOTS && IsMmio(y.msgs[id])
    && y.callback[SlotOf(y.msgs[id])] == Some(y.request[id])
    && y.carrier[SlotOf(y.msgs[id])] == id
  }

  /** A stored continuation is served by exactly one lent message. */
  ghost predicate SlotsOk(y: Sys)
    requires Shape(y)
  {
    && (forall id: nat :: id < IDS && y.place[id] != Free ==> Serves(y, id))
    && (forall t: nat :: t < SLOTS && y.callback[t].Some? ==>
          y.carrier[t] < IDS && y.place[y.carrier[t]] != Free && SlotOf(y.msgs[y.carrier[t]]) == t)
  }

  ghost predicate ContentsOk(y: Sys)
    requires Shape(y)
  {
    && (forall id: nat :: id < IDS && InTransit(y.place[id]) ==> y.msgs[id] == y.sent[id])
    && (forall id: nat :: id < IDS && Answered(y.place[id]) ==>
          y.request[id] in y.answer && y.answer[y.request[id]] == y.msgs[id].mr2)
  }

  ghost predicate HistoryOk(y: Sys)
    requires Shape(y)
  {
    && (forall t: nat :: t < SLOTS && y.callback[t].Some? ==>
          y.callback[t].value < |y.status| && y.status[y.callback[t].value] == Pending(t))
    && (forall r: nat :: r < |y.status| && y.status[r].Pending? ==>
          y.status[r].slot < SLOTS && y.callback[y.status[r].slot] == Some(r))
    && (forall r: nat :: r < |y.status| && y.status[r].Done? ==>
          y.status[r].k < |y.ran| && y.ran[y.status[r].k].request == r)
    && (forall k: nat :: k < |y.ran| ==>
          && y.ran[k].request < |y.status| && y.status[y.ran[k].request] == Done(k)
          && y.ran[k].request in y.answer && y.ran[k].data == y.answer[y.ran[k].request])
  }

  ghost predicate RingsOk(y: Sys)
    requires Shape(y)
  {
    forall q: nat :: q < 3 ==> RingOk(y.rings[q]) && LinkOk(q, y.rings[q], y.place)
  }

  ghost predicate DataOk(y: Sys)
    requires Shape(y)
  {
    PlacesOk(y.place) && LentOk(y) && SlotsOk(y) && ContentsOk(y) && HistoryOk(y) && !y.crashed
  }

  ghost predicate PipeOk(y: Sys) {
    Shape(y) && RingsOk(y) && DataOk(y)
  }

  lemma PipeInit(threads: nat)
    ensures PipeOk(Pipeline.Init(threads))
  {
    RingData.InvInit(RPC, threads + 1);
  }

  /* ---------------------------------------------------------------- the queues */

  /** Another queue does not notice where this one moves an id. */
  lemma LinkElsewhere(q: nat, s: State, place: seq<Place>, id: nat, p: Place)
    requires LinkOk(q, s, place) && id < |place|
    requires Elsewhere(place[id], q) && Elsewhere(p, q)
    ensures LinkOk(q, s, place[id := p])
  {
  }

  /** A step inside queue q that carries no id across its border. */
  lemma LinkQuiet(q: nat, s: State, s': State, place: seq<Place>, i: nat)
    requires LinkOk(q, s, place) && i < |s.threads| == |s'.threads|
    requires s'.threads == s.threads[i := s'.threads[i]]
    requires s'.log == s.log && s'.cons.head == s.cons.head
    requires Sends(s'.threads[i]) == Sends(s.threads[i])
    requires Sends(s.threads[i]) ==> s'.threads[i].item == s.threads[i].item
    ensures LinkOk(q, s', place)
  {
  }

  /** An enqueueing thread gets its entry. */
  lemma LinkTakeIn(q: nat, s: State, s': State, place: seq<Place>, i: nat)
    requires LinkOk(q, s, place) && i < |s.threads| == |s'.threads| && Sends(s.threads[i])
    requires s.cons.head.pos <= |s.log|
    requires s'.threads == s.threads[i := s'.threads[i]] && !Sends(s'.threads[i])
    requires s'.log == s.log + [s.threads[i].item] && s'.cons.head == s.cons.head
    ensures s.threads[i].item.id < |place|
    ensures LinkOk(q, s', place[s.threads[i].item.id := Queued(q, |s.log|)])
  {
  }

  /** The consumer takes the oldest entry out. */
  lemma LinkHandOut(q: nat, s: State, s': State, place: seq<Place>, i: nat, who: Role)
    requires LinkOk(q, s, place) && i < |s.threads| == |s'.threads|
    requires s'.threads == s.threads[i := s'.threads[i]] && !Sends(s'.threads[i]) && !Sends(s.threads[i])
    requires s'.log == s.log && s.cons.head.pos < |s.log| && s'.cons.head.pos == s.cons.head.pos + 1
    ensures s.log[s.cons.head.pos].id < |place|
    ensures LinkOk(q, s', place[s.log[s.cons.head.pos].id := Held(who)])
  {
  }

  /** A thread begins to enqueue an id that is in no queue. */
  lemma LinkSend(q: nat, s: State, s': State, place: seq<Place>, i: nat, id: nat, who: Role)
    requires LinkOk(q, s, place) && i < |s.threads| == |s'.threads| && !Sends(s.threads[i])
    requires id < |place| && place[id].Held?
    requires s'.threads == s.threads[i := s'.threads[i]] && Sends(s'.threads[i]) && s'.threads[i].item.id == id
    requires s'.log == s.log && s'.cons.head == s.cons.head
    ensures LinkOk(q, s', place[id := Sending(q, i, who)])
  {
  }

  /** No enqueueing thread is ever turned down: the waiting entries and the id it carries are
      different ids, of which there are only as many as entries. */
  lemma NeverRefused(q: nat, s: State, place: seq<Place>, i: nat)
    requires RingOk(s) && LinkOk(q, s, place) && |place| == IDS && i < |s.threads|
    ensures !Refuses(RPC, s, i)
  {
    if s.threads[i].side.Prod? && s.threads[i].phase.Check? {
      var id := s.threads[i].item.id;
      forall p: nat | s.cons.head.pos <= p < |s.log| ensures s.log[p].id < RPC.n && s.log[p].id != id {
        assert place[s.log[p].id] == Queued(q, p);
        assert SentBy(place[id], q, i);
      }
      RoomLeft(RPC, s, id);
      assert LocalOk(RPC, s.prod, s.threads[i]);
    }
  }

  /* ---------------------------------------------------------------- events inside a queue */

  /** Queue q changes to s', and id moves within it, into it or out of it. */
  lemma RingsMove(y: Sys, q: nat, s': State, id: nat, p: Place)
    requires Shape(y) && RingsOk(y) && q < 3 && id < IDS
    requires RingOk(s') && LinkOk(q, s', y.place[id := p])
    requires forall r: nat :: r < 3 && r != q ==> Elsewhere(y.place[id], r) && Elsewhere(p, r)
    ensures RingsOk(y.SetRing(q, s').Move(id, p))
  {
    forall r: nat | r < 3 && r != q ensures LinkOk(r, y.rings[r], y.place[id := p]) {
      LinkElsewhere(r, y.rings[r], y.place, id, p);
    }
  }

  lemma RingsStay(y: Sys, q: nat, s': State)
    requires Shape(y) && RingsOk(y) && q < 3 && RingOk(s') && LinkOk(q, s', y.place)
    ensures RingsOk(y.SetRing(q, s'))
  {
  }

  /** Moving a lent id, without it becoming free, in transit or answered by the move. */
  lemma DataMove(y: Sys, q: nat, s': State, id: nat, p: Place)
    requires Shape(y) && DataOk(y) && q < 3 && id < IDS
    requires y.place[id] != Free && p != Free
    requires InTransit(p) ==> InTransit(y.place[id])
    requires Answered(p) ==> Answered(y.place[id])
    requires p.Sending? ==> p.q < 3 && MaySend(p.who, p.q)
    requires p.Queued? ==> p.q < 3
    ensures DataOk(y.SetRing(q, s').Move(id, p))
  {
    var y' := y.SetRing(q, s').Move(id, p);
    forall j: nat | j < IDS && y'.place[j] != Free ensures Serves(y', j) {
      assert Serves(y, j);
    }
  }

  lemma DataStay(y: Sys, q: nat, s': State)
    requires Shape(y) && DataOk(y) && q < 3
    ensures DataOk(y.SetRing(q, s'))
  {
    var y' := y.SetRing(q, s');
    forall j: nat | j < IDS && y'.place[j] != Free ensures Serves(y', j) {
      assert Serves(y, j);
    }
  }

  lemma RingOkStep(s: State, a: Action)
    requires RingOk(s) && Allowed(a)
    ensures RingOk(Apply(RPC, s, a))
  {
    RingData.InvStep(RPC, s, a);
    OneConsumerStep(RPC, s, a);
  }

  lemma RingOkRun(s: State, i: nat)
    requires RingOk(s) && i < |s.threads|
    ensures RingOk(Step(RPC, s, i))
  {
    RingOkStep(s, Run(i));
    assert Apply(RPC, s, Run(i)) == Step(RPC, s, i);
  }

  /** A queued or sending id moves on: to an entry, or to the receiver of the queue. */
  lemma MoveKeeps(y: Sys, q: nat, s': State, id: nat, p: Place)
    requires PipeOk(y) && q < 3 && id < IDS && InTransit(y.place[id]) && y.place[id].q == q
    requires p == Held(Receiver(q)) || (p.Queued? && p.q == q)
    requires RingOk(s') && LinkOk(q, s', y.place[id := p])
    ensures PipeOk(y.SetRing(q, s').Move(id, p))
  {
    hide RingOk, LinkOk;
    RingsMove(y, q, s', id, p);
    DataMove(y, q, s', id, p);
  }

  /** The three kinds of step, for one queue. */
  lemma RingTakeIn(q: nat, s: State, place: seq<Place>, i: nat)
    requires RingOk(s) && LinkOk(q, s, place) && i < |s.threads| && s.threads[i].side.Prod? && Reserves(s, i)
    ensures var id := s.threads[i].item.id;
            && id < |place| && SentBy(place[id], q, i) && RingOk(Step(RPC, s, i))
            && LinkOk(q, Step(RPC, s, i), place[id := Queued(q, s.prod.tail.pos)])
  {
    RingOkRun(s, i);
    TakeIn(RPC, s, i);
    LinkTakeIn(q, s, Step(RPC, s, i), place, i);
  }

  lemma RingHandOut(q: nat, s: State, place: seq<Place>, i: nat)
    requires RingOk(s) && LinkOk(q, s, place) && i < |s.threads| && s.threads[i].side.Cons? && Publishes(s, i)
    ensures var id := s.threads[i].item.id;
            && id < |place| && place[id] == Queued(q, s.cons.head.pos) && RingOk(Step(RPC, s, i))
            && LinkOk(q, Step(RPC, s, i), place[id := Held(Receiver(q))])
  {
    RingOkRun(s, i);
    HandOut(RPC, s, i);
    LinkHandOut(q, s, Step(RPC, s, i), place, i, Receiver(q));
  }

  lemma RingQuiet(q: nat, s: State, place: seq<Place>, i: nat)
    requires RingOk(s) && LinkOk(q, s, place) && |place| == IDS && i < |s.threads|
    requires !(s.threads[i].side.Prod? && Reserves(s, i)) && !(s.threads[i].side.Cons? && Publishes(s, i))
    ensures RingOk(Step(RPC, s, i)) && LinkOk(q, Step(RPC, s, i), place) && !Refuses(RPC, s, i)
  {
    RingOkRun(s, i);
    NeverRefused(q, s, place, i);
    if Reserves(s, i) || Publishes(s, i) { OtherSwaps(RPC, s, i); } else { QuietUse(RPC, s, i); }
    LinkQuiet(q, s, Step(RPC, s, i), place, i);
  }

  lemma RunShape(y: Sys, q: nat, i: nat)
    requires Shape(y) && q < 3 && i < |y.rings[q].threads|
    ensures var s := y.rings[q]; var id := s.threads[i].item.id; var y1 := y.SetRing(q, Step(RPC, s, i));
            && (s.threads[i].side.Prod? && Reserves(s, i) && id < IDS ==>
                  DoRun(y, q, i) == y1.Move(id, Queued(q, s.prod.tail.pos)))
            && (s.threads[i].side.Cons? && Publishes(s, i) && id < IDS ==>
                  DoRun(y, q, i) == y1.Move(id, Held(Receiver(q))))
            && ((s.threads[i].side.Prod? && Reserves(s, i)) || (s.threads[i].side.Cons? && Publishes(s, i))
                || Refuses(RPC, s, i) || DoRun(y, q, i) == y1)
  {
  }

  lemma RunTakeIn(y: Sys, q: nat, i: nat)
    requires PipeOk(y) && q < 3 && i < |y.rings[q].threads|
    requires y.rings[q].threads[i].side.Prod? && Reserves(y.rings[q], i)
    ensures PipeOk(DoRun(y, q, i))
  {
    var s := y.rings[q];
    assert RingOk(s) && LinkOk(q, s, y.place);
    RingTakeIn(q, s, y.place, i);
    RunShape(y, q, i);
    MoveKeeps(y, q, Step(RPC, s, i), s.threads[i].item.id, Queued(q, s.prod.tail.pos));
  }

  lemma RunHandOut(y: Sys, q: nat, i: nat)
    requires PipeOk(y) && q < 3 && i < |y.rings[q].threads|
    requires y.rings[q].threads[i].side.Cons? && Publishes(y.rings[q], i)
    ensures PipeOk(DoRun(y, q, i))
  {
    var s := y.rings[q];
    assert RingOk(s) && LinkOk(q, s, y.place);
    RingHandOut(q, s, y.place, i);
    RunShape(y, q, i);
    MoveKeeps(y, q, Step(RPC, s, i), s.threads[i].item.id, Held(Receiver(q)));
  }

  lemma RunQuiet(y: Sys, q: nat, i: nat)
    requires PipeOk(y) && q < 3 && i < |y.rings[q].threads|
    requires !(y.rings[q].threads[i].side.Prod? && Reserves(y.rings[q], i))
    requires !(y.rings[q].threads[i].side.Cons? && Publishes(y.rings[q], i))
    ensures PipeOk(DoRun(y, q, i))
  {
    var s := y.rings[q];
    assert RingOk(s) && LinkOk(q, s, y.place);
    RingQuiet(q, s, y.place, i);
    RunShape(y, q, i);
    RingsStay(y, q, Step(RPC, s, i));
    DataStay(y, q, Step(RPC, s, i));
  }

  lemma ReceiveKeeps(y: Sys, q: nat)
    requires PipeOk(y)
    ensures PipeOk(DoReceive(y, q))
  {
    hide GetField, DataOk;
    if q < 3 {
      var s := y.rings[q];
      var s' := Apply(RPC, s, BeginDequeue(0));
      assert RingOk(s) && LinkOk(q, s, y.place);
      RingOkStep(s, BeginDequeue(0));
      assert s'.threads == s.threads[0 := s'.threads[0]];
      LinkQuiet(q, s, s', y.place, 0);
      RingsStay(y, q, s');
      DataStay(y, q, s');
    }
  }

  /* ---------------------------------------------------------------- events of the holders */

  lemma SendKeeps(y: Sys, q: nat, i: nat, id: nat)
    requires PipeOk(y)
    ensures PipeOk(DoSend(y, q, i, id))
  {
    var y' := DoSend(y, q, i, id);
    if y' != y {
      var s, who := y.rings[q], y.place[id].who;
      SendRing(q, s, y.place, i, id, who);
      RingsMove(y, q, Apply(RPC, s, BeginEnqueue(i, Item(id, []))), id, Sending(q, i, who));
      SendData(y, q, i, id);
    }
  }

  lemma SendRing(q: nat, s: State, place: seq<Place>, i: nat, id: nat, who: Role)
    requires RingOk(s) && LinkOk(q, s, place) && 0 < i < |s.threads| && s.threads[i].Resting()
    requires id < |place| && place[id].Held?
    ensures var s' := Apply(RPC, s, BeginEnqueue(i, Item(id, [])));
            RingOk(s') && LinkOk(q, s', place[id := Sending(q, i, who)])
  {
    RingOkStep(s, BeginEnqueue(i, Item(id, [])));
    LinkSend(q, s, Apply(RPC, s, BeginEnqueue(i, Item(id, []))), place, i, id, who);
  }

  /** Handing a message over fixes its contents, and for a reply the answer to its request. */
  lemma SendData(y: Sys, q: nat, i: nat, id: nat)
    requires PipeOk(y) && DoSend(y, q, i, id) != y
    ensures DataOk(DoSend(y, q, i, id))
  {
    hide RingsOk, SlotOf, IsMmio;
    var y' := DoSend(y, q, i, id);
    assert Serves(y, id);
    forall j: nat | j < IDS && y'.place[j] != Free ensures Serves(y', j) {
      assert Serves(y, j);
    }
    SendAnswers(y, q, i, id);
  }

  /** An answer recorded for one request touches no other request, and no finished one. */
  lemma SendAnswers(y: Sys, q: nat, i: nat, id: nat)
    requires PipeOk(y) && DoSend(y, q, i, id) != y
    ensures ContentsOk(DoSend(y, q, i, id)) && HistoryOk(DoSend(y, q, i, id))
  {
    hide RingsOk, SlotOf, IsMmio;
    var y' := DoSend(y, q, i, id);
    assert Serves(y, id);
    forall j: nat | j < IDS && Answered(y'.place[j])
      ensures y'.request[j] in y'.answer && y'.answer[y'.request[j]] == y'.msgs[j].mr2 {
      if j != id { assert Serves(y, j); }
    }
  }

  lemma WriteKeeps(y: Sys, id: nat, data: nat)
    requires PipeOk(y)
    ensures PipeOk(DoWrite(y, id, data))
  {
    hide RingOk, LinkOk, GetField;
    var y' := DoWrite(y, id, data);
    forall j: nat | j < IDS && y'.place[j] != Free ensures Serves(y', j) {
      assert Serves(y, j);
    }
  }

  /* ---------------------------------------------------------------- start and finish */

  /** Numbers with slots of their own, all but one slot at most. */
  lemma {:induction false} Pigeonhole(ids: set<nat>, slots: map<nat, nat>, slot: nat)
    requires slots.Keys == ids && slot < SLOTS
    requires forall a :: a in slots ==> slots[a] < SLOTS && slots[a] != slot
    requires forall a, b :: a in slots && b in slots && slots[a] == slots[b] ==> a == b
    ensures |ids| < SLOTS
  {
    InjectiveSize(slots);
    SubsetSize(slots.Values, UpTo(SLOTS) - {slot});
  }

  /** A free slot leaves a free message: every lent message serves a slot of its own. */
  lemma {:induction false} BufferLeft(y: Sys, slot: nat)
    requires Shape(y) && LentOk(y) && SlotsOk(y) && slot < SLOTS && y.callback[slot].None?
    ensures Bitmap.LowestFree(y.lent, 0, IDS) < IDS
  {
    var slots := map id | id in y.lent :: SlotOf(y.msgs[id]);
    forall id | id in slots
      ensures slots[id] < SLOTS && slots[id] != slot && y.carrier[slots[id]] == id {
      assert Serves(y, id);
    }
    Pigeonhole(y.lent, slots, slot);
    Bitmap.AllLent(y.lent, Bitmap.LowestFree(y.lent, 0, IDS));
  }

  lemma RingsOutside(y: Sys, y': Sys, id: nat, p: Place)
    requires Shape(y) && RingsOk(y) && Shape(y') && y'.rings == y.rings
    requires id < IDS && y'.place == y.place[id := p] && !InTransit(y.place[id]) && !InTransit(p)
    ensures RingsOk(y')
  {
    forall q: nat | q < 3 ensures LinkOk(q, y.rings[q], y'.place) {
      LinkElsewhere(q, y.rings[q], y.place, id, p);
    }
  }

  lemma SlotPacked(e: Event)
    requires e.Start? && e.slot < SLOTS
    ensures var m := Message(MmioMr0(e.direction, e.space, e.len, e.slot), e.addr, e.data, 0);
            SlotOf(m) == e.slot && IsMmio(m)
  {
    MmioFields(e.direction, e.space, e.len, e.slot);
    assert Bits.Pow2(6) == 64;
    LowSmall(e.slot, 6);
  }

  lemma StartSlots(y: Sys, slot: nat, m: Message)
    requires PipeOk(y) && slot < SLOTS && y.callback[slot].None? && SlotOf(m) == slot && IsMmio(m)
    ensures SlotsOk(StartWith(y, slot, m)) && !StartWith(y, slot, m).crashed
  {
    var y' := StartWith(y, slot, m);
    var id := Bitmap.LowestFree(y.lent, 0, IDS);
    BufferLeft(y, slot);
    forall j: nat | j < IDS && y'.place[j] != Free ensures Serves(y', j) {
      if j != id { assert Serves(y, j); }
    }
  }

  lemma StartPlaces(y: Sys, slot: nat, m: Message)
    requires Shape(y) && DataOk(y) && slot < SLOTS && y.callback[slot].None?
    ensures var y' := StartWith(y, slot, m);
            PlacesOk(y'.place) && LentOk(y') && ContentsOk(y')
  {
    BufferLeft(y, slot);
  }

  lemma StartHistory(y: Sys, slot: nat, m: Message)
    requires Shape(y) && HistoryOk(y) && slot < SLOTS && y.callback[slot].None?
    ensures HistoryOk(StartWith(y, slot, m))
  {
    var y' := StartWith(y, slot, m);
    assert y'.ran == y.ran && y'.answer == y.answer && y'.status == y.status + [Pending(slot)];
    assert y'.callback == y.callback[slot := Some(|y.status|)];
  }

  lemma StartRings(y: Sys, slot: nat, m: Message)
    requires PipeOk(y) && slot < SLOTS && y.callback[slot].None?
    ensures RingsOk(StartWith(y, slot, m))
  {
    var id := Bitmap.LowestFree(y.lent, 0, IDS);
    BufferLeft(y, slot);
    assert y.place[id] == Free;
    RingsOutside(y, StartWith(y, slot, m), id, Held(Requester));
  }

  lemma StartKeeps(y: Sys, slot: nat, m: Message)
    requires PipeOk(y) && slot < SLOTS && y.callback[slot].None? && SlotOf(m) == slot && IsMmio(m)
    ensures PipeOk(StartWith(y, slot, m))
  {
    StartRings(y, slot, m);
    StartSlots(y, slot, m);
    StartPlaces(y, slot, m);
    StartHistory(y, slot, m);
  }

  /** A response always finds its handler: the continuation of its own request. */
  lemma FinishFinds(y: Sys, id: nat)
    requires PipeOk(y) && id < IDS && y.place[id] == Held(Processor)
    ensures var slot := SlotOf(y.msgs[id]); var r := y.request[id];
            && IsMmio(y.msgs[id]) && slot < SLOTS && y.callback[slot] == Some(r)
            && r < |y.status| && y.status[r] == Pending(slot)
            && r in y.answer && y.answer[r] == y.msgs[id].mr2
            && DoFinish(y, id) == y.(callback := y.callback[slot := None], lent := y.lent - {id},
                                     ran := y.ran + [Completion(r, y.msgs[id].mr2)],
                                     status := y.status[r := Done(|y.ran|)]).Move(id, Free)
  {
    assert Serves(y, id);
  }

  lemma FinishSlots(y: Sys, id: nat)
    requires PipeOk(y) && id < IDS && y.place[id] == Held(Processor)
    ensures SlotsOk(DoFinish(y, id)) && ContentsOk(DoFinish(y, id))
  {
    var y' := DoFinish(y, id);
    FinishFinds(y, id);
    assert Serves(y, id);
    forall j: nat | j < IDS && y'.place[j] != Free ensures Serves(y', j) {
      assert Serves(y, j);
    }
  }

  lemma FinishHistory(y: Sys, id: nat)
    requires PipeOk(y) && id < IDS && y.place[id] == Held(Processor)
    ensures HistoryOk(DoFinish(y, id))
  {
    FinishFinds(y, id);
  }

  lemma FinishKeeps(y: Sys, id: nat)
    requires PipeOk(y)
    ensures PipeOk(DoFinish(y, id))
  {
    if id < IDS && y.place[id] == Held(Processor) {
      FinishFinds(y, id);
      RingsOutside(y, DoFinish(y, id), id, Free);
      FinishSlots(y, id);
      FinishHistory(y, id);
    }
  }

  /* ---------------------------------------------------------------- all events, all runs */

  lemma RunKeeps(y: Sys, q: nat, i: nat)
    requires PipeOk(y)
    ensures PipeOk(DoRun(y, q, i))
  {
    if q < 3 && i < |y.rings[q].threads| {
      var s := y.rings[q];
      if s.threads[i].side.Prod? && Reserves(s, i) { RunTakeIn(y, q, i); }
      else if s.threads[i].side.Cons? && Publishes(s, i) { RunHandOut(y, q, i); }
      else { RunQuiet(y, q, i); }
    }
  }

  lemma NextKeeps(y: Sys, e: Event)
    requires PipeOk(y)
    ensures PipeOk(Next(y, e))
  {
    match e
    case Start(_, _, _, _, _, _) =>
      if e.slot < SLOTS && y.callback[e.slot].None? {
        SlotPacked(e);
        StartKeeps(y, e.slot, Message(MmioMr0(e.direction, e.space, e.len, e.slot), e.addr, e.data, 0));
      }
    case Write(id, data) => WriteKeeps(y, id, data);
    case Send(q, i, id) => SendKeeps(y, q, i, id);
    case Receive(q) => ReceiveKeeps(y, q);
    case RunThread(q, i) => RunKeeps(y, q, i);
    case Finish(id) => FinishKeeps(y, id);
  }

  lemma {:induction false} PipeExec(y: Sys, run: seq<Event>)
    requires PipeOk(y)
    ensures PipeOk(Pipeline.Exec(y, run))
  {
    if run != [] {
      PipeExec(y, run[..|run| - 1]);
      NextKeeps(Pipeline.Exec(y, run[..|run| - 1]), run[|run| - 1]);
    }
  }
}
