/** What holds of the RPC pipeline in every reachable state, however the driver, the kernel module
    and the device are scheduled, and in whatever order they reply. */
module PipelineTheorems {
  import opened Ring
  import opened RingSafety
  import opened RingUse
  import opened Pipeline
  import opened PipelineSafety
  import opened Options
  import opened Packing
  import Bitmap
  import Finite

  ghost predicate Reachable(y: Sys) {
    exists threads: nat, run: seq<Event> :: y == Pipeline.Exec(Pipeline.Init(threads), run)
  }

  lemma {:induction false} ReachableOk(y: Sys)
    requires Reachable(y)
    ensures PipeOk(y)
  {
    var threads: nat, run: seq<Event> :| y == Pipeline.Exec(Pipeline.Init(threads), run);
    PipeInit(threads);
    PipeExec(Pipeline.Init(threads), run);
  }

  /* ---------------------------------------------------------------- ownership and conservation */

  /** Entry p of queue q carries id: reserved, and not yet released by the consumer. */
  predicate InEntry(y: Sys, q: nat, p: nat, id: nat)
    requires Shape(y)
  {
    q < 3 && y.rings[q].cons.head.pos <= p < |y.rings[q].log| && y.rings[q].log[p].id == id
  }

  /** Thread i is about to get an entry of queue q for id. */
  predicate InThread(y: Sys, q: nat, i: nat, id: nat)
    requires Shape(y)
  {
    q < 3 && i < |y.rings[q].threads| && Sends(y.rings[q].threads[i]) && y.rings[q].threads[i].item.id == id
  }

  /** Every id is in exactly one place: free, in one hand, with one thread, or in one entry. */
  lemma ExactlyOnePlace(y: Sys, id: nat)
    requires Reachable(y) && Shape(y) && id < IDS
    ensures id in y.lent <==> y.place[id] != Free
    ensures forall q: nat, p: nat :: InEntry(y, q, p, id) <==> y.place[id] == Queued(q, p)
    ensures forall q: nat, i: nat :: InThread(y, q, i, id) <==> SentBy(y.place[id], q, i)
  {
    ReachableOk(y);
    forall q: nat, p: nat ensures InEntry(y, q, p, id) <==> y.place[id] == Queued(q, p) {
      assert q < 3 ==> LinkOk(q, y.rings[q], y.place);
    }
    forall q: nat, i: nat ensures InThread(y, q, i, id) <==> SentBy(y.place[id], q, i) {
      assert q < 3 ==> LinkOk(q, y.rings[q], y.place);
    }
  }

  /** Queues carry nothing but lent ids of the 32 messages. */
  lemma OnlyLentIds(y: Sys, q: nat, p: nat, id: nat)
    requires Reachable(y) && Shape(y) && (InEntry(y, q, p, id) || InThread(y, q, p, id))
    ensures id < IDS && id in y.lent
  {
    ReachableOk(y);
    assert LinkOk(q, y.rings[q], y.place);
  }

  /** What is queued is what was handed over. */
  lemma ContentsIntact(y: Sys, id: nat)
    requires Reachable(y) && Shape(y) && id < IDS
    ensures InTransit(y.place[id]) ==> y.msgs[id] == y.sent[id]
    ensures Answered(y.place[id]) ==> y.request[id] in y.answer && y.answer[y.request[id]] == y.msgs[id].mr2
  {
    ReachableOk(y);
  }

  /** Sending, receiving, running and finishing write no message. */
  lemma OthersWriteNothing(y: Sys, e: Event)
    requires Shape(y) && !e.Start? && !e.Write?
    ensures Next(y, e).msgs == y.msgs
  {
    hide Step, Apply, GetField, Sends, Reserves, Publishes;
  }

  /** A message is written only when it is lent out, or by the one who received it. */
  lemma WrittenByHolder(y: Sys, e: Event, id: nat)
    requires Reachable(y) && Shape(y) && id < IDS && Next(y, e).msgs[id] != y.msgs[id]
    ensures (e.Start? && id !in y.lent) || (e.Write? && (y.place[id] == Held(Kernel) || y.place[id] == Held(Device)))
  {
    hide Reachable, MmioMr0, DoSend, DoReceive, DoRun, DoFinish;
    match e
    case Start(slot, _, _, _, _, _) =>
      if slot < SLOTS && y.callback[slot].None? { StartWrites(y, slot, id); }
    case Write(_, _) =>
    case _ => OthersWriteNothing(y, e);
  }

  /** So while an id is in transit, from hand to hand, its message stays as it was handed over. */
  lemma {:induction false} TransitUnchanged(y: Sys, run: seq<Event>, id: nat)
    requires Reachable(y) && Shape(y) && id < IDS
    requires forall k: nat :: k <= |run| ==> InTransit(Pipeline.Exec(y, run[..k]).place[id])
    ensures Pipeline.Exec(y, run).msgs[id] == y.msgs[id]
  {
    hide Reachable, Next, InTransit;
    if run != [] {
      var before, last := run[..|run| - 1], run[|run| - 1];
      forall k: nat | k <= |before| ensures InTransit(Pipeline.Exec(y, before[..k]).place[id]) {
        assert before[..k] == run[..k];
      }
      TransitUnchanged(y, before, id);
      var x := Pipeline.Exec(y, before);
      ReachableExec(y, before);
      assert InTransit(x.place[id]) by { assert run[..|run| - 1][..|before|] == before; }
      NotWritten(x, last, id);
    }
  }

  lemma NotWritten(y: Sys, e: Event, id: nat)
    requires Reachable(y) && Shape(y) && id < IDS && InTransit(y.place[id])
    ensures Next(y, e).msgs[id] == y.msgs[id]
  {
    hide Reachable, Next;
    ReachableOk(y);
    if Next(y, e).msgs[id] != y.msgs[id] { WrittenByHolder(y, e, id); }
  }

  lemma {:induction false} ReachableExec(y: Sys, run: seq<Event>)
    requires Reachable(y) && Shape(y)
    ensures Reachable(Pipeline.Exec(y, run))
  {
    hide Next;
    var threads: nat, first: seq<Event> :| y == Pipeline.Exec(Pipeline.Init(threads), first);
    ExecConcat(Pipeline.Init(threads), first, run);
  }

  lemma {:induction false} ExecConcat(y: Sys, r1: seq<Event>, r2: seq<Event>)
    requires Shape(y)
    ensures Pipeline.Exec(y, r1 + r2) == Pipeline.Exec(Pipeline.Exec(y, r1), r2)
    decreases |r2|
  {
    hide Next;
    if r2 == [] {
      assert r1 + r2 == r1;
    } else {
      var last := |r2| - 1;
      ExecConcat(y, r1, r2[..last]);
      assert (r1 + r2)[..|r1 + r2| - 1] == r1 + r2[..last];
    }
  }

  lemma StartWrites(y: Sys, slot: nat, id: nat)
    requires Reachable(y) && Shape(y) && slot < SLOTS && y.callback[slot].None?
    ensures Bitmap.LowestFree(y.lent, 0, IDS) == id ==> id !in y.lent
  {
    BufferFound(y, slot);
  }

  /* ---------------------------------------------------------------- capacity */

  /** As long as requests are made on free slots, a free buffer is found for each. */
  lemma BufferFound(y: Sys, slot: nat)
    requires Reachable(y) && Shape(y) && slot < SLOTS && y.callback[slot].None?
    ensures Bitmap.LowestFree(y.lent, 0, IDS) < IDS
  {
    ReachableOk(y);
    BufferLeft(y, slot);
  }

  /** With one consumer per queue, no request, forward or reply ever finds its queue full. */
  lemma NeverFull(y: Sys, q: nat, i: nat)
    requires Reachable(y) && Shape(y) && q < 3 && i < |y.rings[q].threads| && Sends(y.rings[q].threads[i])
    ensures !Step(RPC, y.rings[q], i).threads[i].phase.Refused?
  {
    hide DataOk, RingData.Inv;
    ReachableOk(y);
    assert RingOk(y.rings[q]) && LinkOk(q, y.rings[q], y.place);
    NeverRefused(q, y.rings[q], y.place, i);
  }

  /** No NULL message is written, and every response finds its handler and its continuation. */
  lemma NoFailure(y: Sys)
    requires Reachable(y)
    ensures !y.crashed
  {
    ReachableOk(y);
  }

  /* ---------------------------------------------------------------- split-phase requests */

  /** A slot is busy exactly when a lent message names it, and then just one does. */
  lemma SlotServed(y: Sys, slot: nat)
    requires Reachable(y) && Shape(y) && slot < SLOTS
    ensures y.callback[slot].Some? <==> exists id: nat :: id < IDS && id in y.lent && SlotOf(y.msgs[id]) == slot
    ensures forall a: nat, b: nat :: a < b < IDS && a in y.lent && b in y.lent && SlotOf(y.msgs[a]) == slot ==>
              SlotOf(y.msgs[b]) != slot
  {
    ReachableOk(y);
    forall id: nat | id < IDS && id in y.lent ensures Serves(y, id) {}
    if y.callback[slot].Some? {
      assert y.carrier[slot] in y.lent && SlotOf(y.msgs[y.carrier[slot]]) == slot;
    }
  }

  /** Each started request either still waits in its slot, with no call made, or has had its
      continuation called exactly once, with the answer that was sent back for it. */
  lemma CalledExactlyOnce(y: Sys, r: nat)
    requires Reachable(y) && Shape(y) && r < |y.status|
    ensures y.status[r].Pending? ==>
              && y.status[r].slot < SLOTS && y.callback[y.status[r].slot] == Some(r)
              && forall k: nat :: k < |y.ran| ==> y.ran[k].request != r
    ensures y.status[r].Done? ==>
              && r in y.answer
              && forall k: nat :: k < |y.ran| && y.ran[k].request == r <==> k == y.status[r].k
    ensures forall k: nat :: k < |y.ran| && y.ran[k].request == r ==> r in y.answer && y.ran[k].data == y.answer[r]
    ensures forall t: nat :: t < SLOTS && y.callback[t] == Some(r) ==> y.status[r] == Pending(t)
  {
    ReachableOk(y);
  }

  /** Processing a response calls the continuation of the very request it answers. */
  lemma ResponseFindsRequest(y: Sys, id: nat)
    requires Reachable(y) && Shape(y) && id < IDS && y.place[id] == Held(Processor)
    ensures var r := y.request[id]; var y' := DoFinish(y, id);
            && r < |y.status| && y.status[r] == Pending(SlotOf(y.msgs[id]))
            && y'.ran == y.ran + [Completion(r, y.msgs[id].mr2)]
            && r in y.answer && y.msgs[id].mr2 == y.answer[r]
            && id !in y'.lent
  {
    ReachableOk(y);
    FinishFinds(y, id);
  }

  /** When no buffer is lent, every request has been answered, by one call each. */
  lemma NothingLost(y: Sys)
    requires Reachable(y) && Shape(y) && y.lent == {}
    ensures |y.ran| == |y.status| && forall r: nat :: r < |y.status| ==> y.status[r].Done?
  {
    ReachableOk(y);
    assert forall t: nat :: t < SLOTS ==> y.callback[t].None?;
    OneCallEach(y);
  }

  /** Two lists of numbers that are each other's inverse have the same length. */
  lemma {:induction false} InverseSizes(f: seq<nat>, g: seq<nat>)
    requires forall r: nat :: r < |f| ==> f[r] < |g| && g[f[r]] == r
    requires forall k: nat :: k < |g| ==> g[k] < |f| && f[g[k]] == k
    ensures |f| == |g|
  {
    var m := map r: nat | r in Finite.UpTo(|f|) :: f[r];
    assert m.Keys == Finite.UpTo(|f|);
    forall k: nat | k < |g| ensures k in m.Values { assert m[g[k]] == k; }
    assert m.Values == Finite.UpTo(|g|);
    Finite.InjectiveSize(m);
  }

  lemma {:induction false} OneCallEach(y: Sys)
    requires Shape(y) && HistoryOk(y) && forall t: nat :: t < SLOTS ==> y.callback[t].None?
    ensures |y.ran| == |y.status| && forall r: nat :: r < |y.status| ==> y.status[r].Done?
  {
    assert forall r: nat :: r < |y.status| ==> y.status[r].Done?;
    var calls := seq(|y.status|, r requires 0 <= r < |y.status| => y.status[r].k);
    var requests := seq(|y.ran|, k requires 0 <= k < |y.ran| => y.ran[k].request);
    InverseSizes(calls, requests);
  }
}
