/** What the messages of the pipeline contain, counted on the events alone: the request as it was
    started, with the data of the last write to it. */
module PipelineData {
  import opened Options
  import opened Packing
  import opened Ring
  import opened RingSafety
  import opened RingUse
  import opened Pipeline
  import opened PipelineSafety
  import opened PipelineLife

  /** What an event in state y makes of the message m of request r: it is packed when the request is
      started on a free slot, and changed by each write of data to it while the kernel module or the
      device holds it. */
  function After(y: Sys, e: Event, r: nat, m: Message): Message
    requires Shape(y)
  {
    match e
    case Start(slot, direction, space, addr, len, data) =>
      if slot < 32 && y.callback[slot].None? && |y.status| == r
      then Message(MmioMr0(direction, space, len, slot), addr, data, 0) else m
    case Write(id, data) =>
      if id < 32 && (y.place[id] == Held(Kernel) || y.place[id] == Held(Device)) && y.request[id] == r
      then m.(mr2 := data) else m
    case _ => m
  }

  /** The message of request r after a run. */
  function Content(threads: nat, run: seq<Event>, r: nat): Message {
    if run == [] then Message(0, 0, 0, 0)
    else
      After(Pipeline.Exec(Pipeline.Init(threads), run[..|run| - 1]), run[|run| - 1], r,
            Content(threads, run[..|run| - 1], r))
  }

  function ContentOf(threads: nat, run: seq<Event>): nat -> Message {
    (r: nat) => Content(threads, run, r)
  }

  /** Messages of lent ids, and data of completions, are those of their requests. */
  ghost predicate Follows(y: Sys, content: nat -> Message)
    requires Shape(y)
  {
    && (forall id: nat :: id < IDS && y.place[id] != Free ==> y.msgs[id] == content(y.request[id]))
    && (forall k: nat :: k < |y.ran| ==> y.ran[k].data == content(y.ran[k].request).mr2)
  }

  /** Different lent ids serve different requests, and none that is completed. */
  lemma RequestsApart(y: Sys, id: nat)
    requires PipeOk(y) && id < IDS && y.place[id] != Free
    ensures y.request[id] < |y.status|
    ensures forall j: nat :: j < IDS && y.place[j] != Free && j != id ==> y.request[j] != y.request[id]
    ensures forall k: nat :: k < |y.ran| ==> y.ran[k].request != y.request[id]
  {
    hide RingsOk, ContentsOk, SlotOf, OpOf;
    assert Serves(y, id);
    forall j: nat | j < IDS && y.place[j] != Free && j != id ensures y.request[j] != y.request[id] {
      assert Serves(y, j);
    }
  }

  lemma StartFollows(y: Sys, slot: nat, m: Message, content: nat -> Message, content': nat -> Message)
    requires PipeOk(y) && Follows(y, content) && slot < SLOTS && y.callback[slot].None?
    requires content'(|y.status|) == m && forall r: nat :: r < |y.status| ==> content'(r) == content(r)
    ensures Follows(StartWith(y, slot, m), content')
  {
    hide RingsOk, SlotOf, OpOf;
    BufferLeft(y, slot);
    forall id: nat | id < IDS && y.place[id] != Free ensures y.request[id] < |y.status| { RequestsApart(y, id); }
  }

  lemma WriteFollows(y: Sys, id: nat, data: nat, content: nat -> Message, content': nat -> Message)
    requires PipeOk(y) && Follows(y, content) && id < IDS && (y.place[id] == Held(Kernel) || y.place[id] == Held(Device))
    requires content'(y.request[id]) == content(y.request[id]).(mr2 := data)
    requires forall r: nat :: r != y.request[id] ==> content'(r) == content(r)
    ensures Follows(DoWrite(y, id, data), content')
  {
    hide RingsOk, SlotOf, OpOf;
    RequestsApart(y, id);
  }

  lemma FinishFollows(y: Sys, id: nat, content: nat -> Message)
    requires PipeOk(y) && Follows(y, content)
    ensures Follows(DoFinish(y, id), content)
  {
    hide RingsOk, GetField;
    if id < IDS && y.place[id] == Held(Processor) {
      assert Serves(y, id);
    }
  }

  /** The other events move ids, but change no message, request or completion. */
  lemma MovesFollow(y: Sys, e: Event, content: nat -> Message)
    requires PipeOk(y) && Follows(y, content) && (e.Send? || e.Receive? || e.RunThread?)
    ensures Follows(Next(y, e), content)
  {
    hide RingsOk, DataOk, Next, LegalMove;
    MessagesStay(y, e);
    forall id: nat | id < IDS && Next(y, e).place[id] != Free ensures y.place[id] != Free { NoneBegins(y, e, id); }
  }

  lemma NoneBegins(y: Sys, e: Event, id: nat)
    requires PipeOk(y) && id < IDS && !e.Start?
    ensures y.place[id] == Free ==> Next(y, e).place[id] == Free
  {
    hide RingsOk, DataOk, Next;
    if Next(y, e).place[id] != y.place[id] { Moves(y, e, id); }
  }

  lemma MessagesStay(y: Sys, e: Event)
    requires Shape(y) && (e.Send? || e.Receive? || e.RunThread?)
    ensures var y' := Next(y, e); y'.msgs == y.msgs && y'.request == y.request && y'.ran == y.ran
  {
    hide Step, Apply, Sends, Reserves, Publishes, Refuses;
  }

  /** One event: whatever it does to messages and completions, the contents follow. */
  lemma EventFollows(y: Sys, e: Event, was: nat -> Message, now: nat -> Message)
    requires PipeOk(y) && Follows(y, was) && forall r: nat :: now(r) == After(y, e, r, was(r))
    ensures Follows(Next(y, e), now)
  {
    hide RingsOk, DataOk, Follows, MmioMr0;
    match e
    case Start(slot, direction, space, addr, len, data) =>
      if slot < SLOTS && y.callback[slot].None? {
        StartFollows(y, slot, Message(MmioMr0(direction, space, len, slot), addr, data, 0), was, now);
      } else {
        SameFollows(y, was, now);
      }
    case Write(id, data) =>
      if id < IDS && (y.place[id] == Held(Kernel) || y.place[id] == Held(Device)) {
        WriteFollows(y, id, data, was, now);
      } else {
        SameFollows(y, was, now);
      }
    case Finish(id) =>
      FinishFollows(y, id, was);
      SameFollows(DoFinish(y, id), was, now);
    case _ =>
      MovesFollow(y, e, was);
      SameFollows(Next(y, e), was, now);
  }

  lemma SameFollows(y: Sys, content: nat -> Message, content': nat -> Message)
    requires Shape(y) && Follows(y, content) && forall r: nat :: content'(r) == content(r)
    ensures Follows(y, content')
  {
  }

  lemma {:induction false} RunFollows(threads: nat, run: seq<Event>)
    ensures PipeOk(Pipeline.Exec(Pipeline.Init(threads), run))
    ensures Follows(Pipeline.Exec(Pipeline.Init(threads), run), ContentOf(threads, run))
  {
    hide RingsOk, DataOk, Follows, After, Next;
    PipeInit(threads);
    PipeExec(Pipeline.Init(threads), run);
    if run == [] {
      NothingYet(threads, ContentOf(threads, run));
    } else {
      var before := run[..|run| - 1];
      RunFollows(threads, before);
      EventFollows(Pipeline.Exec(Pipeline.Init(threads), before), run[|run| - 1],
                   ContentOf(threads, before), ContentOf(threads, run));
    }
  }

  lemma NothingYet(threads: nat, content: nat -> Message)
    ensures Follows(Pipeline.Init(threads), content)
  {
  }

  /** In every run: a lent message is its request as it was started, with the data last written to it by
      the kernel module or the device, and the continuation of a completed request got just that data, or
      the request's own if nothing was written. */
  lemma {:induction false} DataOfLastWrite(threads: nat, run: seq<Event>)
    ensures var y := Pipeline.Exec(Pipeline.Init(threads), run);
            && (forall id: nat :: id < 32 && id in y.lent ==> y.msgs[id] == Content(threads, run, y.request[id]))
            && (forall k: nat :: k < |y.ran| ==> y.ran[k].data == Content(threads, run, y.ran[k].request).mr2)
  {
    hide RingsOk, SlotsOk, ContentsOk, HistoryOk;
    RunFollows(threads, run);
  }
}
