/** The three rings of the pipeline on 32-bit fields: beside every run of the pipeline in which tails
    are used within 2^32 - 32 reservations, three 32-bit rings make the same steps, so what is proved of
    the pipeline holds with the program's own fields. */
module PipelineRings32 {
  import opened Bits
  import opened Packing
  import opened Ring
  import opened RingSafety
  import opened RingUse
  import opened RingLoose
  import opened Ring32
  import opened Pipeline
  import opened PipelineSafety
  import opened PipelineLife

  /** The step that an event is for queue q, if it is one: a resting thread begins to enqueue the id of a
      message that its holder may send there, the receiver begins to dequeue, or a thread goes on. */
  function ActionOf(y: Sys, e: Event, q: nat): (a: seq<Action>)
    requires Shape(y) && q < 3
  {
    match e
    case Send(p, i, id) =>
      if p == q && 0 < i < |y.rings[q].threads| && y.rings[q].threads[i].Resting()
         && id < 32 && y.place[id].Held? && Route(y.place[id].who, q)
      then [BeginEnqueue(i, Item(id, []))] else []
    case Receive(p) => if p == q then [BeginDequeue(0)] else []
    case RunThread(p, i) => if p == q then [Run(i)] else []
    case _ => []
  }

  /** Queue q of the pipeline makes exactly that step. */
  lemma RingStep(y: Sys, e: Event, q: nat)
    requires Shape(y) && q < 3
    ensures Next(y, e).rings[q] == Ring.Exec(RPC, y.rings[q], ActionOf(y, e, q))
  {
    hide Step, Apply, SlotOf, OpOf, Reserves, Publishes, Refuses;
    ExecOne(y.rings[q], ActionOf(y, e, q));
    if e.RunThread? { RunRing(y, e.q, e.i, q); }
  }

  lemma ExecOne(s: State, run: seq<Action>)
    ensures run == [] ==> Ring.Exec(RPC, s, run) == s
    ensures |run| == 1 ==> Ring.Exec(RPC, s, run) == Apply(RPC, s, run[0])
  {
    if |run| == 1 { assert run[..0] == []; }
  }

  lemma RunRing(y: Sys, p: nat, i: nat, q: nat)
    requires Shape(y) && q < 3
    ensures DoRun(y, p, i).rings[q] == if p == q then Apply(RPC, y.rings[q], Run(i)) else y.rings[q]
  {
    hide Step, Reserves, Publishes, Refuses;
  }

  /** The 32-bit ring of queue q after a run. */
  function Machine32(threads: nat, run: seq<Event>, q: nat): Machine
    requires q < 3
  {
    if run == [] then Init32(RPC, threads + 1)
    else
      Exec32(RPC, Machine32(threads, run[..|run| - 1], q),
             ActionOf(Pipeline.Exec(Pipeline.Init(threads), run[..|run| - 1]), run[|run| - 1], q))
  }

  /** Every thread that runs uses a tail loaded less than 2^32 - 32 reservations before. */
  ghost predicate YoungRun(threads: nat, run: seq<Event>) {
    run != [] ==>
      && YoungRun(threads, run[..|run| - 1])
      && var y, e := Pipeline.Exec(Pipeline.Init(threads), run[..|run| - 1]), run[|run| - 1];
         e.RunThread? && e.q < 3 ==> Younger(y.rings[e.q], e.i, M - RPC.n)
  }

  lemma {:induction false} RingsIn32(threads: nat, run: seq<Event>, q: nat)
    requires YoungRun(threads, run) && q < 3
    ensures Machine32(threads, run, q) == Concrete(Pipeline.Exec(Pipeline.Init(threads), run).rings[q])
  {
    PipeInit(threads);
    if run == [] {
    } else {
      var before, e := run[..|run| - 1], run[|run| - 1];
      var y := Pipeline.Exec(Pipeline.Init(threads), before);
      RingsIn32(threads, before, q);
      PipeExec(Pipeline.Init(threads), before);
      RingStep(y, e, q);
      assert RingOk(y.rings[q]);
      OneStep(y, e, q);
    }
  }

  lemma {:induction false} OneStep(y: Sys, e: Event, q: nat)
    requires Shape(y) && q < 3 && RingOk(y.rings[q])
    requires e.RunThread? && e.q < 3 ==> Younger(y.rings[e.q], e.i, M - RPC.n)
    ensures Exec32(RPC, Concrete(y.rings[q]), ActionOf(y, e, q)) ==
            Concrete(Ring.Exec(RPC, y.rings[q], ActionOf(y, e, q)))
  {
    var a := ActionOf(y, e, q);
    InstancesFit();
    if a != [] { assert a[..0] == []; }
    StrictAgrees(RPC, y.rings[q], a);
  }
}
