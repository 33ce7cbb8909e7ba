/** The lock-free ring of include/sel4/rpc_queue.h as a step machine.

    Any number of threads enqueue and dequeue concurrently.  Every atomic load, every test of a
    shared field, every compare-and-swap and every word moved to or from the buffer is a step of
    its own, so an execution is an arbitrary interleaving of such steps.  Positions and counts are
    unbounded here; module Ring32 relates them to the 32-bit fields of the program. */
module Ring {
  /** n: ring entries, h: allowed head/tail distance, w: message words copied next to the ring id
      (4 for an event queue; 0 for an RPC queue, whose ring carries only ids). */
  datatype Config = Config(n: nat, h: nat, w: nat) {
    predicate Valid() { 0 < n && h < n }
  }

  /** The two kinds of queue of the program: 32 entries, and a distance of 8. */
  const RPC := Config(32, 8, 0)
  const EVENT := Config(32, 8, 4)

  datatype Item = Item(id: nat, words: seq<nat>)
  datatype Marker = Marker(pos: nat, count: nat)
  datatype Side = Prod | Cons

  /** One side of the queue: its two markers, and two records of the history that the program does
      not store: which positions were committed, and which thread holds each of the others. */
  datatype Bound = Bound(tail: Marker, head: Marker, committed: set<nat>, holder: map<nat, nat>)

  datatype Phase =
    | Idle
    | LoadTail
    | WaitHead(ot: Marker)
    | WaitReload
    | Check(ot: Marker)
    | Cas(ot: Marker)
    | Move(entry: nat, k: nat)
    | CommitHead(entry: nat)
    | CommitTail(entry: nat, oh: Marker)
    | CommitCas(entry: nat, oh: Marker, t: Marker)
    | Refused(ot: Marker)
    | Completed(entry: nat)

  /** item: what a producer sends, or what a consumer has read so far.
      fails: how often the commit CAS of the current operation has failed. */
  datatype Thread = Thread(side: Side, phase: Phase, item: Item, fails: nat) {
    predicate Resting() { phase.Idle? || phase.Refused? || phase.Completed? }
    predicate Pending() {
      phase.LoadTail? || phase.WaitHead? || phase.WaitReload? || phase.Check? || phase.Cas?
    }
    predicate Committing() { phase.CommitHead? || phase.CommitTail? || phase.CommitCas? }
    predicate InFlight() { phase.Move? || Committing() }
  }

  /** log: what was reserved at each position; out: what was read from each committed position. */
  datatype State = State(prod: Bound, cons: Bound, ring: seq<nat>, msgs: seq<seq<nat>>,
                         threads: seq<Thread>, log: seq<Item>, out: map<nat, Item>) {
    function Of(side: Side): Bound { if side.Prod? then prod else cons }

    function With(side: Side, b: Bound): State {
      if side.Prod? then this.(prod := b) else this.(cons := b)
    }

    function Goto(i: nat, phase: Phase): State
      requires i < |threads|
    {
      this.(threads := threads[i := threads[i].(phase := phase)])
    }

    function SetThread(i: nat, th: Thread): State
      requires i < |threads|
    {
      this.(threads := threads[i := th])
    }
  }

  datatype Action = BeginEnqueue(i: nat, item: Item) | BeginDequeue(i: nat) | Run(i: nat)

  /* ---------------------------------------------------------------- the program's steps */

  const START := Bound(Marker(0, 0), Marker(0, 0), {}, map[])

  function Init(c: Config, threads: nat): State {
    State(START, START, seq(c.n, _ => 0), seq(c.n, _ => seq(c.w, _ => 0)),
          seq(threads, _ => Thread(Prod, Idle, Item(0, []), 0)), [], map[])
  }

  /** rpcmsg_tail_wait lets the thread pass. */
  predicate Near(c: Config, b: Bound, ot: Marker) {
    b.head.pos <= ot.pos <= b.head.pos + c.h
  }

  /** No entry left: "full" for a producer, "empty" for a consumer. */
  predicate Blocked(c: Config, s: State, side: Side, ot: Marker) {
    if side.Prod? then ot.pos == s.cons.head.pos + c.n else ot.pos == s.prod.head.pos
  }

  /** What a reservation at position p enters into the log.  An event is copied to the message
      with the same index as the ring entry; an RPC request already has its message. */
  function Sent(c: Config, p: nat, item: Item): Item
    requires c.Valid()
  {
    if c.w > 0 then Item(p % c.n, item.words) else item
  }

  function Reserve(c: Config, s: State, i: nat): State
    requires c.Valid() && i < |s.threads| && s.threads[i].phase.Cas?
  {
    var th := s.threads[i];
    var b := s.Of(th.side);
    var ot := th.phase.ot;
    var b' := b.(tail := Marker(ot.pos + 1, ot.count + 1), holder := b.holder[ot.pos := i]);
    var sent := if th.side.Prod? then Sent(c, ot.pos, th.item) else Item(0, []);
    var log' := if th.side.Prod? then s.log + [sent] else s.log;
    s.With(th.side, b').(log := log').SetThread(i, th.(phase := Move(ot.pos, 0), item := sent, fails := 0))
  }

  function Put<T>(a: seq<T>, i: nat, x: T): seq<T> {
    if i < |a| then a[i := x] else a
  }

  function Get<T>(a: seq<T>, i: nat, x: T): T {
    if i < |a| then a[i] else x
  }

  /** The enqueue function copies the words of a message one by one and then stores the id. */
  function MoveIn(c: Config, s: State, i: nat): State
    requires c.Valid() && i < |s.threads| && s.threads[i].phase.Move?
  {
    var th := s.threads[i];
    var Move(e, k) := th.phase;
    var x := e % c.n;
    if k < c.w then
      var m := Get(s.msgs, x, []);
      s.(msgs := Put(s.msgs, x, Put(m, k, Get(th.item.words, k, 0)))).Goto(i, Move(e, k + 1))
    else
      s.(ring := Put(s.ring, x, th.item.id)).Goto(i, CommitHead(e))
  }

  /** The dequeue function loads the id and then copies the words of the message it names. */
  function MoveOut(c: Config, s: State, i: nat): State
    requires c.Valid() && i < |s.threads| && s.threads[i].phase.Move?
  {
    var th := s.threads[i];
    var Move(e, k) := th.phase;
    var item :=
      if k == 0 then Item(Get(s.ring, e % c.n, 0), [])
      else Item(th.item.id, th.item.words + [Get(Get(s.msgs, th.item.id, []), k - 1, 0)]);
    s.SetThread(i, th.(item := item, phase := if k < c.w then Move(e, k + 1) else CommitHead(e)))
  }

  /** The value rpcmsg_commit_update wants to install. */
  function NewHead(oh: Marker, t: Marker): Marker {
    Marker(if oh.count + 1 == t.count then t.pos else oh.pos, oh.count + 1)
  }

  function Publish(s: State, i: nat): State
    requires i < |s.threads| && s.threads[i].phase.CommitCas?
  {
    var th := s.threads[i];
    var b := s.Of(th.side);
    var CommitCas(e, oh, t) := th.phase;
    var b' := b.(head := NewHead(oh, t), committed := b.committed + {e}, holder := b.holder - {e});
    s.With(th.side, b').(out := if th.side.Cons? then s.out[e := th.item] else s.out).Goto(i, Completed(e))
  }

  function Step(c: Config, s: State, i: nat): State
    requires c.Valid() && i < |s.threads|
  {
    var th := s.threads[i];
    var b := s.Of(th.side);
    match th.phase
    case Idle | Refused(_) | Completed(_) => s
    case LoadTail | WaitReload => s.Goto(i, WaitHead(b.tail))
    case WaitHead(ot) => s.Goto(i, if Near(c, b, ot) then Check(ot) else WaitReload)
    case Check(ot) => s.Goto(i, if Blocked(c, s, th.side, ot) then Refused(ot) else Cas(ot))
    case Cas(ot) => if b.tail == ot then Reserve(c, s, i) else s.Goto(i, WaitHead(b.tail))
    case Move(_, _) => if th.side.Prod? then MoveIn(c, s, i) else MoveOut(c, s, i)
    case CommitHead(e) => s.Goto(i, CommitTail(e, b.head))
    case CommitTail(e, oh) => s.Goto(i, CommitCas(e, oh, b.tail))
    case CommitCas(e, oh, _) =>
      if b.head == oh then Publish(s, i)
      else s.SetThread(i, th.(phase := CommitTail(e, b.head), fails := th.fails + 1))
  }

  function Apply(c: Config, s: State, a: Action): State
    requires c.Valid()
  {
    match a
    case BeginEnqueue(i, item) =>
      if i < |s.threads| && s.threads[i].Resting() && |item.words| == c.w
      then s.SetThread(i, Thread(Prod, LoadTail, item, 0)) else s
    case BeginDequeue(i) =>
      if i < |s.threads| && s.threads[i].Resting()
      then s.SetThread(i, Thread(Cons, LoadTail, Item(0, []), 0)) else s
    case Run(i) =>
      if i < |s.threads| then Step(c, s, i) else s
  }

  /** The state after a sequence of actions: one interleaving. */
  function Exec(c: Config, s: State, run: seq<Action>): State
    requires c.Valid()
  {
    if run == [] then s else Apply(c, Exec(c, s, run[..|run| - 1]), run[|run| - 1])
  }
}
