/** The message handlers of src/libsel4vm_glue.c and rpc_run, which processes the responses that
    have arrived and then the events. */
module Glue {
  import opened Bits
  import opened Packing
  import opened Bitmap
  import opened Rpc
  import opened IoProxy
  import Irq

  const OP_SET_IRQ: nat := 16
  const OP_START_VM: nat := 18
  const OP_REGISTER_PCI_DEV: nat := 19
  const OP_MMIO_REGION_CONFIG: nat := 20
  const HANDLERS: nat := 5

  /** What the handlers depend on and this model does not describe: what becomes of the k-th
      device that registers, and which messages emulated devices turn down.  base is the interrupt of
      the first shared line and proxy the identity of the message channel. */
  datatype Env = Env(base: nat, proxy: nat, bus: nat -> Irq.Placement, refuses: Message -> bool)

  /** acks: the slots; pci: devices and lines; running and posts: whether the machine may start. */
  datatype Vmm = Vmm(acks: Acks, pci: Irq.Pci, running: bool, posts: nat)

  predicate Shape(v: Vmm) { |v.acks.waiting| == SLOTS && |v.pci.sources| == Irq.PINS }

  /** What handle_mmio asserts of a message. */
  predicate Sound(v: Vmm, m: Message) { OpOf(m) == OP_MMIO ==> Answerable(v.acks, m) }

  /** irq_is_pci takes a 32-bit number, and so does handle_pci_intx. */
  predicate IsPciIrq(irq: nat) { irq % M < Irq.SLOTS }

  function Rc(err: int): int { if err != 0 then ERROR else HANDLED }

  /** handle_pci */
  function PciMessage(e: Env, p: Irq.Pci, m: Message): (r: (Irq.Pci, int))
    requires |p.sources| == Irq.PINS
    ensures |r.0.sources| == Irq.PINS
  {
    if OpOf(m) == OP_SET_IRQ then
      if !IsPciIrq(m.mr1) then (p, NONE)
      else
        var r := Irq.Intx(e.base, p, e.proxy, PciDevfn(m.mr1), m.mr2 % M);
        (r.0, Rc(r.1))
    else if OpOf(m) == OP_REGISTER_PCI_DEV then
      var r := Irq.Register(p, e.proxy, PciDevfn(m.mr1), e.bus(|p.devs|));
      (r.0, Rc(r.1))
    else (p, NONE)
  }

  /** The k-th entry of rpc_callbacks. */
  function Handler(k: nat, e: Env, v: Vmm, m: Message): (r: (Vmm, int))
    requires k < HANDLERS && Shape(v) && Sound(v, m)
    ensures Shape(r.0)
  {
    var op := OpOf(m);
    if k == 0 then
      if op == OP_MMIO then (v.(acks := Finish(v.acks, SlotOf(m), m.mr2)), HANDLED) else (v, NONE)
    else if k == 1 then (v, NONE)
    else if k == 2 then
      var r := PciMessage(e, v.pci, m);
      (v.(pci := r.0), r.1)
    else if k == 3 then
      if op == OP_MMIO_REGION_CONFIG || op == OP_SET_IRQ then (v, Rc(if e.refuses(m) then -1 else 0)) else (v, NONE)
    else if op == OP_START_VM then (v.(running := true, posts := v.posts + 1), HANDLED) else (v, NONE)
  }

  /** The loop of rpc_process from the k-th handler on: the first that does not pass decides. */
  function ProcessFrom(k: nat, e: Env, v: Vmm, m: Message): (r: (Vmm, int))
    requires k <= HANDLERS && Shape(v) && Sound(v, m)
    ensures Shape(r.0)
    decreases HANDLERS - k
  {
    if k == HANDLERS then (v, NONE)
    else
      var r := Handler(k, e, v, m);
      if r.1 != NONE then r else ProcessFrom(k + 1, e, v, m)
  }

  /** rpc_process */
  function Process(e: Env, v: Vmm, m: Message): (r: (Vmm, int))
    requires Shape(v) && Sound(v, m)
    ensures Shape(r.0)
  {
    var r := ProcessFrom(0, e, v, m);
    (r.0, if r.1 == HANDLED then 0 else -1)
  }

  /** Messages processed one after another until one fails: the state, how many succeeded, and
      whether all did. */
  datatype Outcome = Outcome(v: Vmm, done: nat, rc: int)

  function ProcessAll(e: Env, v: Vmm, ms: seq<Message>): (o: Outcome)
    requires Shape(v) && AllSound(e, v, ms)
    ensures Shape(o.v) && o.done <= |ms| && (o.rc == 0 <==> o.done == |ms|)
    decreases |ms|
  {
    if ms == [] then Outcome(v, 0, 0)
    else
      var r := Process(e, v, ms[0]);
      if r.1 != 0 then Outcome(r.0, 0, r.1)
      else
        var o := ProcessAll(e, r.0, ms[1..]);
        o.(done := o.done + 1)
  }

  /** Every message that is reached meets its assertions. */
  predicate AllSound(e: Env, v: Vmm, ms: seq<Message>)
    requires Shape(v)
    decreases |ms|
  {
    ms == [] || (Sound(v, ms[0]) && (Process(e, v, ms[0]).1 == 0 ==> AllSound(e, Process(e, v, ms[0]).0, ms[1..])))
  }

  /** The outcome, when n messages succeeded before. */
  function Later(o: Outcome, n: nat): Outcome { o.(done := n + o.done) }

  function Ids(ids: seq<nat>): set<nat> { set id | id in ids }

  predicate ValidIds(ids: seq<nat>) { forall k :: 0 <= k < |ids| ==> ids[k] < BUFFERS }

  /** What the loop over the responses leaves: those after the first that failed, and every buffer
      but those of the responses that succeeded. */
  function Taken(b: Arrived, o: Outcome): Arrived
    requires o.done <= |b.replies| && (o.rc == 0 <==> o.done == |b.replies|)
  {
    Arrived(if o.rc == 0 then [] else b.replies[o.done + 1..], b.lent - Ids(b.replies[..o.done]), b.events)
  }

  function TakenEvents(b: Arrived, o: Outcome): Arrived
    requires o.done <= |b.events| && (o.rc == 0 <==> o.done == |b.events|)
  {
    b.(events := if o.rc == 0 then [] else b.events[o.done + 1..])
  }

  /** The messages of these ids. */
  function Picked(messages: seq<Message>, ids: seq<nat>): (ms: seq<Message>)
    requires |messages| == BUFFERS && ValidIds(ids)
    ensures |ms| == |ids|
  {
    seq(|ids|, k requires 0 <= k < |ids| => messages[ids[k]])
  }

  /** The first n messages have succeeded, and v is the state they lead to. */
  ghost predicate Reached(e: Env, v0: Vmm, ms: seq<Message>, v: Vmm, n: nat) {
    && Shape(v0) && Shape(v) && n <= |ms| && AllSound(e, v0, ms) && AllSound(e, v, ms[n..])
    && ProcessAll(e, v0, ms) == Later(ProcessAll(e, v, ms[n..]), n)
  }

  /** n responses are reclaimed; ret tells whether the next one, id, is in hand. */
  ghost predicate Progress(was: Arrived, now: Arrived, n: nat, ret: int, id: nat) {
    && n <= |was.replies| && now.events == was.events && now.lent == was.lent - Ids(was.replies[..n])
    && if ret == 0 then n < |was.replies| && id == was.replies[n] && now.replies == was.replies[n + 1..]
       else n == |was.replies| && now.replies == []
  }

  lemma ReachedFirst(e: Env, v: Vmm, ms: seq<Message>)
    requires Shape(v) && AllSound(e, v, ms)
    ensures Reached(e, v, ms, v, 0)
  {
    assert ms[0..] == ms;
  }

  lemma ReachedLast(e: Env, v0: Vmm, ms: seq<Message>, v: Vmm, n: nat)
    requires Reached(e, v0, ms, v, n) && n == |ms|
    ensures ProcessAll(e, v0, ms) == Outcome(v, n, 0)
  {
    hide Process;
  }

  lemma ReachedNext(e: Env, v0: Vmm, ms: seq<Message>, v: Vmm, n: nat)
    requires Reached(e, v0, ms, v, n) && n < |ms|
    ensures Sound(v, ms[n])
    ensures var r := Process(e, v, ms[n]);
            if r.1 == 0 then Reached(e, v0, ms, r.0, n + 1) else ProcessAll(e, v0, ms) == Outcome(r.0, n, r.1)
  {
    assert ms[n..][1..] == ms[n + 1..];
  }

  lemma ProgressNext(was: Arrived, now: Arrived, n: nat, id: nat, next: nat)
    requires Progress(was, now, n, 0, id) && (|now.replies| > 0 ==> next == now.replies[0])
    ensures var r := Pop(now.(lent := now.lent - {id})); Progress(was, r.0, n + 1, r.1, next)
  {
    assert Ids(was.replies[..n + 1]) == Ids(was.replies[..n]) + {was.replies[n]};
    assert now.replies != [] ==> now.replies[0] == was.replies[n + 1] && now.replies[1..] == was.replies[n + 2..];
  }

  /** What one call of the loop over the responses is about: the state and the arrivals it starts
      from, and the messages of the responses. */
  datatype Job = Job(e: Env, v0: Vmm, was: Arrived, messages: seq<Message>) {
    ghost predicate Ok() {
      && Shape(v0) && |messages| == BUFFERS && ValidIds(was.replies)
      && AllSound(e, v0, Responses())
    }

    ghost function Responses(): (ms: seq<Message>)
      requires |messages| == BUFFERS && ValidIds(was.replies)
    {
      Picked(messages, was.replies)
    }

    /** n responses are processed and reclaimed, and ret tells whether the next, id, is in hand. */
    ghost predicate Underway(v: Vmm, now: Arrived, n: nat, ret: int, id: nat) {
      Ok() && Progress(was, now, n, ret, id) && Reached(e, v0, Responses(), v, n)
    }

    /** The loop has ended with result rc. */
    ghost predicate Over(v: Vmm, now: Arrived, rc: int) {
      && Ok()
      && var o := ProcessAll(e, v0, Responses());
         v == o.v && rc == o.rc && now == Taken(was, o)
    }
  }

  /** The state, the queues and the bitmap that rpc_run leaves, and its result. */
  datatype Ran = Ran(v: Vmm, left: Arrived, rc: int)

  ghost predicate RunSound(e: Env, v: Vmm, was: Arrived, messages: seq<Message>)
    requires Shape(v)
  {
    var j := Job(e, v, was, messages);
    j.Ok() && AllSound(e, ProcessAll(e, v, j.Responses()).v, was.events)
  }

  ghost function Run(e: Env, v: Vmm, was: Arrived, messages: seq<Message>): Ran
    requires Shape(v) && RunSound(e, v, was, messages)
  {
    var o := ProcessAll(e, v, Job(e, v, was, messages).Responses());
    var o' := ProcessAll(e, o.v, was.events);
    Ran(o'.v, TakenEvents(Taken(was, o), o'), if was.events == [] then o.rc else o'.rc)
  }

  lemma JobStarts(j: Job, id: nat)
    requires j.Ok() && (|j.was.replies| > 0 ==> id == j.was.replies[0])
    ensures j.Underway(j.v0, Pop(j.was).0, 0, Pop(j.was).1, id)
  {
    assert j.Responses()[0..] == j.Responses();
  }

  lemma JobReads(j: Job, v: Vmm, now: Arrived, n: nat, id: nat)
    requires j.Underway(v, now, n, 0, id)
    ensures n < |j.was.replies| && id < BUFFERS && Shape(v) && Sound(v, j.messages[id])
  {
    hide Process;
    ReachedNext(j.e, j.v0, j.Responses(), v, n);
  }

  lemma JobFails(j: Job, v: Vmm, now: Arrived, n: nat, id: nat)
    requires j.Underway(v, now, n, 0, id) && Sound(v, j.messages[id]) && Process(j.e, v, j.messages[id]).1 != 0
    ensures var r := Process(j.e, v, j.messages[id]); j.Over(r.0, now, r.1)
  {
    hide Process;
    ReachedNext(j.e, j.v0, j.Responses(), v, n);
  }

  lemma JobGoesOn(j: Job, v: Vmm, now: Arrived, n: nat, id: nat, next: nat)
    requires j.Underway(v, now, n, 0, id) && Sound(v, j.messages[id]) && Process(j.e, v, j.messages[id]).1 == 0
    requires |now.replies| > 0 ==> next == now.replies[0]
    ensures var p := Pop(now.(lent := now.lent - {id}));
            j.Underway(Process(j.e, v, j.messages[id]).0, p.0, n + 1, p.1, next)
  {
    hide Process;
    ReachedNext(j.e, j.v0, j.Responses(), v, n);
    ProgressNext(j.was, now, n, id, next);
  }

  lemma JobEnds(j: Job, v: Vmm, now: Arrived, n: nat, ret: int, id: nat)
    requires j.Underway(v, now, n, ret, id) && ret != 0
    ensures j.Over(v, now, 0)
  {
    assert j.was.replies[..n] == j.was.replies;
  }

  /** n events are processed, and v, now and rc are what that has led to. */
  ghost predicate EventsUnderway(e: Env, v0: Vmm, was: Arrived, before: int, v: Vmm, now: Arrived, rc: int, n: nat) {
    && Reached(e, v0, was.events, v, n) && now == was.(events := was.events[n..])
    && rc == if n == 0 then before else 0
  }

  /** The loop over the events has ended with result rc. */
  ghost predicate EventsOver(e: Env, v0: Vmm, was: Arrived, before: int, v: Vmm, now: Arrived, rc: int)
    requires Shape(v0) && AllSound(e, v0, was.events)
  {
    var o := ProcessAll(e, v0, was.events);
    && v == o.v && now == TakenEvents(was, o)
    && rc == if was.events == [] then before else o.rc
  }

  lemma EventsStart(e: Env, v0: Vmm, was: Arrived, before: int)
    requires Shape(v0) && AllSound(e, v0, was.events)
    ensures EventsUnderway(e, v0, was, before, v0, was, before, 0)
  {
    hide Process;
    ReachedFirst(e, v0, was.events);
    assert was.events[0..] == was.events;
  }

  /** The step of the loop: no event is left, or the oldest one, m, fails or succeeds. */
  lemma EventsNext(e: Env, v0: Vmm, was: Arrived, before: int, v: Vmm, now: Arrived, rc: int, n: nat, m: Message)
    requires EventsUnderway(e, v0, was, before, v, now, rc, n) && (|now.events| > 0 ==> m == now.events[0])
    ensures var left := PopEvent(now);
            if left.1 != 0 then EventsOver(e, v0, was, before, v, left.0, rc)
            else && n < |was.events| && Sound(v, m)
                 && var r := Process(e, v, m);
                    if r.1 != 0 then EventsOver(e, v0, was, before, r.0, left.0, r.1)
                    else EventsUnderway(e, v0, was, before, r.0, left.0, r.1, n + 1)
  {
    hide Process;
    if now.events == [] {
      ReachedLast(e, v0, was.events, v, n);
    } else {
      ReachedNext(e, v0, was.events, v, n);
    }
  }

  /** handle_pci on the tables it updates */
  method HandlePci(env: Env, pci: Irq.PciGlue, m: Message) returns (rc: int)
    requires pci.Valid() && pci.base == env.base
    modifies pci`calls, pci`count, pci.devs, pci.lines
    ensures pci.Valid() && (pci.View(), rc) == PciMessage(env, old(pci.View()), m)
  {
    var err;
    if OpOf(m) == OP_SET_IRQ {
      if !IsPciIrq(m.mr1) { return NONE; }
      err := pci.HandleIntx(env.proxy, PciDevfn(m.mr1), m.mr2 % M);
    } else if OpOf(m) == OP_REGISTER_PCI_DEV {
      err := pci.RegisterDevice(env.proxy, PciDevfn(m.mr1), env.bus(pci.count));
    } else {
      return NONE;
    }
    rc := if err != 0 then ERROR else HANDLED;
  }

  /** The monitor: io_proxy with its channel, and the PCI tables beside it. */
  class Monitor {
    const proxy: Proxy
    const pci: Irq.PciGlue
    const env: Env
    var running: bool
    var posts: nat

    /** What the handlers may change; they never touch the queues, the messages or the bitmap. */
    ghost const Handled: set<object>

    ghost predicate Valid()
      reads this, proxy, proxy.ioacks, pci, pci.devs, pci.lines
    {
      && proxy.ioacks.Length == SLOTS && pci.Valid() && pci.base == env.base
      && {this, proxy, proxy.ioacks, pci, pci.devs} <= Handled && (forall l :: l in pci.lines ==> l in Handled)
    }

    ghost function View(): (v: Vmm)
      requires Valid()
      reads this, proxy, proxy.ioacks, pci, pci.devs, pci.lines
      ensures Shape(v)
    {
      Vmm(proxy.View(), pci.View(), running, posts)
    }

    constructor (proxy: Proxy, pci: Irq.PciGlue, env: Env)
      requires proxy.Valid() && pci.Valid() && pci.base == env.base
      ensures Valid() && this.proxy == proxy && this.pci == pci && this.env == env && !running && posts == 0
    {
      this.proxy, this.pci, this.env, running, posts := proxy, pci, env, false, 0;
      Handled := {this, proxy, proxy.ioacks, pci, pci.devs} + set l | l in pci.lines;
    }

    /** The k-th entry of rpc_callbacks, called */
    method Call(k: nat, op: nat, m: Message) returns (rc: int)
      requires Valid() && k < HANDLERS && op == OpOf(m) && Sound(View(), m)
      modifies Handled
      ensures Valid() && (View(), rc) == Handler(k, env, old(View()), m)
    {
      rc := NONE;
      if k == 0 {
        rc := proxy.HandleMmio(op, m);
      } else if k == 2 {
        rc := HandlePci(env, pci, m);
      } else if k == 3 {
        if op == OP_MMIO_REGION_CONFIG || op == OP_SET_IRQ { rc := Rc(if env.refuses(m) then -1 else 0); }
      } else if k == 4 && op == OP_START_VM {
        running, posts, rc := true, posts + 1, HANDLED;
      }
    }

    /** rpc_process */
    method ProcessMessage(m: Message) returns (err: int)
      requires Valid() && Sound(View(), m)
      modifies Handled
      ensures Valid() && (View(), err) == Process(env, old(View()), m)
    {
      var op := OpOf(m);
      var rc, k := NONE, 0;
      while rc == NONE && k < HANDLERS
        invariant Valid() && k <= HANDLERS && (rc == NONE ==> View() == old(View()))
        invariant ProcessFrom(0, env, old(View()), m) ==
                  if rc == NONE then ProcessFrom(k, env, old(View()), m) else (View(), rc)
      {
        rc := Call(k, op, m);
        k := k + 1;
      }
      if rc == ERROR {
        return -1;
      } else if rc == NONE {
        return -1;
      }
      return 0;
    }

    /** Nothing a handler may change belongs to the channel. */
    ghost predicate Ready()
      reads this, proxy, proxy.ioacks, pci, pci.devs, pci.lines, proxy.rpc, proxy.rpc.Repr
    {
      Valid() && proxy.rpc.Valid() && Handled !! proxy.rpc.Repr
    }

    /** Processing a message leaves the channel alone. */
    method ProcessAside(m: Message) returns (err: int)
      requires Ready() && Sound(View(), m)
      modifies Handled
      ensures Ready() && (View(), err) == Process(env, old(View()), m) && proxy.rpc.Inbox() == old(proxy.rpc.Inbox())
    {
      err := ProcessMessage(m);
    }

    method NextResponse(id: nat) returns (ret: int, next: nat)
      requires Ready() && id < BUFFERS
      modifies proxy.rpc.response`received, proxy.rpc.response.cons, proxy.rpc.state.state
      ensures Ready() && View() == old(View())
      ensures var was := old(proxy.rpc.Inbox());
              && (proxy.rpc.Inbox(), ret) == Pop(was.(lent := was.lent - {id}))
              && (ret == 0 ==> |was.replies| > 0 && next == was.replies[0])
    {
      ret, next := proxy.rpc.ReclaimAndReceive(id);
    }

    /** n responses are processed, and ret tells whether the next one, id, is in hand. */
    ghost predicate InHand(j: Job, n: nat, ret: int, id: nat)
      reads this, proxy, proxy.ioacks, pci, pci.devs, pci.lines, proxy.rpc, proxy.rpc.Repr
    {
      && Ready() && j.e == env && j.messages == proxy.rpc.messages[..]
      && j.Underway(View(), proxy.rpc.Inbox(), n, ret, id)
    }

    /** The loop has ended with result rc. */
    ghost predicate Ended(j: Job, rc: int)
      reads this, proxy, proxy.ioacks, pci, pci.devs, pci.lines, proxy.rpc, proxy.rpc.Repr
    {
      Ready() && j.Over(View(), proxy.rpc.Inbox(), rc)
    }

    method FirstResponse(ghost j: Job) returns (ret: int, id: nat)
      requires Ready() && j == Job(env, View(), proxy.rpc.Inbox(), proxy.rpc.messages[..]) && j.Ok()
      modifies proxy.rpc.response`received, proxy.rpc.response.cons
      ensures InHand(j, 0, ret, id)
    {
      hide Process, ProcessAll, AllSound, Progress, Reached, Job.Ok, Job.Underway;
      ret, id := proxy.rpc.Receive();
      JobStarts(j, id);
    }

    /** One round of the first loop of rpc_run: the response in hand is processed and, unless that
        fails, its buffer is reclaimed and the next response received. */
    method RunResponse(ghost j: Job, ghost n: nat, id: nat) returns (rc: int, ret: int, next: nat)
      requires InHand(j, n, 0, id)
      modifies Handled, proxy.rpc.response`received, proxy.rpc.response.cons, proxy.rpc.state.state
      ensures n < |j.was.replies|
      ensures if rc != 0 then Ended(j, rc) else InHand(j, n + 1, ret, next)
    {
      hide Process, ProcessAll, AllSound, Taken, Progress, Reached, Job.Ok, Job.Underway, Job.Over;
      ret, next := -1, 0;
      ghost var v, now := View(), proxy.rpc.Inbox();
      JobReads(j, v, now, n, id);
      rc := ProcessAside(proxy.rpc.messages[id]);
      if rc != 0 {
        JobFails(j, v, now, n, id);
        return;
      }
      ret, next := NextResponse(id);
      JobGoesOn(j, v, now, n, id, next);
    }

    lemma ResponsesDone(j: Job, n: nat, ret: int, id: nat)
      requires InHand(j, n, ret, id) && ret != 0
      ensures Ended(j, 0)
    {
      hide Process, ProcessAll, AllSound, Taken, Progress, Reached, Job.Ok, Job.Underway, Job.Over;
      JobEnds(j, View(), proxy.rpc.Inbox(), n, ret, id);
    }

    /** The first loop of rpc_run: each response is processed and its buffer reclaimed, up to the
        first that fails, whose buffer is not. */
    method RunResponses(ghost j: Job) returns (rc: int)
      requires Ready() && j == Job(env, View(), proxy.rpc.Inbox(), proxy.rpc.messages[..]) && j.Ok()
      modifies Handled, proxy.rpc.response`received, proxy.rpc.response.cons, proxy.rpc.state.state
      ensures Ended(j, rc)
    {
      hide Process, ProcessAll, AllSound, Job.Ok, Monitor.Ended, Monitor.InHand, Monitor.Ready, Monitor.View, Channel.Inbox;
      ghost var n := 0;
      rc := 0;
      var ret, id := FirstResponse(j);
      while ret == 0
        invariant rc == 0 && InHand(j, n, ret, id)
        decreases |j.was.replies| - n, ret == 0
      {
        rc, ret, id := RunResponse(j, n, id);
        if rc != 0 { break; }
        n := n + 1;
      }
      if rc == 0 { ResponsesDone(j, n, ret, id); }
    }

    method NextEvent() returns (ret: int, m: Message)
      requires Ready()
      modifies proxy.rpc.events.queue`received, proxy.rpc.events.queue.cons
      ensures Ready() && View() == old(View()) && (proxy.rpc.Inbox(), ret) == PopEvent(old(proxy.rpc.Inbox()))
      ensures ret == 0 ==> |old(proxy.rpc.Inbox()).events| > 0 && m == old(proxy.rpc.Inbox()).events[0]
    {
      ret, m := proxy.rpc.EventRx();
    }

    /** The second loop of rpc_run: each event is processed, up to the first that fails; the result is
        that of the last one, or the given one if there is none. */
    method RunEvents(before: int) returns (rc: int)
      requires Ready() && AllSound(env, View(), proxy.rpc.Inbox().events)
      modifies Handled, proxy.rpc.events.queue`received, proxy.rpc.events.queue.cons
      ensures Ready()
      ensures EventsOver(env, old(View()), old(proxy.rpc.Inbox()), before, View(), proxy.rpc.Inbox(), rc)
    {
      hide Process, EventsUnderway, EventsOver, AllSound;
      ghost var v0, was, n := View(), proxy.rpc.Inbox(), 0;
      rc := before;
      EventsStart(env, v0, was, before);
      while true
        invariant Ready() && EventsUnderway(env, v0, was, before, View(), proxy.rpc.Inbox(), rc, n)
        decreases |was.events| - n
      {
        ghost var v, now := View(), proxy.rpc.Inbox();
        var ret, m := NextEvent();
        EventsNext(env, v0, was, before, v, now, rc, n, m);
        if ret != 0 { break; }
        rc := ProcessAside(m);
        if rc != 0 { break; }
        n := n + 1;
      }
    }

    /** rpc_run */
    method RpcRun() returns (rc: int)
      requires Ready()
      requires RunSound(env, View(), proxy.rpc.Inbox(), proxy.rpc.messages[..])
      modifies Handled, proxy.rpc.response`received, proxy.rpc.response.cons, proxy.rpc.state.state
      modifies proxy.rpc.events.queue`received, proxy.rpc.events.queue.cons
      ensures Ready()
      ensures Ran(View(), proxy.rpc.Inbox(), rc) ==
              Run(env, old(View()), old(proxy.rpc.Inbox()), old(proxy.rpc.messages[..]))
    {
      hide Process;
      rc := RunResponses(Job(env, View(), proxy.rpc.Inbox(), proxy.rpc.messages[..]));
      rc := RunEvents(rc);
    }
  }
}
