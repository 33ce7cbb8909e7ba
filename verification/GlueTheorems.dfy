/** What rpc_run does with the messages that have arrived: which handler gets a message, and what a
    batch of replies leads to in whatever order it comes. */
module GlueTheorems {
  import opened Options
  import opened Bits
  import opened Packing
  import opened Rpc
  import opened IoProxy
  import opened Glue
  import Irq

  /* ---------------------------------------------------------------- which handler */

  /** The effect of a message, by its op alone, in numbers: 0 is an answer, 16 an interrupt (below 32 of a
      PCI device), 18 starts the machine, 19 registers a PCI device, and 20 configures a region. */
  function ByOp(e: Env, v: Vmm, m: Message): (Vmm, int)
    requires Shape(v) && Sound(v, m)
  {
    var op := OpOf(m);
    if op == 0 then (v.(acks := Finish(v.acks, SlotOf(m), m.mr2)), 0)
    else if op == 16 && m.mr1 % 0x1_0000_0000 < 32 then
      var r := Irq.Intx(e.base, v.pci, e.proxy, m.mr1 % 32 * 8, m.mr2 % 0x1_0000_0000);
      (v.(pci := r.0), r.1)
    else if op == 16 || op == 20 then (v, if e.refuses(m) then -1 else 0)
    else if op == 19 then
      var r := Irq.Register(v.pci, e.proxy, m.mr1 % 32 * 8, e.bus(|v.pci.devs|));
      (v.(pci := r.0), r.1)
    else if op == 18 then (v.(running := true, posts := v.posts + 1), 0)
    else (v, -1)
  }

  /** The list of handlers acts as a table of ops: at most one handler takes a message, and a message
      nobody takes fails and changes nothing. */
  lemma Routes(e: Env, v: Vmm, m: Message)
    requires Shape(v) && Sound(v, m)
    ensures Process(e, v, m) == ByOp(e, v, m)
  {
    hide PciDevfn;
    PciNumbers(m.mr1);
    var first := Handler(0, e, v, m);
    assert ProcessFrom(5, e, v, m) == (v, NONE);
    assert ProcessFrom(4, e, v, m) == Handler(4, e, v, m);
    assert Handler(1, e, v, m) == (v, NONE);
  }

  /** An interrupt below 32 goes to the PCI lines, to the device in that slot of the backend, whatever
      emulated devices would say; any other goes to the emulated devices and changes no line. */
  lemma InterruptRoutes(e: Env, v: Vmm, m: Message)
    requires Shape(v) && OpOf(m) == 16
    ensures Sound(v, m)
    ensures m.mr1 % 0x1_0000_0000 < 32 ==>
              var r := Irq.Intx(e.base, v.pci, e.proxy, m.mr1 % 32 * 8, m.mr2 % 0x1_0000_0000);
              Process(e, v, m) == (v.(pci := r.0), r.1)
    ensures m.mr1 % 0x1_0000_0000 >= 32 ==> Process(e, v, m) == (v, if e.refuses(m) then -1 else 0)
  {
    hide Irq.Intx, Process;
    Routes(e, v, m);
  }

  /** So a line event for interrupt irq acts on the device registered for slot irq, or on the emulated
      devices. */
  lemma LineEventRoutes(e: Env, v: Vmm, mr0: nat, irq: nat, irqOp: nat, mr3: nat, m: Message)
    requires Shape(v) && m == WithOp(16, mr0, irq, irqOp, mr3)
    ensures Sound(v, m)
    ensures irq < 32 && irqOp < 3 ==>
              var r := Irq.Intx(e.base, v.pci, e.proxy, irq * 8, irqOp); Process(e, v, m) == (v.(pci := r.0), r.1)
    ensures 32 <= irq < 0x1_0000_0000 ==> Process(e, v, m) == (v, if e.refuses(m) then -1 else 0)
  {
    hide Irq.Intx, Process, SetField, GetField;
    OpArrives(16, mr0, irq, irqOp, mr3);
    OpBits(m);
    InterruptRoutes(e, v, m);
  }

  /* ---------------------------------------------------------------- a batch of replies */

  /** Replies to requests in flight, one for each of their slots. */
  ghost predicate Replies(v: Vmm, ms: seq<Message>) {
    && Shape(v)
    && (forall k :: 0 <= k < |ms| ==> OpOf(ms[k]) == OP_MMIO && Answerable(v.acks, ms[k]))
    && (forall j, k :: 0 <= j < k < |ms| ==> SlotOf(ms[j]) != SlotOf(ms[k]))
  }

  /** The continuation that reply k is for. */
  function WaiterOf(v: Vmm, ms: seq<Message>, k: nat): Waiter
    requires k < |ms| && Answerable(v.acks, ms[k])
  {
    v.acks.waiting[SlotOf(ms[k])].value
  }

  ghost predicate Answers(ms: seq<Message>, slot: nat) {
    exists k :: 0 <= k < |ms| && SlotOf(ms[k]) == slot
  }

  /** The first reply frees its slot and leaves the others as they were. */
  lemma FirstReply(e: Env, v: Vmm, ms: seq<Message>)
    requires Replies(v, ms) && ms != []
    ensures Sound(v, ms[0]) && Process(e, v, ms[0]) == (v.(acks := Finish(v.acks, SlotOf(ms[0]), ms[0].mr2)), 0)
    ensures var v1 := Process(e, v, ms[0]).0;
            && Replies(v1, ms[1..]) && v1 == v.(acks := v1.acks) && v1.acks.free == v.acks.free
            && v1.acks.waiting == v.acks.waiting[SlotOf(ms[0]) := None]
            && v1.acks.calls == v.acks.calls + [Call(WaiterOf(v, ms, 0), ms[0].mr2)]
            && (forall k: nat :: k < |ms| - 1 ==> WaiterOf(v1, ms[1..], k) == WaiterOf(v, ms, k + 1))
  {
    Routes(e, v, ms[0]);
    var v1 := Process(e, v, ms[0]).0;
    forall k: nat | k < |ms| - 1
      ensures Answerable(v1.acks, ms[1..][k]) && WaiterOf(v1, ms[1..], k) == WaiterOf(v, ms, k + 1) {
      assert ms[1..][k] == ms[k + 1];
    }
  }

  /** Every reply succeeds and calls the continuation stored in its slot, with its data. */
  lemma {:induction false} RepliesAnswered(e: Env, v: Vmm, ms: seq<Message>)
    requires Replies(v, ms)
    ensures AllSound(e, v, ms)
    ensures var o := ProcessAll(e, v, ms);
            && o.rc == 0 && o.v == v.(acks := o.v.acks) && o.v.acks.free == v.acks.free
            && |o.v.acks.calls| == |v.acks.calls| + |ms| && v.acks.calls <= o.v.acks.calls
            && (forall k: nat :: k < |ms| ==> o.v.acks.calls[|v.acks.calls| + k] == Call(WaiterOf(v, ms, k), ms[k].mr2))
    decreases |ms|
  {
    hide Process, Finish;
    if ms != [] {
      FirstReply(e, v, ms);
      var v1 := Process(e, v, ms[0]).0;
      RepliesAnswered(e, v1, ms[1..]);
      var o := ProcessAll(e, v, ms);
      forall k: nat | k < |ms|
        ensures o.v.acks.calls[|v.acks.calls| + k] == Call(WaiterOf(v, ms, k), ms[k].mr2) {
        if k > 0 { assert ms[1..][k - 1] == ms[k] && WaiterOf(v1, ms[1..], k - 1) == WaiterOf(v, ms, k); }
      }
    }
  }

  lemma AnswersFirst(ms: seq<Message>, slot: nat)
    requires ms != []
    ensures Answers(ms, slot) <==> slot == SlotOf(ms[0]) || Answers(ms[1..], slot)
  {
    hide SlotOf;
    if Answers(ms, slot) && slot != SlotOf(ms[0]) {
      var k :| 0 <= k < |ms| && SlotOf(ms[k]) == slot;
      assert ms[1..][k - 1] == ms[k];
    }
  }

  /** Afterwards exactly the slots that were answered are free. */
  lemma {:induction false} RepliesFree(e: Env, v: Vmm, ms: seq<Message>, slot: nat)
    requires Replies(v, ms) && AllSound(e, v, ms) && slot < SLOTS
    ensures ProcessAll(e, v, ms).v.acks.waiting[slot] == if Answers(ms, slot) then None else v.acks.waiting[slot]
    decreases |ms|
  {
    hide Process, Finish, SlotOf;
    if ms != [] {
      FirstReply(e, v, ms);
      AnswersFirst(ms, slot);
      RepliesFree(e, Process(e, v, ms[0]).0, ms[1..], slot);
    }
  }

  lemma SameAnswers(ms: seq<Message>, ns: seq<Message>, s: nat)
    requires forall m :: m in ms ==> m in ns
    ensures Answers(ms, s) ==> Answers(ns, s)
  {
    if Answers(ms, s) {
      var k :| 0 <= k < |ms| && SlotOf(ms[k]) == s;
      assert ms[k] in ns;
    }
  }

  /** Reply k is for native thread t. */
  ghost predicate For(v: Vmm, ms: seq<Message>, k: nat, t: nat)
    requires k < |ms| && Answerable(v.acks, ms[k])
  {
    IsNative(WaiterOf(v, ms, k)) && WaiterOf(v, ms, k).cookie == t
  }

  lemma {:induction false} NativeUntouched(e: Env, v: Vmm, ms: seq<Message>, t: nat)
    requires Replies(v, ms) && AllSound(e, v, ms) && forall j: nat :: j < |ms| ==> !For(v, ms, j, t)
    ensures NativeOf(ProcessAll(e, v, ms).v.acks.natives, t) == NativeOf(v.acks.natives, t)
    decreases |ms|
  {
    if ms != [] {
      FirstReply(e, v, ms);
      var v1 := Process(e, v, ms[0]).0;
      forall j: nat | j < |ms| - 1 ensures !For(v1, ms[1..], j, t) { assert !For(v, ms, j + 1, t); }
      assert !For(v, ms, 0, t);
      NativeUntouched(e, v1, ms[1..], t);
    }
  }

  /** A native thread with one request in flight is woken once, and after a read finds the data the
      device replied; a write leaves the value it had. */
  lemma {:induction false} NativeAnswered(e: Env, v: Vmm, ms: seq<Message>, k: nat, t: nat)
    requires Replies(v, ms) && AllSound(e, v, ms) && k < |ms| && For(v, ms, k, t)
    requires forall j: nat :: j < |ms| && j != k ==> !For(v, ms, j, t)
    ensures var before, after := NativeOf(v.acks.natives, t), NativeOf(ProcessAll(e, v, ms).v.acks.natives, t);
            && after.posts == before.posts + 1 && after.slot == before.slot
            && after.value == if WaiterOf(v, ms, k).ack.NativeRead? then ms[k].mr2 else before.value
    decreases |ms|
  {
    FirstReply(e, v, ms);
    var v1 := Process(e, v, ms[0]).0;
    forall j: nat | j < |ms| - 1 ensures For(v1, ms[1..], j, t) == For(v, ms, j + 1, t) {}
    if k == 0 {
      NativeUntouched(e, v1, ms[1..], t);
    } else {
      assert !For(v, ms, 0, t);
      NativeAnswered(e, v1, ms[1..], k - 1, t);
    }
  }

  /* ---------------------------------------------------------------- in any order */

  /** The call that a reply makes, and those that a batch makes. */
  function CallOf(v: Vmm, m: Message): Call
    requires Answerable(v.acks, m)
  {
    Call(v.acks.waiting[SlotOf(m)].value, m.mr2)
  }

  function CallsOf(v: Vmm, ms: seq<Message>): seq<Call>
    requires forall k :: 0 <= k < |ms| ==> Answerable(v.acks, ms[k])
  {
    seq(|ms|, k requires 0 <= k < |ms| => CallOf(v, ms[k]))
  }

  /** One reply can be taken out of a batch. */
  lemma CallsSplit(v: Vmm, ms: seq<Message>, j: nat)
    requires j < |ms| && forall k :: 0 <= k < |ms| ==> Answerable(v.acks, ms[k])
    ensures var rest := ms[..j] + ms[j + 1..];
            && (forall k :: 0 <= k < |rest| ==> Answerable(v.acks, rest[k]))
            && multiset(CallsOf(v, ms)) == multiset{CallOf(v, ms[j])} + multiset(CallsOf(v, rest))
  {
    hide Answerable, CallOf;
    var rest := ms[..j] + ms[j + 1..];
    forall k | 0 <= k < |rest| ensures Answerable(v.acks, rest[k]) {
      assert rest[k] == if k < j then ms[k] else ms[k + 1];
    }
    var calls := CallsOf(v, ms);
    assert calls == calls[..j] + [calls[j]] + calls[j + 1..];
    assert CallsOf(v, rest) == calls[..j] + calls[j + 1..];
  }

  ghost predicate Distinct(ms: seq<Message>) {
    forall j, k :: 0 <= j < k < |ms| ==> ms[j] != ms[k]
  }

  lemma Memberless(ms: seq<Message>)
    ensures ms == [] || exists m :: m in ms
  {
    if ms != [] { assert ms[0] in ms; }
  }

  /** The same replies in another order make the same calls. */
  lemma {:induction false} SameCalls(v: Vmm, ms: seq<Message>, ns: seq<Message>)
    requires Distinct(ms) && Distinct(ns) && forall m :: m in ms <==> m in ns
    requires forall k :: 0 <= k < |ms| ==> Answerable(v.acks, ms[k])
    requires forall k :: 0 <= k < |ns| ==> Answerable(v.acks, ns[k])
    ensures multiset(CallsOf(v, ms)) == multiset(CallsOf(v, ns))
    decreases |ms|
  {
    hide Answerable, CallOf, CallsOf;
    if ms == [] {
      Memberless(ns);
    } else {
      assert ms[0] in ns;
      var j :| 0 <= j < |ns| && ns[j] == ms[0];
      assert ms[..0] + ms[1..] == ms[1..];
      CallsSplit(v, ms, 0);
      CallsSplit(v, ns, j);
      RestMembers(ms, ns, j);
      SameCalls(v, ms[1..], ns[..j] + ns[j + 1..]);
    }
  }

  lemma RestMembers(ms: seq<Message>, ns: seq<Message>, j: nat)
    requires Distinct(ms) && Distinct(ns) && (forall m :: m in ms <==> m in ns) && ms != []
    requires j < |ns| && ns[j] == ms[0]
    ensures Distinct(ms[1..]) && Distinct(ns[..j] + ns[j + 1..])
    ensures forall m :: m in ms[1..] <==> m in ns[..j] + ns[j + 1..]
  {
    forall m ensures m in ms[1..] <==> m in ns[..j] + ns[j + 1..] {
      assert m in ms[1..] <==> m in ms && m != ms[0];
      assert m in ns[..j] + ns[j + 1..] <==> m in ns && m != ns[j] by {
        assert ns == ns[..j] + [ns[j]] + ns[j + 1..];
        assert ns[j] !in ns[..j] && ns[j] !in ns[j + 1..];
      }
    }
  }

  /** What a batch with reply k for thread t leaves of the thread. */
  lemma ThreadAfter(e: Env, v: Vmm, ms: seq<Message>, k: nat, t: nat)
    requires Replies(v, ms) && AllSound(e, v, ms) && ThreadsApart(v.acks) && k < |ms| && For(v, ms, k, t)
    ensures NativeOf(ProcessAll(e, v, ms).v.acks.natives, t) ==
            Handoff(NativeOf(v.acks.natives, t), WaiterOf(v, ms, k).ack, ms[k].mr2)
  {
    hide Process, ProcessAll, AllSound, SlotOf, OpOf;
    forall j: nat | j < |ms| && j != k ensures !For(v, ms, j, t) {
      assert SlotOf(ms[j]) != SlotOf(ms[k]);
      assert IsNative(WaiterOf(v, ms, k)) ==> WaitsNative(v.acks, SlotOf(ms[k]));
      assert IsNative(WaiterOf(v, ms, j)) ==> WaitsNative(v.acks, SlotOf(ms[j]));
    }
    NativeAnswered(e, v, ms, k, t);
  }

  lemma SameThread(e: Env, v: Vmm, ms: seq<Message>, ns: seq<Message>, t: nat)
    requires Replies(v, ms) && Replies(v, ns) && ThreadsApart(v.acks) && forall m :: m in ms <==> m in ns
    requires AllSound(e, v, ms) && AllSound(e, v, ns)
    ensures NativeOf(ProcessAll(e, v, ms).v.acks.natives, t) == NativeOf(ProcessAll(e, v, ns).v.acks.natives, t)
  {
    hide Process, ProcessAll, AllSound, SlotOf, OpOf, ThreadsApart;
    if k: nat :| k < |ms| && For(v, ms, k, t) {
      assert ms[k] in ns;
      var j: nat :| j < |ns| && ns[j] == ms[k];
      ThreadAfter(e, v, ms, k, t);
      ThreadAfter(e, v, ns, j, t);
    } else {
      forall j: nat | j < |ns| ensures !For(v, ns, j, t) {
        assert ns[j] in ms;
        var k: nat :| k < |ms| && ms[k] == ns[j];
        assert !For(v, ms, k, t);
      }
      NativeUntouched(e, v, ms, t);
      NativeUntouched(e, v, ns, t);
    }
  }

  /** So replies may come in any order: the same slots are free afterwards, the same calls were made,
      and every native thread has got the same. */
  lemma AnyOrder(e: Env, v: Vmm, ms: seq<Message>, ns: seq<Message>)
    requires Replies(v, ms) && Replies(v, ns) && ThreadsApart(v.acks) && forall m :: m in ms <==> m in ns
    ensures AllSound(e, v, ms) && AllSound(e, v, ns)
    ensures var a, b, n := ProcessAll(e, v, ms).v.acks, ProcessAll(e, v, ns).v.acks, |v.acks.calls|;
            && a.waiting == b.waiting && (forall t :: NativeOf(a.natives, t) == NativeOf(b.natives, t))
            && v.acks.calls <= a.calls && v.acks.calls <= b.calls
            && multiset(a.calls[n..]) == multiset(b.calls[n..])
  {
    hide Process, SlotOf, OpOf, ThreadsApart;
    RepliesAnswered(e, v, ms);
    RepliesAnswered(e, v, ns);
    var a, b, n := ProcessAll(e, v, ms).v.acks, ProcessAll(e, v, ns).v.acks, |v.acks.calls|;
    SameSlots(e, v, ms, ns);
    forall t ensures NativeOf(a.natives, t) == NativeOf(b.natives, t) { SameThread(e, v, ms, ns, t); }
    assert a.calls[n..] == CallsOf(v, ms);
    assert b.calls[n..] == CallsOf(v, ns);
    SameCalls(v, ms, ns);
  }

  lemma SameSlots(e: Env, v: Vmm, ms: seq<Message>, ns: seq<Message>)
    requires Replies(v, ms) && Replies(v, ns) && forall m :: m in ms <==> m in ns
    requires AllSound(e, v, ms) && AllSound(e, v, ns)
    ensures ProcessAll(e, v, ms).v.acks.waiting == ProcessAll(e, v, ns).v.acks.waiting
  {
    hide Process, AllSound, SlotOf, OpOf;
    var after, after' := ProcessAll(e, v, ms).v.acks.waiting, ProcessAll(e, v, ns).v.acks.waiting;
    forall slot | 0 <= slot < SLOTS ensures after[slot] == after'[slot] {
      RepliesFree(e, v, ms, slot);
      RepliesFree(e, v, ns, slot);
      SameAnswers(ms, ns, slot);
      SameAnswers(ns, ms, slot);
    }
  }
}
