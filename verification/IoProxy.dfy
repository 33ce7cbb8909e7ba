/** Split-phase requests of src/io_proxy.c: a slot holds the continuation of the request in flight,
    and the answer to that request calls it. */
module IoProxy {
  import opened Options
  import opened Bits
  import opened Packing
  import opened Bitmap
  import opened RpcQueue
  import opened Rpc

  const SLOTS: nat := 32
  const NATIVE_BASE: nat := 16
  const READ: nat := 0

  /** The results of a message handler: RPCMSG_RC_ERROR, RPCMSG_RC_NONE, RPCMSG_RC_HANDLED */
  const ERROR: int := -1
  const NONE: int := 0
  const HANDLED: int := 1

  /** The four continuations, and who waits: the number of a vCPU or of a native thread. */
  datatype Ack = VcpuRead | VcpuWrite | NativeRead | NativeWrite
  datatype Waiter = Waiter(ack: Ack, cookie: nat)

  predicate IsNative(w: Waiter) { w.ack.NativeRead? || w.ack.NativeWrite? }

  /** A continuation has been called with this data. */
  datatype Call = Call(waiter: Waiter, data: nat)

  /** ioreq_native_t: slot is 0 until one is given; posts counts the handoff semaphore. */
  datatype Native = Native(slot: nat, value: nat, posts: nat)

  /** waiting: the stored continuations (None for NULL); natives: the thread-local data of the
      threads that have any; free: the next native slot; calls: what was called so far. */
  datatype Acks = Acks(waiting: seq<Option<Waiter>>, natives: map<nat, Native>, free: nat, calls: seq<Call>)

  function Idle(): Acks { Acks(seq(SLOTS, _ => None), map[], NATIVE_BASE, []) }

  /** Thread-local data starts at zero. */
  function NativeOf(natives: map<nat, Native>, t: nat): Native {
    if t in natives then natives[t] else Native(0, 0, 0)
  }

  /** The effect of a continuation on the native thread that waits; a write leaves the value. */
  function Handoff(n: Native, ack: Ack, data: nat): Native {
    n.(value := if ack.NativeRead? then data else n.value, posts := n.posts + 1)
  }

  /** The first half of ioreq_start, on a free slot */
  function Store(a: Acks, slot: nat, w: Waiter): Acks
    requires slot < |a.waiting|
  {
    a.(waiting := a.waiting[slot := Some(w)])
  }

  /** ioreq_finish on a busy slot */
  function Finish(a: Acks, slot: nat, data: nat): Acks
    requires slot < |a.waiting| && a.waiting[slot].Some?
  {
    var w := a.waiting[slot].value;
    Acks(a.waiting[slot := None],
         if IsNative(w)
         then a.natives[w.cookie := Handoff(NativeOf(a.natives, w.cookie), w.ack, data)] else a.natives,
         a.free, a.calls + [Call(w, data)])
  }

  /** ioreq_native_slot for thread t; semOk tells whether a semaphore could be made. */
  function Claim(a: Acks, t: nat, semOk: bool): (r: (Acks, int)) {
    var n := NativeOf(a.natives, t);
    if n.slot != 0 then (a, n.slot as int)
    else if !semOk || a.free >= SLOTS then (a, -1)
    else (a.(natives := a.natives[t := n.(slot := a.free)], free := a.free + 1), a.free)
  }

  /** ioreq_native_wait of thread t, which takes one post. */
  function Waited(a: Acks, t: nat): Acks
    requires t in a.natives && a.natives[t].posts > 0
  {
    a.(natives := a.natives[t := a.natives[t].(posts := a.natives[t].posts - 1)])
  }

  /** What ioreq_finish needs of a response: a slot of its array, with a continuation. */
  predicate Answerable(a: Acks, m: Message) {
    SlotOf(m) < |a.waiting| && a.waiting[SlotOf(m)].Some?
  }

  /** The first assertion of ioreq_finish as it is written, with <= for the size of the array. */
  predicate SlotAsserted(a: Acks, m: Message) { SlotOf(m) <= |a.waiting| }

  /** A message that passes the assertion stays within the array unless its slot bits are 32. */
  lemma AssertionProtects(a: Acks, m: Message)
    requires |a.waiting| == SLOTS
    ensures SlotAsserted(a, m) ==> (SlotOf(m) < |a.waiting| <==> m.mr0 / 64 % 64 != 32)
  {
    SlotBits(m);
  }

  /** There is such a message: op MMIO, past the assertion, and past the array. */
  lemma AssertionGap(a: Acks, m: Message)
    requires |a.waiting| == SLOTS && m.mr0 == 32 * 64
    ensures OpOf(m) == OP_MMIO && SlotAsserted(a, m) && SlotOf(m) == |a.waiting|
  {
    hide SlotOf, OpOf;
    SlotBits(m);
    OpBits(m);
  }

  /** An answer to the request that a start has sent names the slot of the start, calls the
      continuation stored there with the data of the answer, and leaves the slots as they were. */
  lemma StartThenAnswer(a: Acks, slot: nat, w: Waiter, direction: nat, space: nat, size: nat,
                        offset: nat, val: nat, data: nat)
    requires slot < |a.waiting| == SLOTS && a.waiting[slot].None?
    ensures var m := Message(MmioMr0(direction, space, size, slot), offset, val, 0).(mr2 := data);
            var started := Store(a, slot, w);
            && OpOf(m) == OP_MMIO && SlotOf(m) == slot && Answerable(started, m)
            && Finish(started, SlotOf(m), m.mr2).waiting == a.waiting
            && Finish(started, SlotOf(m), m.mr2).calls == a.calls + [Call(w, data)]
  {
    hide MmioMr0, GetField;
    MmioFields(direction, space, size, slot);
    SlotFits(slot);
    assert a.waiting[slot := Some(w)][slot := None] == a.waiting;
  }

  /** The direction bit of the request that is sent says which continuation was stored: the one for
      reads is called for the answer to a read, and the other for the answer to a write. */
  lemma DirectionAgrees(direction: nat, read: Ack, write: Ack, space: nat, size: nat, slot: nat)
    requires direction < 2
    ensures (if direction == READ then read else write) ==
            (if MmioMr0(direction, space, size, slot) / 4096 % 2 == 0 then read else write)
  {
    hide MmioMr0, GetField;
    var mr0 := MmioMr0(direction, space, size, slot);
    MmioFields(direction, space, size, slot);
    FieldPlaces(mr0);
    assert Pow2(1) == 2;
    LowSmall(direction, 1);
  }

  lemma SlotFits(slot: nat)
    requires slot < SLOTS
    ensures Low(slot, 6) == slot
  {
    assert Pow2(6) == 64;
    LowSmall(slot, 6);
  }

  lemma SlotInRange(a: Acks, t: nat, semOk: bool)
    requires SlotsOk(a)
    ensures Claim(a, t, semOk).1 < SLOTS
  {
  }

  class Proxy {
    const rpc: Channel
    const ioacks: array<Option<Waiter>>
    var natives: map<nat, Native>
    var free: nat
    ghost var calls: seq<Call>

    ghost predicate Valid()
      reads this, ioacks, rpc, rpc.Repr
    {
      rpc.Valid() && ioacks.Length == SLOTS && this !in rpc.Repr && ioacks !in rpc.Repr
    }

    ghost function View(): (a: Acks)
      reads this, ioacks
      ensures |a.waiting| == ioacks.Length
    {
      Acks(ioacks[..], natives, free, calls)
    }

    constructor (rpc: Channel)
      requires rpc.Valid()
      ensures Valid() && this.rpc == rpc && fresh({this, ioacks}) && View() == Idle()
    {
      this.rpc := rpc;
      ioacks := new Option<Waiter>[SLOTS](_ => None);
      natives, free, calls := map[], NATIVE_BASE, [];
    }

    /** ioreq_start: the assertions are preconditions, and so is a free buffer. */
    method IoreqStart(slot: nat, read: Ack, write: Ack, cookie: nat, space: nat, direction: nat,
                      offset: nat, size: nat, val: nat)
      returns (err: int)
      requires Valid() && size <= 8
      requires slot < SLOTS ==> ioacks[slot].None? && |rpc.state.Lent()| < BUFFERS
      modifies ioacks, rpc.request`sent, rpc.request.prod, rpc.request.ring, rpc.state.state, rpc.messages, rpc`rung
      ensures Valid()
      ensures slot >= SLOTS ==> err == -1 && View() == old(View()) && rpc.View() == old(rpc.View())
      ensures slot < SLOTS ==>
                && View() == Store(old(View()), slot, Waiter(if direction == READ then read else write, cookie))
                && LowestFree(old(rpc.state.Lent()), 0, BUFFERS) < BUFFERS
                && rpc.View() == Send(old(rpc.View()), Message(MmioMr0(direction, space, size, slot), offset, val, 0))
                && err == if |old(rpc.request.Contents())| < SIZE && rpc.doorbell then 0 else -1
      ensures rpc.rung == old(rpc.rung)
                          + if slot < SLOTS && |old(rpc.request.Contents())| < SIZE && rpc.doorbell then 1 else 0
    {
      if slot >= ioacks.Length { return -1; }
      ioacks[slot] := Some(Waiter(if direction == READ then read else write, cookie));
      err := rpc.MmioStart(direction, space, slot, offset, size, val);
    }

    /** ioreq_finish */
    method IoreqFinish(slot: nat, data: nat) returns (err: int)
      requires ioacks.Length == SLOTS && slot < SLOTS && ioacks[slot].Some?
      modifies this`natives, this`calls, ioacks
      ensures err == 0 && View() == Finish(old(View()), slot, data)
    {
      var w := ioacks[slot].value;
      calls := calls + [Call(w, data)];
      if IsNative(w) {
        natives := natives[w.cookie := Handoff(NativeOf(natives, w.cookie), w.ack, data)];
      }
      err := 0;
      ioacks[slot] := None;
    }

    /** ioreq_native_slot */
    method NativeSlot(t: nat, semOk: bool) returns (slot: int)
      requires ioacks.Length == SLOTS
      modifies this`natives, this`free
      ensures (View(), slot) == Claim(old(View()), t, semOk)
    {
      if NativeOf(natives, t).slot != 0 { return NativeOf(natives, t).slot; }
      if !semOk { return -1; }
      if free >= ioacks.Length { return -1; }
      natives, free := natives[t := NativeOf(natives, t).(slot := free)], free + 1;
      return natives[t].slot;
    }

    /** ioreq_native up to the wait, in thread t */
    method NativeStart(t: nat, semOk: bool, space: nat, direction: nat, addr: nat, size: nat, value: nat)
      returns (err: int)
      requires Valid() && size <= 8 && SlotsOk(View())
      requires var slot := Claim(View(), t, semOk).1;
               0 <= slot < SLOTS ==> View().waiting[slot].None? && |rpc.state.Lent()| < BUFFERS
      modifies this`natives, this`free, ioacks
      modifies rpc.request`sent, rpc.request.prod, rpc.request.ring, rpc.state.state, rpc.messages, rpc`rung
      ensures Valid()
      ensures var (a, slot) := Claim(old(View()), t, semOk);
              if slot < 0 then err == -1 && View() == a && rpc.View() == old(rpc.View())
              else && slot < SLOTS && LowestFree(old(rpc.state.Lent()), 0, BUFFERS) < BUFFERS
                   && View() == Store(a, slot, Waiter(if direction == READ then NativeRead else NativeWrite, t))
                   && rpc.View() == Send(old(rpc.View()), Message(MmioMr0(direction, space, size, slot), addr, value, 0))
                   && err == if |old(rpc.request.Contents())| < SIZE && rpc.doorbell then 0 else -1
      ensures rpc.rung == old(rpc.rung)
                          + if Claim(old(View()), t, semOk).1 >= 0 && |old(rpc.request.Contents())| < SIZE && rpc.doorbell
                            then 1 else 0
    {
      hide SlotsOk, Send, MmioMr0;
      SlotInRange(View(), t, semOk);
      var slot := NativeSlot(t, semOk);
      if slot < 0 { return -1; }
      err := IoreqStart(slot, NativeRead, NativeWrite, t, space, direction, addr, size, value);
      if err < 0 { return -1; }
    }

    /** ioreq_native_wait, once the handoff semaphore has been posted */
    method NativeWait(t: nat) returns (value: nat)
      requires t in natives && natives[t].posts > 0
      modifies this`natives
      ensures value == old(natives[t].value)
      ensures View() == Waited(old(View()), t)
      ensures t in natives && natives[t] == old(natives[t]).(posts := old(natives[t].posts) - 1)
      ensures natives.Keys == old(natives.Keys) && forall u :: u in natives && u != t ==> natives[u] == old(natives[u])
    {
      natives := natives[t := natives[t].(posts := natives[t].posts - 1)];
      return natives[t].value;
    }

    /** handle_mmio */
    method HandleMmio(op: nat, m: Message) returns (rc: int)
      requires ioacks.Length == SLOTS && (op == OP_MMIO ==> Answerable(View(), m))
      modifies this`natives, this`calls, ioacks
      ensures op != OP_MMIO ==> rc == NONE && View() == old(View())
      ensures op == OP_MMIO ==> rc == HANDLED && View() == Finish(old(View()), SlotOf(m), m.mr2)
    {
      if op != OP_MMIO { return NONE; }
      var err := IoreqFinish(SlotOf(m), m.mr2);
      rc := if err != 0 then ERROR else HANDLED;
    }
  }

  /* ---------------------------------------------------------------- native slots */

  /** Each thread that has a slot has its own, above those of the vCPUs. */
  ghost predicate SlotsOk(a: Acks) {
    && NATIVE_BASE <= a.free <= SLOTS
    && (forall t :: t in a.natives && a.natives[t].slot != 0 ==> NATIVE_BASE <= a.natives[t].slot < a.free)
    && (forall t, u :: t in a.natives && u in a.natives && t != u && a.natives[t].slot != 0 ==>
          a.natives[t].slot != a.natives[u].slot)
  }

  /** No two waiting native requests are of the same thread. */
  ghost predicate ThreadsApart(a: Acks) {
    forall s, t :: 0 <= s < t < |a.waiting| && WaitsNative(a, s) && WaitsNative(a, t) ==>
                     a.waiting[s].value.cookie != a.waiting[t].value.cookie
  }

  predicate WaitsNative(a: Acks, s: nat) {
    s < |a.waiting| && a.waiting[s].Some? && IsNative(a.waiting[s].value)
  }

  /** A native thread waits in its own slot only. */
  ghost predicate WaitersOwn(a: Acks) {
    forall s: nat :: WaitsNative(a, s) ==> NativeOf(a.natives, a.waiting[s].value.cookie).slot == s != 0
  }

  /** Everything that requests, answers and waits do: faults of a vCPU use any slot they name, and
      native threads their own. */
  datatype Act =
    | ClaimSlot(t: nat, semOk: bool)
    | BeginVcpu(slot: nat, w: Waiter)
    | BeginNative(t: nat, ack: Ack)
    | Answer(slot: nat, data: nat)
    | Wait(t: nat)

  /** A start on a slot that is out of range or busy does not get that far. */
  function Begin(a: Acks, slot: nat, w: Waiter): Acks {
    if slot < |a.waiting| && a.waiting[slot].None? then Store(a, slot, w) else a
  }

  function Do(a: Acks, x: Act): Acks {
    match x
    case ClaimSlot(t, semOk) => Claim(a, t, semOk).0
    case BeginVcpu(slot, w) => if IsNative(w) then a else Begin(a, slot, w)
    case BeginNative(t, ack) =>
      var slot := NativeOf(a.natives, t).slot;
      if slot == 0 || !IsNative(Waiter(ack, t)) then a else Begin(a, slot, Waiter(ack, t))
    case Answer(slot, data) => if slot < |a.waiting| && a.waiting[slot].Some? then Finish(a, slot, data) else a
    case Wait(t) => if t in a.natives && a.natives[t].posts > 0 then Waited(a, t) else a
  }

  function Exec(acts: seq<Act>): Acks {
    if acts == [] then Idle() else Do(Exec(acts[..|acts| - 1]), acts[|acts| - 1])
  }

  /** Nothing but a claim touches the slots of threads. */
  lemma SlotsSame(a: Acks, x: Act, t: nat)
    requires !x.ClaimSlot?
    ensures Do(a, x).free == a.free && NativeOf(Do(a, x).natives, t).slot == NativeOf(a.natives, t).slot
  {
  }

  lemma SlotsStep(a: Acks, x: Act)
    requires SlotsOk(a)
    ensures SlotsOk(Do(a, x))
  {
    if !x.ClaimSlot? {
      forall t ensures NativeOf(Do(a, x).natives, t).slot == NativeOf(a.natives, t).slot { SlotsSame(a, x, t); }
    }
  }

  lemma WaitersStep(a: Acks, x: Act)
    requires WaitersOwn(a)
    ensures WaitersOwn(Do(a, x))
  {
    var a' := Do(a, x);
    forall s: nat | WaitsNative(a', s) ensures NativeOf(a'.natives, a'.waiting[s].value.cookie).slot == s != 0 {
      if !x.ClaimSlot? { SlotsSame(a, x, a'.waiting[s].value.cookie); }
      assert WaitsNative(a, s) || x.BeginNative?;
    }
  }

  lemma {:induction false} SlotsKept(acts: seq<Act>)
    ensures SlotsOk(Exec(acts)) && WaitersOwn(Exec(acts))
  {
    hide SlotsOk, WaitersOwn, Do;
    if acts == [] {
      SlotsStart();
    } else {
      var before := Exec(acts[..|acts| - 1]);
      SlotsKept(acts[..|acts| - 1]);
      SlotsStep(before, acts[|acts| - 1]);
      WaitersStep(before, acts[|acts| - 1]);
    }
  }

  lemma SlotsStart()
    ensures SlotsOk(Idle()) && WaitersOwn(Idle())
  {
  }

  /** So in every run no thread waits in two slots. */
  lemma {:induction false} ApartInRuns(acts: seq<Act>)
    ensures ThreadsApart(Exec(acts))
  {
    hide SlotsOk;
    SlotsKept(acts);
  }

  /** A thread keeps the slot it was given. */
  lemma {:induction false} SlotStays(acts: seq<Act>, n: nat, t: nat)
    requires n <= |acts|
    ensures var s := NativeOf(Exec(acts[..n]).natives, t).slot;
            s != 0 ==> NativeOf(Exec(acts).natives, t).slot == s
    decreases |acts|
  {
    if n == |acts| {
      assert acts[..n] == acts;
    } else {
      SlotStays(acts[..|acts| - 1], n, t);
      assert acts[..|acts| - 1][..n] == acts[..n];
    }
  }
}
