/** What native threads see over any run of claims, requests, answers and waits: every wait takes one
    answer of the thread's own requests, and reads the data of the last. */
module NativeThreads {
  import opened Options
  import opened IoProxy

  /** How many calls were made for native thread t. */
  function AnswersTo(calls: seq<Call>, t: nat): nat {
    if calls == [] then 0
    else
      var w := calls[|calls| - 1].waiter;
      AnswersTo(calls[..|calls| - 1], t) + if IsNative(w) && w.cookie == t then 1 else 0
  }

  /** The data of the last read answered to native thread t, or 0. */
  function LastRead(calls: seq<Call>, t: nat): nat {
    if calls == [] then 0
    else
      var c := calls[|calls| - 1];
      if c.waiter == Waiter(NativeRead, t) then c.data else LastRead(calls[..|calls| - 1], t)
  }

  /** How many waits of thread t have passed: those made when its semaphore was posted. */
  function WaitsPassed(acts: seq<Act>, t: nat): nat {
    if acts == [] then 0
    else
      WaitsPassed(acts[..|acts| - 1], t)
      + if acts[|acts| - 1] == Wait(t) && NativeOf(Exec(acts[..|acts| - 1]).natives, t).posts > 0 then 1 else 0
  }

  /** How many requests thread t has begun: on its own slot, when that was free. */
  function Begun(acts: seq<Act>, t: nat): nat {
    if acts == [] then 0
    else Begun(acts[..|acts| - 1], t) + if Begins(Exec(acts[..|acts| - 1]), acts[|acts| - 1], t) then 1 else 0
  }

  predicate Begins(a: Acks, x: Act, t: nat) {
    && x.BeginNative? && x.t == t && (x.ack.NativeRead? || x.ack.NativeWrite?)
    && var slot := NativeOf(a.natives, t).slot; 0 < slot < |a.waiting| && a.waiting[slot].None?
  }

  /** A request of thread t is in flight. */
  predicate InFlight(a: Acks, t: nat) {
    var slot := NativeOf(a.natives, t).slot;
    0 < slot < |a.waiting| && a.waiting[slot].Some? && IsNative(a.waiting[slot].value) && a.waiting[slot].value.cookie == t
  }

  /* ---------------------------------------------------------------- one act */

  lemma Appended(calls: seq<Call>, c: Call, t: nat)
    ensures AnswersTo(calls + [c], t) == AnswersTo(calls, t) + if IsNative(c.waiter) && c.waiter.cookie == t then 1 else 0
    ensures LastRead(calls + [c], t) == if c.waiter == Waiter(NativeRead, t) then c.data else LastRead(calls, t)
  {
    assert (calls + [c])[..|calls|] == calls;
  }

  lemma PostsStep(a: Acks, x: Act, t: nat)
    ensures NativeOf(Do(a, x).natives, t).posts + (if x == Wait(t) && NativeOf(a.natives, t).posts > 0 then 1 else 0)
            == NativeOf(a.natives, t).posts + AnswersTo(Do(a, x).calls, t) - AnswersTo(a.calls, t)
  {
    if x.Answer? && x.slot < |a.waiting| && a.waiting[x.slot].Some? {
      Appended(a.calls, Call(a.waiting[x.slot].value, x.data), t);
    }
  }

  lemma ReadStep(a: Acks, x: Act, t: nat)
    requires NativeOf(a.natives, t).value == LastRead(a.calls, t)
    ensures NativeOf(Do(a, x).natives, t).value == LastRead(Do(a, x).calls, t)
  {
    if x.Answer? && x.slot < |a.waiting| && a.waiting[x.slot].Some? {
      Appended(a.calls, Call(a.waiting[x.slot].value, x.data), t);
    }
  }

  lemma FlightStep(a: Acks, x: Act, t: nat)
    requires WaitersOwn(a) && WaitersOwn(Do(a, x))
    ensures (if InFlight(Do(a, x), t) then 1 else 0) + AnswersTo(Do(a, x).calls, t) ==
            (if InFlight(a, t) then 1 else 0) + AnswersTo(a.calls, t) + if Begins(a, x, t) then 1 else 0
  {
    match x
    case ClaimSlot(u, _) => ClaimFlight(a, x, t);
    case Answer(slot, data) =>
      if slot < |a.waiting| && a.waiting[slot].Some? {
        Appended(a.calls, Call(a.waiting[slot].value, data), t);
        if WaitsNative(a, slot) { SlotsSame(a, x, t); }
      }
    case _ =>
  }

  lemma ClaimFlight(a: Acks, x: Act, t: nat)
    requires x.ClaimSlot? && WaitersOwn(a) && WaitersOwn(Do(a, x))
    ensures InFlight(Do(a, x), t) == InFlight(a, t) && Do(a, x).calls == a.calls
  {
    var a' := Do(a, x);
    if InFlight(a', t) { assert WaitsNative(a, NativeOf(a'.natives, t).slot); }
  }

  /* ---------------------------------------------------------------- whole runs */

  /** The semaphore of a thread holds its answers less the waits that have passed. */
  lemma {:induction false} PostsCounted(acts: seq<Act>, t: nat)
    ensures NativeOf(Exec(acts).natives, t).posts + WaitsPassed(acts, t) == AnswersTo(Exec(acts).calls, t)
  {
    if acts != [] {
      PostsCounted(acts[..|acts| - 1], t);
      PostsStep(Exec(acts[..|acts| - 1]), acts[|acts| - 1], t);
    }
  }

  /** The requests a thread has begun are answered once each, but for the one in flight. */
  lemma {:induction false} AnsweredOnce(acts: seq<Act>, t: nat)
    ensures Begun(acts, t) == AnswersTo(Exec(acts).calls, t) + if InFlight(Exec(acts), t) then 1 else 0
  {
    hide WaitersOwn, SlotsOk, Do;
    if acts == [] {
      NothingBegun(t);
    } else {
      AnsweredOnce(acts[..|acts| - 1], t);
      SlotsKept(acts[..|acts| - 1]);
      SlotsKept(acts);
      FlightStep(Exec(acts[..|acts| - 1]), acts[|acts| - 1], t);
    }
  }

  lemma NothingBegun(t: nat)
    ensures !InFlight(Idle(), t)
  {
  }

  /** So no wait passes before its answer: while a request of t is in flight, and all those before it have
      been answered and waited for, the semaphore is down and a wait of t changes nothing. */
  lemma {:induction false} NoEarlyWait(acts: seq<Act>, t: nat)
    requires InFlight(Exec(acts), t) && Begun(acts, t) == WaitsPassed(acts, t) + 1
    ensures NativeOf(Exec(acts).natives, t).posts == 0 && Exec(acts + [Wait(t)]) == Exec(acts)
  {
    PostsCounted(acts, t);
    AnsweredOnce(acts, t);
    assert (acts + [Wait(t)])[..|acts|] == acts;
  }

  /** And when its answer has come, it can: the semaphore then holds exactly that one post. */
  lemma {:induction false} WaitAfterAnswer(acts: seq<Act>, t: nat)
    requires !InFlight(Exec(acts), t) && Begun(acts, t) == WaitsPassed(acts, t) + 1
    ensures NativeOf(Exec(acts).natives, t).posts == 1 && WaitsPassed(acts + [Wait(t)], t) == Begun(acts, t)
  {
    PostsCounted(acts, t);
    AnsweredOnce(acts, t);
    assert (acts + [Wait(t)])[..|acts|] == acts;
  }

  /** What a thread reads is the data of the last read answered to it. */
  lemma {:induction false} ValueIsLastRead(acts: seq<Act>, t: nat)
    ensures NativeOf(Exec(acts).natives, t).value == LastRead(Exec(acts).calls, t)
  {
    if acts != [] {
      ValueIsLastRead(acts[..|acts| - 1], t);
      ReadStep(Exec(acts[..|acts| - 1]), acts[|acts| - 1], t);
    }
  }

  /* ---------------------------------------------------------------- how many threads */

  /** The threads that have a slot. */
  function Holders(natives: map<nat, Native>): set<nat> { set t | t in natives && natives[t].slot != 0 }

  lemma HoldersStep(a: Acks, x: Act)
    requires SlotsOk(a)
    ensures |Holders(Do(a, x).natives)| + a.free == |Holders(a.natives)| + Do(a, x).free
  {
    if x.ClaimSlot? {
      ClaimHolders(a, x.t, x.semOk);
    } else {
      HoldersSame(a, x);
    }
  }

  lemma ClaimHolders(a: Acks, t: nat, semOk: bool)
    requires a.free > 0
    ensures var a' := Claim(a, t, semOk).0; |Holders(a'.natives)| + a.free == |Holders(a.natives)| + a'.free
  {
    var a' := Claim(a, t, semOk).0;
    if a'.free != a.free { assert Holders(a'.natives) == Holders(a.natives) + {t}; }
  }

  lemma HoldersSame(a: Acks, x: Act)
    requires SlotsOk(a) && !x.ClaimSlot?
    ensures Holders(Do(a, x).natives) == Holders(a.natives) && Do(a, x).free == a.free
  {
    hide SlotsOk;
    forall t ensures t in Holders(Do(a, x).natives) <==> t in Holders(a.natives) { SlotsSame(a, x, t); }
  }

  lemma {:induction false} HoldersCount(acts: seq<Act>)
    ensures Exec(acts).free == 16 + |Holders(Exec(acts).natives)|
  {
    hide SlotsOk, WaitersOwn, Do, Holders;
    if acts == [] {
      assert Holders(map[]) == {} by { NoHolders(); }
    } else {
      HoldersCount(acts[..|acts| - 1]);
      SlotsKept(acts[..|acts| - 1]);
      HoldersStep(Exec(acts[..|acts| - 1]), acts[|acts| - 1]);
    }
  }

  lemma NoHolders()
    ensures Holders(map[]) == {}
  {
  }

  /** In every run: a thread that asks is refused exactly when it has no slot and no semaphore can be made
      or sixteen threads have slots; otherwise its slot is one of 16 to 31, nobody else's, and stays. */
  lemma {:induction false} NativeSlots(acts: seq<Act>, t: nat, semOk: bool, u: nat)
    ensures var a := Exec(acts); var got := Claim(a, t, semOk).1;
            && (got == -1 <==> t !in Holders(a.natives) && (!semOk || |Holders(a.natives)| >= 16))
            && (got != -1 ==>
                  && 16 <= got < 32 && NativeOf(Claim(a, t, semOk).0.natives, t).slot == got
                  && (u != t ==> NativeOf(a.natives, u).slot != got))
  {
    SlotsKept(acts);
    HoldersCount(acts);
  }
}
