/** What the result of rpc_run tells, in terms of the messages that wait and the devices that are
    registered. */
module GlueResults {
  import opened Bits
  import opened Packing
  import opened Bitmap
  import opened Rpc
  import opened IoProxy
  import opened Glue
  import opened GlueTheorems
  import Irq

  /* ---------------------------------------------------------------- which messages fail */

  /** Whether a message fails, given the registered devices.  Replies never do. */
  predicate Fails(e: Env, devs: seq<Irq.PciDev>, m: Message) {
    var op := OpOf(m);
    if op == 0 || op == 18 then false
    else if op == 16 && m.mr1 % 0x1_0000_0000 < 32 then
      m.mr2 % 0x1_0000_0000 > 2 || forall d :: d in devs ==> d.proxy != e.proxy || d.backend != m.mr1 % 32 * 8
    else if op == 16 || op == 20 then e.refuses(m)
    else if op == 19 then |devs| >= 31 || !e.bus(|devs|).At?
    else true
  }

  /** The devices registered after a message. */
  function Registered(e: Env, devs: seq<Irq.PciDev>, m: Message): seq<Irq.PciDev> {
    if OpOf(m) == 19 && !Fails(e, devs, m)
    then devs + [Irq.PciDev(e.bus(|devs|).devfn, m.mr1 % 32 * 8, e.proxy)] else devs
  }

  /** The index of the first message that fails, or the number of messages; and the devices
      registered when it is reached. */
  function FirstFailing(e: Env, devs: seq<Irq.PciDev>, ms: seq<Message>): (n: nat)
    ensures n <= |ms|
    decreases |ms|
  {
    if ms == [] || Fails(e, devs, ms[0]) then 0 else 1 + FirstFailing(e, Registered(e, devs, ms[0]), ms[1..])
  }

  function RegisteredAll(e: Env, devs: seq<Irq.PciDev>, ms: seq<Message>): seq<Irq.PciDev>
    decreases |ms|
  {
    if ms == [] || Fails(e, devs, ms[0]) then devs else RegisteredAll(e, Registered(e, devs, ms[0]), ms[1..])
  }

  lemma LineFails(e: Env, p: Irq.Pci, m: Message)
    requires |p.sources| == Irq.PINS
    ensures var r := Irq.Intx(e.base, p, e.proxy, m.mr1 % 32 * 8, m.mr2 % 0x1_0000_0000);
            r.1 != 0 <==> (m.mr2 % 0x1_0000_0000 > 2
                           || forall d :: d in p.devs ==> d.proxy != e.proxy || d.backend != m.mr1 % 32 * 8)
  {
    hide Irq.Change;
  }

  lemma FailsDecides(e: Env, v: Vmm, m: Message)
    requires Shape(v) && Sound(v, m)
    ensures Process(e, v, m).1 != 0 <==> Fails(e, v.pci.devs, m)
    ensures Process(e, v, m).0.pci.devs == Registered(e, v.pci.devs, m)
  {
    hide Process, Finish, Irq.Intx, OpOf;
    Routes(e, v, m);
    LineFails(e, v.pci, m);
  }

  /** Processing stops at the first message that fails. */
  lemma {:induction false} BatchDecided(e: Env, v: Vmm, ms: seq<Message>)
    requires Shape(v) && AllSound(e, v, ms)
    ensures ProcessAll(e, v, ms).done == FirstFailing(e, v.pci.devs, ms)
    ensures ProcessAll(e, v, ms).v.pci.devs == RegisteredAll(e, v.pci.devs, ms)
    decreases |ms|
  {
    hide Process, Fails;
    if ms != [] {
      FailsDecides(e, v, ms[0]);
      if !Fails(e, v.pci.devs, ms[0]) {
        BatchDecided(e, Process(e, v, ms[0]).0, ms[1..]);
      } else {
        NoRegistration(e, v.pci.devs, ms[0]);
      }
    }
  }

  lemma NoRegistration(e: Env, devs: seq<Irq.PciDev>, m: Message)
    requires Fails(e, devs, m)
    ensures Registered(e, devs, m) == devs
  {
  }

  /* ---------------------------------------------------------------- what the result tells */

  /** Whether some response fails, and whether some event does, when the responses come first. */
  ghost predicate ResponseFails(e: Env, v: Vmm, was: Arrived, messages: seq<Message>)
    requires |messages| == BUFFERS && ValidIds(was.replies)
  {
    FirstFailing(e, v.pci.devs, Picked(messages, was.replies)) < |was.replies|
  }

  ghost predicate EventFails(e: Env, v: Vmm, was: Arrived, messages: seq<Message>)
    requires |messages| == BUFFERS && ValidIds(was.replies)
  {
    FirstFailing(e, RegisteredAll(e, v.pci.devs, Picked(messages, was.replies)), was.events) < |was.events|
  }

  /** When no event waits, result 0 means that no response fails; otherwise that no event does. */
  lemma ZeroMeans(e: Env, v: Vmm, was: Arrived, messages: seq<Message>)
    requires Shape(v) && RunSound(e, v, was, messages)
    ensures Run(e, v, was, messages).rc == 0 <==>
            if was.events == [] then !ResponseFails(e, v, was, messages) else !EventFails(e, v, was, messages)
  {
    hide Process, Fails;
    var ms := Picked(messages, was.replies);
    BatchDecided(e, v, ms);
    BatchDecided(e, ProcessAll(e, v, ms).v, was.events);
  }

  /** The ids queued are lent ids, each queued once. */
  ghost predicate LentOnce(was: Arrived) {
    && (forall k :: 0 <= k < |was.replies| ==> was.replies[k] in was.lent)
    && (forall j, k :: 0 <= j < k < |was.replies| ==> was.replies[j] != was.replies[k])
  }

  lemma NotBefore(ids: seq<nat>, n: nat, k: nat)
    requires n <= k < |ids| && forall i, j :: 0 <= i < j < |ids| ==> ids[i] != ids[j]
    ensures ids[k] !in Ids(ids[..n])
  {
    assert ids[k] !in ids[..n];
  }

  /** A response that fails has left the queue, but its buffer stays lent; all before it are reclaimed, and
      those behind it still wait. */
  lemma FailedKeepsBuffer(e: Env, v: Vmm, was: Arrived, messages: seq<Message>)
    requires Shape(v) && RunSound(e, v, was, messages) && LentOnce(was)
    ensures var n := FirstFailing(e, v.pci.devs, Picked(messages, was.replies)); var left := Run(e, v, was, messages).left;
            && left.lent == was.lent - Ids(was.replies[..n])
            && left.replies == (if n < |was.replies| then was.replies[n + 1..] else [])
            && (n < |was.replies| ==> was.replies[n] in left.lent && was.replies[n] !in left.replies)
  {
    hide Process, Fails, FirstFailing;
    var ms := Picked(messages, was.replies);
    BatchDecided(e, v, ms);
    var n := FirstFailing(e, v.pci.devs, ms);
    if n < |was.replies| {
      NotBefore(was.replies, n, n);
      assert was.replies[n] !in was.replies[n + 1..];
    }
  }

  /** Whatever becomes of the responses, every event up to the first that fails is taken, in order, and
      those behind it still wait.  Events return no buffers. */
  lemma EventsLeft(e: Env, v: Vmm, was: Arrived, messages: seq<Message>)
    requires Shape(v) && RunSound(e, v, was, messages)
    ensures var devs := RegisteredAll(e, v.pci.devs, Picked(messages, was.replies));
            var n := FirstFailing(e, devs, was.events); var left := Run(e, v, was, messages).left;
            && left.events == (if n < |was.events| then was.events[n + 1..] else [])
            && Run(e, v, was, messages).v.pci.devs == RegisteredAll(e, devs, was.events)
            && left.lent == Run(e, v, was.(events := []), messages).left.lent
  {
    hide Process, Fails, FirstFailing, RegisteredAll;
    var ms := Picked(messages, was.replies);
    BatchDecided(e, v, ms);
    BatchDecided(e, ProcessAll(e, v, ms).v, was.events);
  }

  /** rpc_run returns 0 although it leaves the buffer of a queued response lent, exactly when a response
      fails, events wait, and none of them fails. */
  lemma HiddenFailure(e: Env, v: Vmm, was: Arrived, messages: seq<Message>)
    requires Shape(v) && RunSound(e, v, was, messages) && LentOnce(was)
    ensures var r := Run(e, v, was, messages);
            r.rc == 0 && (exists k :: 0 <= k < |was.replies| && was.replies[k] in r.left.lent) <==>
            ResponseFails(e, v, was, messages) && was.events != [] && !EventFails(e, v, was, messages)
  {
    hide Process, Fails, FirstFailing, Run, RegisteredAll, ProcessAll, AllSound;
    ZeroMeans(e, v, was, messages);
    FailedKeepsBuffer(e, v, was, messages);
    var n := FirstFailing(e, v.pci.devs, Picked(messages, was.replies));
    if n == |was.replies| { assert was.replies[..n] == was.replies; }
  }

  /** When all responses are replies to requests in flight, none fails: rpc_run takes all of them,
      reclaims exactly their buffers, and returns 0 exactly when no event fails. */
  lemma GoodRun(e: Env, v: Vmm, was: Arrived, messages: seq<Message>)
    requires Shape(v) && RunSound(e, v, was, messages) && Replies(v, Picked(messages, was.replies))
    ensures var r := Run(e, v, was, messages);
            && r.left.replies == [] && r.left.lent == was.lent - Ids(was.replies)
            && (r.rc == 0 <==> !EventFails(e, v, was, messages)) && (r.rc == 0 ==> r.left.events == [])
  {
    hide Process, Fails;
    var ms := Picked(messages, was.replies);
    RepliesAnswered(e, v, ms);
    assert was.replies[..|was.replies|] == was.replies;
    BatchDecided(e, v, ms);
    BatchDecided(e, ProcessAll(e, v, ms).v, was.events);
  }

  /** A failure is hidden: a response of unknown op fails, an event succeeds, rpc_run returns 0, and
      the buffer of the response is lost. */
  lemma ErrorHidden(e: Env, v: Vmm, messages: seq<Message>)
    requires v == Vmm(Idle(), Irq.EMPTY, false, 0)
    requires |messages| == BUFFERS && messages[0] == Message(63, 0, 0, 0)
    ensures var was := Arrived([0], {0}, [Message(OP_START_VM, 0, 0, 0)]);
            && RunSound(e, v, was, messages) && ResponseFails(e, v, was, messages)
            && Run(e, v, was, messages).rc == 0
            && Run(e, v, was, messages).left == Arrived([], {0}, [])
  {
    hide OpOf, Process;
    var bad, good := Message(63, 0, 0, 0), Message(OP_START_VM, 0, 0, 0);
    var was := Arrived([0], {0}, [good]);
    OpBits(bad);
    OpBits(good);
    Routes(e, v, bad);
    Routes(e, v, good);
    assert Picked(messages, was.replies) == [bad];
    assert Fails(e, [], bad) && FirstFailing(e, [], [bad]) == 0;
    assert ProcessAll(e, v, [bad]) == Outcome(v, 0, -1);
    assert [good][1..] == [];
    assert ProcessAll(e, v, [good]).done == 1;
    assert AllSound(e, v, [bad]) && AllSound(e, v, [good]);
  }
}
