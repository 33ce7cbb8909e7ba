/** The unbounded ring with the two mistakes that comparisons modulo 2^32 can make.

    A thread whose copy of the tail is old may pass the wait for the head/tail distance because the
    head has gained 2^32 on the copy, and may be refused because the limit has.  Everything else is
    as in module Ring.  Neither mistake harms the ring: the invariant and the history are kept. */
module RingLoose {
  import opened Bits
  import opened Ring
  import opened RingSafety
  import opened RingData
  import opened RingTheorems

  predicate Overtaken(c: Config, b: Bound, ot: Marker) {
    b.head.pos <= ot.pos + M <= b.head.pos + c.h
  }

  predicate NearLoose(c: Config, b: Bound, ot: Marker) { Near(c, b, ot) || Overtaken(c, b, ot) }

  predicate BlockedLoose(c: Config, s: State, side: Side, ot: Marker) {
    Blocked(c, s, side, ot) || Limit(c, s, side) == ot.pos + M
  }

  function LooseStep(c: Config, s: State, i: nat): State
    requires c.Valid() && i < |s.threads|
  {
    var side := s.threads[i].side;
    match s.threads[i].phase
    case WaitHead(ot) => s.Goto(i, if NearLoose(c, s.Of(side), ot) then Check(ot) else WaitReload)
    case Check(ot) => s.Goto(i, if BlockedLoose(c, s, side, ot) then Refused(ot) else Cas(ot))
    case _ => Step(c, s, i)
  }

  function LooseApply(c: Config, s: State, a: Action): State
    requires c.Valid()
  {
    if a.Run? then if a.i < |s.threads| then LooseStep(c, s, a.i) else s else Apply(c, s, a)
  }

  function LooseExec(c: Config, s: State, run: seq<Action>): State
    requires c.Valid()
  {
    if run == [] then s else LooseApply(c, LooseExec(c, s, run[..|run| - 1]), run[|run| - 1])
  }

  /** The thread passes the wait, or is refused, by mistake. */
  predicate Mistaken(c: Config, s: State, i: nat, phase: Phase)
    requires i < |s.threads|
  {
    match s.threads[i].phase
    case WaitHead(ot) => phase == Check(ot) && Overtaken(c, s.Of(s.threads[i].side), ot)
    case Check(ot) => phase == Refused(ot) && Limit(c, s, s.threads[i].side) == ot.pos + M
    case _ => false
  }

  /** A step is a step of module Ring, or one of the two mistakes. */
  lemma LooseCases(c: Config, s: State, i: nat) returns (phase: Phase)
    requires c.Valid() && i < |s.threads|
    ensures LooseStep(c, s, i) == Step(c, s, i) || (Mistaken(c, s, i, phase) && LooseStep(c, s, i) == s.Goto(i, phase))
  {
    phase := LooseStep(c, s, i).threads[i].phase;
  }

  lemma LooseThreads(c: Config, s: State, i: nat)
    requires c.Valid() && i < |s.threads|
    ensures |LooseStep(c, s, i).threads| == |s.threads| && LooseStep(c, s, i).threads[i].side == s.threads[i].side
  {
    hide Step, LooseStep, Mistaken;
    var phase := LooseCases(c, s, i);
    if Reserves(s, i) { ReserveFrame(c, s, i); }
    else if Publishes(s, i) { PublishFrame(c, s, i); }
    else { QuietFrame(c, s, i); }
  }

  lemma MistakeProtocol(c: Config, s: State, i: nat, phase: Phase)
    requires c.Valid() && ProtocolOk(c, s) && i < |s.threads| && Mistaken(c, s, i, phase)
    ensures ProtocolOk(c, s.Goto(i, phase))
  {
    hide HoldersOk, BoundOk;
    var s' := s.Goto(i, phase);
    assert LocalOk(c, s.Of(s.threads[i].side), s.threads[i]);
    LocalStep(c, s.prod, s.threads, Prod, i, s'.threads[i]);
    LocalStep(c, s.cons, s.threads, Cons, i, s'.threads[i]);
    FlowStep(c, s, s', i);
  }

  lemma MistakeData(c: Config, s: State, i: nat, phase: Phase)
    requires c.Valid() && DataOk(c, s) && i < |s.threads| && Mistaken(c, s, i, phase)
    ensures DataOk(c, s.Goto(i, phase))
  {
    hide Overtaken;
    assert Carries(c, s, s.threads[i]);
    MemoryKept(c, s, s.Goto(i, phase), i);
  }

  lemma LooseKeeps(c: Config, s: State, a: Action)
    requires c.Valid() && Inv(c, s)
    ensures Inv(c, LooseApply(c, s, a))
  {
    hide Step, LooseStep, Mistaken, ProtocolOk, DataOk;
    InvStep(c, s, a);
    if a.Run? && a.i < |s.threads| {
      var phase := LooseCases(c, s, a.i);
      if LooseStep(c, s, a.i) != Step(c, s, a.i) {
        MistakeProtocol(c, s, a.i, phase);
        MistakeData(c, s, a.i, phase);
      }
    }
  }

  lemma {:induction false} LooseInv(c: Config, s: State, run: seq<Action>)
    requires c.Valid() && Inv(c, s)
    ensures Inv(c, LooseExec(c, s, run))
  {
    if run != [] {
      LooseInv(c, s, run[..|run| - 1]);
      LooseKeeps(c, LooseExec(c, s, run[..|run| - 1]), run[|run| - 1]);
    }
  }

  /** Every step leaves the results alone, or delivers one position that was not delivered before. */
  lemma LooseHistoryStep(c: Config, s: State, a: Action)
    requires c.Valid() && Inv(c, s)
    ensures var s' := LooseApply(c, s, a);
            && s.log <= s'.log && |s'.log| <= |s.log| + 1
            && (s'.out == s.out || (a.Run? && exists e :: Delivers(s, s', a.i, e)))
  {
    hide Inv, Step, LooseStep, Mistaken;
    HistoryStep(c, s, a);
    if a.Run? && a.i < |s.threads| {
      var phase := LooseCases(c, s, a.i);
    }
  }

  /** So over any run, what was sent and what was delivered stay fixed. */
  lemma {:induction false} LooseHistory(c: Config, s: State, run: seq<Action>)
    requires c.Valid() && Inv(c, s)
    ensures var s' := LooseExec(c, s, run);
            s.log <= s'.log && forall p :: p in s.out ==> p in s'.out && s'.out[p] == s.out[p]
  {
    if run != [] {
      LooseHistory(c, s, run[..|run| - 1]);
      LooseInv(c, s, run[..|run| - 1]);
      LooseHistoryStep(c, LooseExec(c, s, run[..|run| - 1]), run[|run| - 1]);
    }
  }

  lemma {:induction false} LooseConcat(c: Config, s: State, r1: seq<Action>, r2: seq<Action>)
    requires c.Valid()
    ensures LooseExec(c, s, r1 + r2) == LooseExec(c, LooseExec(c, s, r1), r2)
    decreases |r2|
  {
    if r2 == [] {
      assert r1 + r2 == r1;
    } else {
      var last := |r2| - 1;
      LooseConcat(c, s, r1, r2[..last]);
      assert (r1 + r2)[..|r1 + r2| - 1] == r1 + r2[..last];
    }
  }

  /** Whatever a step of a run records is still there at its end. */
  lemma {:induction false} HistoryInRun(c: Config, s: State, run: seq<Action>, n: nat)
    requires c.Valid() && Inv(c, s) && n < |run|
    ensures var s', now := LooseApply(c, LooseExec(c, s, run[..n]), run[n]), LooseExec(c, s, run);
            s'.log <= now.log && forall p :: p in s'.out ==> p in now.out && now.out[p] == s'.out[p]
  {
    hide Inv, LooseApply;
    var first := run[..n + 1];
    assert first[..|first| - 1] == run[..n] && first + run[n + 1..] == run;
    LooseInv(c, s, first);
    LooseConcat(c, s, first, run[n + 1..]);
    LooseHistory(c, LooseExec(c, s, first), run[n + 1..]);
  }

  /** A consumer that becomes completed delivers its position. */
  lemma LooseDelivery(c: Config, s: State, i: nat)
    requires c.Valid() && Inv(c, s) && i < |s.threads| && s.threads[i].side.Cons?
    requires LooseStep(c, s, i).threads[i].phase.Completed? && !s.threads[i].phase.Completed?
    ensures var s' := LooseStep(c, s, i); Delivers(s, s', i, s'.threads[i].phase.entry)
  {
    hide ProtocolOk, DataOk;
    assert Publishes(s, i);
    StepCases(c, s, i);
    ReadyToPublish(c, s, i);
    PublishConsFrame(c, s, i);
  }

  /** The copy of the tail that thread i is about to use is less than age reservations old. */
  ghost predicate Younger(s: State, i: nat, age: int) {
    i < |s.threads| ==>
      match s.threads[i].phase
      case WaitHead(ot) => s.Of(s.threads[i].side).tail.pos - ot.pos < age
      case Check(ot) => s.Of(s.threads[i].side).tail.pos - ot.pos < age
      case Cas(ot) => s.Of(s.threads[i].side).tail.pos - ot.pos < age
      case _ => true
  }

  /** No mistake happens with a copy less than 2^32 - n reservations old. */
  lemma LooseIsStep(c: Config, s: State, i: nat)
    requires c.Valid() && ProtocolOk(c, s) && i < |s.threads| && c.n < M && Younger(s, i, M - c.n)
    ensures LooseStep(c, s, i) == Step(c, s, i)
  {
    assert BoundOk(c, s.prod) && BoundOk(c, s.cons);
    assert LocalOk(c, s.Of(s.threads[i].side), s.threads[i]);
  }
}
