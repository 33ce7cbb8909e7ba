/** What becomes of a thread that asks for an entry: it goes on asking, is refused because there is
    none, or gets the next one, and a producer then leaves there exactly what it was given. */
module RingAcquire {
  import opened Ring
  import opened RingSafety
  import opened RingData
  import opened RingTheorems
  import opened RingSolo

  /** The queue has no entry for this side: it is full for producers, or empty for consumers. */
  predicate Exhausted(c: Config, s: State, side: Side) {
    if side.Prod? then s.prod.tail.pos == s.cons.head.pos + c.n else s.cons.tail.pos == s.prod.head.pos
  }

  /** Only thread i has changed, and it still asks for the same. */
  predicate StillAsks(s: State, s': State, i: nat) {
    && i < |s.threads| == |s'.threads| && s' == s.SetThread(i, s'.threads[i])
    && s'.threads[i].Pending() && s'.threads[i].side == s.threads[i].side && s'.threads[i].item == s.threads[i].item
  }

  /** Thread i has got the next entry of its side. */
  predicate GotEntry(s: State, s': State, i: nat) {
    && i < |s.threads| == |s'.threads|
    && var side := s.threads[i].side; var b, b' := s.Of(side), s'.Of(side);
       && s'.threads == s.threads[i := s'.threads[i]] && s'.threads[i].side == side
       && s'.threads[i].phase == Move(b.tail.pos, 0)
       && b'.tail == Marker(b.tail.pos + 1, b.tail.count + 1) && b'.head == b.head
       && s'.Of(Other(side)) == s.Of(Other(side)) && s'.ring == s.ring && s'.msgs == s.msgs && s'.out == s.out
  }

  /** The three outcomes of a step of a thread that asks for an entry; there are no others. */
  lemma AcquireOutcome(c: Config, s: State, i: nat)
    requires c.Valid() && ProtocolOk(c, s) && i < |s.threads| && s.threads[i].Pending()
    ensures var s' := Step(c, s, i);
            || StillAsks(s, s', i)
            || (s' == s.Goto(i, s'.threads[i].phase) && s'.threads[i].phase.Refused? && Exhausted(c, s, s.threads[i].side))
            || (GotEntry(s, s', i) && !Exhausted(c, s, s.threads[i].side))
  {
    hide HoldersOk;
    var th := s.threads[i];
    assert LocalOk(c, s.Of(th.side), th) && BoundOk(c, s.Of(th.side));
    if th.phase.Cas? { assert th.phase.ot.pos < Limit(c, s, th.side); }
  }

  /** A thread that loses the swap of the tail asks again, with the tail as it is; and it loses only
      because another has got an entry since, so the threads together get on. */
  lemma LostSwap(c: Config, s: State, i: nat)
    requires c.Valid() && ProtocolOk(c, s) && i < |s.threads| && s.threads[i].phase.Cas?
    requires s.Of(s.threads[i].side).tail != s.threads[i].phase.ot
    ensures var s' := Step(c, s, i); var tail := s.Of(s.threads[i].side).tail;
            StillAsks(s, s', i) && s'.threads[i].phase == WaitHead(tail) && s.threads[i].phase.ot.pos < tail.pos
  {
    hide HoldersOk;
    var th := s.threads[i];
    assert LocalOk(c, s.Of(th.side), th) && BoundOk(c, s.Of(th.side));
  }

  /* ---------------------------------------------------------------- running alone */

  /** Some number of own steps, at most n, decide. */
  ghost predicate DecidesIn(c: Config, s: State, i: nat, n: nat)
    requires c.Valid() && i < |s.threads|
  {
    exists k: nat :: k <= n && DecidedAfter(c, s, i, k)
  }

  ghost predicate DecidedAfter(c: Config, s: State, i: nat, k: nat)
    requires c.Valid() && i < |s.threads|
  {
    var s' := RunN(c, s, i, k);
    && s'.threads[i].side == s.threads[i].side
    && if s'.threads[i].phase.Refused? then Exhausted(c, s, s.threads[i].side) && s' == s.Goto(i, s'.threads[i].phase)
       else !Exhausted(c, s, s.threads[i].side) && GotEntry(s, s', i)
  }

  /** The producers, or the consumers, are not too far ahead of their published end. */
  predicate WithinDistance(c: Config, s: State, side: Side) {
    s.Of(side).tail.pos <= s.Of(side).head.pos + c.h
  }

  lemma {:induction false} OneMore(c: Config, s: State, i: nat, phase: Phase, n: nat)
    requires c.Valid() && i < |s.threads| && Step(c, s, i) == s.Goto(i, phase)
    requires DecidesIn(c, s.Goto(i, phase), i, n)
    ensures DecidesIn(c, s, i, n + 1)
  {
    var s1 := s.Goto(i, phase);
    var k: nat :| k <= n && DecidedAfter(c, s1, i, k);
    RunNSplit(c, s, i, 1, k);
    assert RunN(c, s, i, 0) == s && RunN(c, s, i, 1) == s1;
    SameQuestion(c, s, i, phase, RunN(c, s1, i, k), k);
  }

  lemma {:induction false} SameQuestion(c: Config, s: State, i: nat, phase: Phase, s': State, k: nat)
    requires c.Valid() && i < |s.threads| && s' == RunN(c, s.Goto(i, phase), i, k) == RunN(c, s, i, 1 + k)
    requires DecidedAfter(c, s.Goto(i, phase), i, k)
    ensures DecidedAfter(c, s, i, k + 1)
  {
  }

  lemma {:induction false} AtTail(c: Config, s: State, i: nat)
    requires c.Valid() && ProtocolOk(c, s) && i < |s.threads| && WithinDistance(c, s, s.threads[i].side)
    requires s.threads[i].phase == Cas(s.Of(s.threads[i].side).tail)
    ensures DecidesIn(c, s, i, 1)
  {
    assert RunN(c, s, i, 0) == s;
    assert DecidedAfter(c, s, i, 1);
  }

  lemma PhaseOnly(c: Config, s: State, i: nat, phase: Phase)
    requires c.Valid() && ProtocolOk(c, s) && i < |s.threads| && s.threads[i].Pending()
    requires Step(c, s, i) == s.Goto(i, phase)
    ensures ProtocolOk(c, s.Goto(i, phase)) && s.Goto(i, phase).threads[i].side == s.threads[i].side
    ensures forall side :: s.Goto(i, phase).Of(side) == s.Of(side)
  {
    hide ProtocolOk, Step;
    ProtocolStep(c, s, Run(i));
    assert Apply(c, s, Run(i)) == Step(c, s, i);
  }

  lemma RefusedNow(c: Config, s: State, i: nat)
    requires c.Valid() && ProtocolOk(c, s) && i < |s.threads| && s.threads[i].phase.Check?
    requires Blocked(c, s, s.threads[i].side, s.threads[i].phase.ot)
    ensures DecidesIn(c, s, i, 1)
  {
    hide ProtocolOk;
    assert RunN(c, s, i, 0) == s;
    RefusedStep(c, s, i);
    assert DecidedAfter(c, s, i, 1);
  }

  lemma FromNewest(c: Config, s: State, i: nat)
    requires c.Valid() && ProtocolOk(c, s) && i < |s.threads| && WithinDistance(c, s, s.threads[i].side)
    requires s.threads[i].phase == WaitHead(s.Of(s.threads[i].side).tail)
    ensures DecidesIn(c, s, i, 3)
  {
    hide HoldersOk, LocalsOk;
    var side := s.threads[i].side;
    var tail := s.Of(side).tail;
    assert SideOk(c, s.Of(side), s.threads, side);
    assert Step(c, s, i) == s.Goto(i, Check(tail));
    PhaseOnly(c, s, i, Check(tail));
    FromCheck(c, s.Goto(i, Check(tail)), i);
    OneMore(c, s, i, Check(tail), 2);
  }

  lemma FromCheck(c: Config, s: State, i: nat)
    requires c.Valid() && ProtocolOk(c, s) && i < |s.threads| && WithinDistance(c, s, s.threads[i].side)
    requires s.threads[i].phase == Check(s.Of(s.threads[i].side).tail)
    ensures DecidesIn(c, s, i, 2)
  {
    hide ProtocolOk, DecidedAfter;
    var tail := s.Of(s.threads[i].side).tail;
    if Blocked(c, s, s.threads[i].side, tail) {
      RefusedNow(c, s, i);
    } else {
      assert Step(c, s, i) == s.Goto(i, Cas(tail));
      PhaseOnly(c, s, i, Cas(tail));
      AtTail(c, s.Goto(i, Cas(tail)), i);
      OneMore(c, s, i, Cas(tail), 1);
    }
  }

  /** One step to the wait with the newest tail. */
  lemma ViaReload(c: Config, s: State, i: nat)
    requires c.Valid() && ProtocolOk(c, s) && i < |s.threads| && WithinDistance(c, s, s.threads[i].side)
    requires s.threads[i].Pending() && Step(c, s, i) == s.Goto(i, WaitHead(s.Of(s.threads[i].side).tail))
    ensures DecidesIn(c, s, i, 4)
  {
    hide ProtocolOk, Step, DecidedAfter;
    var phase := WaitHead(s.Of(s.threads[i].side).tail);
    PhaseOnly(c, s, i, phase);
    FromNewest(c, s.Goto(i, phase), i);
    OneMore(c, s, i, phase, 3);
  }

  lemma FromSwap(c: Config, s: State, i: nat)
    requires c.Valid() && ProtocolOk(c, s) && i < |s.threads| && WithinDistance(c, s, s.threads[i].side)
    requires s.threads[i].phase.Cas?
    ensures DecidesIn(c, s, i, 4)
  {
    hide ProtocolOk, DecidedAfter;
    if s.threads[i].phase.ot == s.Of(s.threads[i].side).tail { AtTail(c, s, i); } else { ViaReload(c, s, i); }
  }

  lemma FromTest(c: Config, s: State, i: nat)
    requires c.Valid() && ProtocolOk(c, s) && i < |s.threads| && WithinDistance(c, s, s.threads[i].side)
    requires s.threads[i].phase.Check?
    ensures DecidesIn(c, s, i, 5)
  {
    hide ProtocolOk, DecidedAfter;
    var ot := s.threads[i].phase.ot;
    if Blocked(c, s, s.threads[i].side, ot) {
      RefusedNow(c, s, i);
    } else {
      assert Step(c, s, i) == s.Goto(i, Cas(ot));
      PhaseOnly(c, s, i, Cas(ot));
      FromSwap(c, s.Goto(i, Cas(ot)), i);
      OneMore(c, s, i, Cas(ot), 4);
    }
  }

  lemma FromWait(c: Config, s: State, i: nat)
    requires c.Valid() && ProtocolOk(c, s) && i < |s.threads| && WithinDistance(c, s, s.threads[i].side)
    requires s.threads[i].phase.WaitHead?
    ensures DecidesIn(c, s, i, 6)
  {
    hide ProtocolOk, DecidedAfter;
    var ot := s.threads[i].phase.ot;
    var phase := Step(c, s, i).threads[i].phase;
    assert Step(c, s, i) == s.Goto(i, phase) && (phase == Check(ot) || phase == WaitReload);
    PhaseOnly(c, s, i, phase);
    if phase.Check? { FromTest(c, s.Goto(i, phase), i); } else { ViaReload(c, s.Goto(i, phase), i); }
    OneMore(c, s, i, phase, 5);
  }

  /** Acquiring needs no help: from every reachable state, whatever the others are doing, a thread that
      asks for an entry while its side is within the distance, and then runs alone, has after at most
      six steps got the next entry, or been refused by an exhausted queue. */
  lemma AcquireAlone(c: Config, s: State, i: nat)
    requires c.Valid() && Reachable(c, s) && i < |s.threads| && s.threads[i].Pending()
    requires WithinDistance(c, s, s.threads[i].side)
    ensures DecidesIn(c, s, i, 6)
  {
    hide Reachable, ProtocolOk, DecidedAfter;
    ReachableInv(c, s);
    match s.threads[i].phase
    case LoadTail => ViaReload(c, s, i);
    case WaitReload => ViaReload(c, s, i);
    case WaitHead(_) => FromWait(c, s, i);
    case Check(_) => FromTest(c, s, i);
    case Cas(_) => FromSwap(c, s, i);
  }

  /* ---------------------------------------------------------------- what is sent */

  /** The item that a producer leaves at position p: the words it was given, and as id the one it was
      given, or for an event the index of the entry. */
  predicate LeftAt(c: Config, x: Item, item: Item, p: nat)
    requires c.Valid()
  {
    x.words == item.words && x.id == if c.w > 0 then p % c.n else item.id
  }

  lemma Leaves(c: Config, s: State, i: nat)
    requires c.Valid() && ProtocolOk(c, s) && i < |s.threads| && s.threads[i].side.Prod? && Reserves(s, i)
    ensures var s' := Step(c, s, i);
            && |s'.log| == |s.log| + 1 && s'.log[..|s.log|] == s.log
            && LeftAt(c, s'.log[|s.log|], s.threads[i].item, s.prod.tail.pos)
  {
    hide ProtocolOk;
    StepCases(c, s, i);
  }

  /** Thread i asks for an entry all through the run. */
  ghost predicate AsksThroughout(c: Config, s: State, i: nat, run: seq<Action>)
    requires c.Valid()
  {
    forall k: nat :: k <= |run| ==> Asks(Exec(c, s, run[..k]), i)
  }

  predicate Asks(s: State, i: nat) { i < |s.threads| && s.threads[i].Pending() }

  lemma AsksSame(c: Config, s: State, a: Action, i: nat)
    requires c.Valid() && Asks(s, i) && Asks(Apply(c, s, a), i)
    ensures Apply(c, s, a).threads[i].item == s.threads[i].item && Apply(c, s, a).threads[i].side == s.threads[i].side
  {
    if a != Run(i) { ThreadKept(c, s, a, i); } else { StepAsks(c, s, i); }
  }

  lemma StepAsks(c: Config, s: State, i: nat)
    requires c.Valid() && i < |s.threads| && s.threads[i].Pending() && Step(c, s, i).threads[i].Pending()
    ensures Step(c, s, i).threads[i].item == s.threads[i].item && Step(c, s, i).threads[i].side == s.threads[i].side
  {
  }

  lemma {:induction false} ItemKept(c: Config, s: State, i: nat, run: seq<Action>)
    requires c.Valid() && i < |s.threads| && AsksThroughout(c, s, i, run)
    ensures var th := Exec(c, s, run).threads[i]; th.item == s.threads[i].item && th.side == s.threads[i].side
  {
    assert run[..|run|] == run;
    if run == [] {
      assert run[..0] == [];
    } else {
      var before := run[..|run| - 1];
      forall k: nat | k <= |before| ensures Asks(Exec(c, s, before[..k]), i) { assert before[..k] == run[..k]; }
      ItemKept(c, s, i, before);
      assert before[..|before|] == before;
      AsksSame(c, Exec(c, s, before), run[|run| - 1], i);
    }
  }

  /** From the call of an enqueue to the entry it gets, whatever happens in between: exactly what was
      handed to the call is what the log, and hence the consumer of that position, gets. */
  lemma {:induction false} SentAsGiven(c: Config, s: State, i: nat, item: Item, run: seq<Action>)
    requires c.Valid() && Reachable(c, s) && i < |s.threads| && s.threads[i].Resting() && |item.words| == c.w
    requires AsksThroughout(c, Apply(c, s, BeginEnqueue(i, item)), i, run)
    requires var t := Exec(c, Apply(c, s, BeginEnqueue(i, item)), run); i < |t.threads| && Reserves(t, i)
    ensures var t := Exec(c, Apply(c, s, BeginEnqueue(i, item)), run); var t' := Step(c, t, i);
            && |t'.log| == |t.log| + 1 && t'.log[..|t.log|] == t.log
            && LeftAt(c, t'.log[|t.log|], item, t.prod.tail.pos)
  {
    hide Inv, Reachable, Step, LeftAt, AsksThroughout, Reserves;
    ReachableInv(c, s);
    var s0 := Apply(c, s, BeginEnqueue(i, item));
    InvStep(c, s, BeginEnqueue(i, item));
    LeavesAfter(c, s0, i, run);
  }

  lemma {:induction false} LeavesAfter(c: Config, s: State, i: nat, run: seq<Action>)
    requires c.Valid() && Inv(c, s) && i < |s.threads| && s.threads[i].side.Prod? && AsksThroughout(c, s, i, run)
    requires i < |Exec(c, s, run).threads| && Reserves(Exec(c, s, run), i)
    ensures var t := Exec(c, s, run); var t' := Step(c, t, i);
            && |t'.log| == |t.log| + 1 && t'.log[..|t.log|] == t.log
            && LeftAt(c, t'.log[|t.log|], s.threads[i].item, t.prod.tail.pos)
  {
    hide Step, LeftAt, AsksThroughout, Reserves, ProtocolOk, DataOk;
    ItemKept(c, s, i, run);
    InvExec(c, s, run);
    Leaves(c, Exec(c, s, run), i);
  }
}
