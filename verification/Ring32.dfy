/** The ring with the program's 32-bit fields and arithmetic, and its relation to module RingLoose.

    Every position and count is stored modulo 2^32, differences wrap, a ring index is a masked
    position, and nothing of the history is kept. */
module Ring32 {
  import opened Bits
  import opened Ring
  import opened RingSafety
  import opened RingData
  import opened RingTheorems
  import opened RingLoose
  import opened RingAcquire

  /** A capacity of 2^k entries, as the mask requires. */
  ghost predicate Fits(c: Config) {
    c.Valid() && exists k: nat :: k < 32 && c.n == Pow2(k)
  }

  datatype Machine = Machine(prodTail: Marker, prodHead: Marker, consTail: Marker, consHead: Marker,
                             ring: seq<nat>, msgs: seq<seq<nat>>, threads: seq<Thread>) {
    function Tail(side: Side): Marker { if side.Prod? then prodTail else consTail }
    function Head(side: Side): Marker { if side.Prod? then prodHead else consHead }

    function WithTail(side: Side, m: Marker): Machine {
      if side.Prod? then this.(prodTail := m) else this.(consTail := m)
    }

    function WithHead(side: Side, m: Marker): Machine {
      if side.Prod? then this.(prodHead := m) else this.(consHead := m)
    }

    function SetThread(i: nat, th: Thread): Machine
      requires i < |threads|
    {
      this.(threads := threads[i := th])
    }

    function Goto(i: nat, phase: Phase): Machine
      requires i < |threads|
    {
      SetThread(i, threads[i].(phase := phase))
    }
  }

  lemma InstancesFit()
    ensures RPC == Config(32, 8, 0) && Fits(RPC)
    ensures EVENT == Config(32, 8, 4) && Fits(EVENT)
  {
    assert Pow2(5) == 32;
  }

  /* ---------------------------------------------------------------- 32-bit steps */

  function Sub32(a: nat, b: nat): nat { (a - b) % M }
  function Inc32(a: nat): nat { (a + 1) % M }

  function Index32(c: Config, entry: nat): nat
    requires c.Valid()
  {
    And(entry, c.n - 1)
  }

  predicate Near32(c: Config, m: Machine, side: Side, ot: Marker) {
    Sub32(ot.pos, m.Head(side).pos) <= c.h
  }

  predicate Blocked32(c: Config, m: Machine, side: Side, ot: Marker) {
    if side.Prod? then Sub32(c.n + m.consHead.pos, ot.pos) == 0 else Sub32(m.prodHead.pos, ot.pos) == 0
  }

  function NewHead32(oh: Marker, t: Marker): Marker {
    Marker(if Inc32(oh.count) == t.count then t.pos else oh.pos, Inc32(oh.count))
  }

  function Sent32(c: Config, p: nat, item: Item): Item
    requires c.Valid()
  {
    if c.w > 0 then Item(Index32(c, p), item.words) else item
  }

  function Move32(c: Config, m: Machine, i: nat): Machine
    requires c.Valid() && i < |m.threads| && m.threads[i].phase.Move?
  {
    var th := m.threads[i];
    var Move(e, k) := th.phase;
    var x := Index32(c, e);
    if th.side.Prod? && k < c.w then
      var msg := Get(m.msgs, x, []);
      m.(msgs := Put(m.msgs, x, Put(msg, k, Get(th.item.words, k, 0)))).Goto(i, Move(e, k + 1))
    else if th.side.Prod? then
      m.(ring := Put(m.ring, x, th.item.id)).Goto(i, CommitHead(e))
    else
      var item :=
        if k == 0 then Item(Get(m.ring, x, 0), [])
        else Item(th.item.id, th.item.words + [Get(Get(m.msgs, th.item.id, []), k - 1, 0)]);
      m.SetThread(i, th.(item := item, phase := if k < c.w then Move(e, k + 1) else CommitHead(e)))
  }

  function Step32(c: Config, m: Machine, i: nat): Machine
    requires c.Valid() && i < |m.threads|
  {
    var th := m.threads[i];
    match th.phase
    case Idle | Refused(_) | Completed(_) => m
    case LoadTail | WaitReload => m.Goto(i, WaitHead(m.Tail(th.side)))
    case WaitHead(ot) => m.Goto(i, if Near32(c, m, th.side, ot) then Check(ot) else WaitReload)
    case Check(ot) => m.Goto(i, if Blocked32(c, m, th.side, ot) then Refused(ot) else Cas(ot))
    case Cas(ot) =>
      if m.Tail(th.side) == ot then
        var item := if th.side.Prod? then Sent32(c, ot.pos, th.item) else Item(0, []);
        m.WithTail(th.side, Marker(Inc32(ot.pos), Inc32(ot.count)))
         .SetThread(i, th.(phase := Move(ot.pos, 0), item := item))
      else m.Goto(i, WaitHead(m.Tail(th.side)))
    case Move(_, _) => Move32(c, m, i)
    case CommitHead(e) => m.Goto(i, CommitTail(e, m.Head(th.side)))
    case CommitTail(e, oh) => m.Goto(i, CommitCas(e, oh, m.Tail(th.side)))
    case CommitCas(e, oh, t) =>
      if m.Head(th.side) == oh then m.WithHead(th.side, NewHead32(oh, t)).Goto(i, Completed(e))
      else m.Goto(i, CommitTail(e, m.Head(th.side)))
  }

  function Apply32(c: Config, m: Machine, a: Action): Machine
    requires c.Valid()
  {
    match a
    case BeginEnqueue(i, item) =>
      if i < |m.threads| && m.threads[i].Resting() && |item.words| == c.w
      then m.SetThread(i, Thread(Prod, LoadTail, item, 0)) else m
    case BeginDequeue(i) =>
      if i < |m.threads| && m.threads[i].Resting()
      then m.SetThread(i, Thread(Cons, LoadTail, Item(0, []), 0)) else m
    case Run(i) =>
      if i < |m.threads| then Step32(c, m, i) else m
  }

  function Exec32(c: Config, m: Machine, run: seq<Action>): Machine
    requires c.Valid()
  {
    if run == [] then m else Apply32(c, Exec32(c, m, run[..|run| - 1]), run[|run| - 1])
  }

  /* ---------------------------------------------------------------- the relation */

  function Wrap(m: Marker): Marker { Marker(m.pos % M, m.count % M) }

  function WrapPhase(p: Phase): Phase {
    match p
    case WaitHead(ot) => WaitHead(Wrap(ot))
    case Check(ot) => Check(Wrap(ot))
    case Cas(ot) => Cas(Wrap(ot))
    case Move(e, k) => Move(e % M, k)
    case CommitHead(e) => CommitHead(e % M)
    case CommitTail(e, oh) => CommitTail(e % M, Wrap(oh))
    case CommitCas(e, oh, t) => CommitCas(e % M, Wrap(oh), Wrap(t))
    case Refused(ot) => Refused(Wrap(ot))
    case Completed(e) => Completed(e % M)
    case _ => p
  }

  function WrapThread(th: Thread): Thread {
    Thread(th.side, WrapPhase(th.phase), th.item, 0)
  }

  /** What memory and registers hold when the unbounded ring is in state s. */
  function Concrete(s: State): (m: Machine)
    ensures |m.threads| == |s.threads|
  {
    Machine(Wrap(s.prod.tail), Wrap(s.prod.head), Wrap(s.cons.tail), Wrap(s.cons.head), s.ring, s.msgs,
            seq(|s.threads|, i requires 0 <= i < |s.threads| => WrapThread(s.threads[i])))
  }

  /** Every tail that is used was loaded less than 2^32 reservations before. */
  ghost predicate FreshRun(c: Config, s: State, run: seq<Action>)
    requires c.Valid()
  {
    run != [] ==>
      && FreshRun(c, s, run[..|run| - 1])
      && (run[|run| - 1].Run? ==> Younger(LooseExec(c, s, run[..|run| - 1]), run[|run| - 1].i, M))
  }

  /* ---------------------------------------------------------------- modular arithmetic */

  lemma WrapEq(a: nat, b: nat)
    requires -(M as int) < a - b < M
    ensures a % M == b % M <==> a == b
  {
  }

  lemma WrapSub(a: nat, b: nat)
    ensures Sub32(a % M, b % M) == (a - b) % M
  {
  }

  lemma WrapRoom(n: nat, a: nat, b: nat)
    ensures Sub32(n + a % M, b % M) == (n + a - b) % M
  {
  }

  lemma WrapInc(a: nat)
    ensures Inc32(a % M) == (a + 1) % M
  {
  }

  lemma MIsPow2()
    ensures M == Pow2(32)
  {
    assert Pow2(8) == 0x100;
    assert Pow2(16) == 0x1_0000;
    assert Pow2(24) == 0x100_0000;
  }

  lemma IndexAgrees(c: Config, e: nat)
    requires Fits(c)
    ensures Index32(c, e % M) == e % c.n
  {
    var k: nat :| k < 32 && c.n == Pow2(k);
    MIsPow2();
    MaskIsMod(e, k, 32);
  }

  lemma {:induction false} SmallPow2(k: nat)
    requires k < 32
    ensures 2 * Pow2(k) <= M
    decreases 32 - k
  {
    MIsPow2();
    if k < 31 { SmallPow2(k + 1); }
  }

  lemma FitsBound(c: Config)
    requires Fits(c)
    ensures 2 * c.n <= M && 2 * c.h < M
  {
    var k: nat :| k < 32 && c.n == Pow2(k);
    SmallPow2(k);
  }

  /* ---------------------------------------------------------------- every test agrees */

  lemma SmallMod(d: int)
    requires -(M as int) < d < M
    ensures d % M == if d < 0 then d + M else d
  {
  }

  /** The wait for the head/tail distance. */
  lemma NearAgrees(c: Config, s: State, i: nat)
    requires Fits(c) && ProtocolOk(c, s) && i < |s.threads| && s.threads[i].phase.WaitHead? && Younger(s, i, M)
    ensures var th := s.threads[i];
            Near32(c, Concrete(s), th.side, Wrap(th.phase.ot)) == NearLoose(c, s.Of(th.side), th.phase.ot)
  {
    var th := s.threads[i];
    var a, b := th.phase.ot.pos, s.Of(th.side).head.pos;
    assert -(M as int) < a - b <= c.h + 1 by {
      assert LocalOk(c, s.Of(th.side), th) && BoundOk(c, s.Of(th.side));
    }
    FitsBound(c);
    WrapSub(a, b);
    SmallMod(a - b);
  }

  /** So the wrapped test errs exactly when the head has gained 2^32 on the copy, and then it lets
      the thread pass. */
  lemma WrongWait(c: Config, s: State, i: nat)
    requires Fits(c) && ProtocolOk(c, s) && i < |s.threads| && s.threads[i].phase.WaitHead? && Younger(s, i, M)
    ensures var th := s.threads[i]; var b := s.Of(th.side);
            && (Near32(c, Concrete(s), th.side, Wrap(th.phase.ot)) != Near(c, b, th.phase.ot) <==>
                th.phase.ot.pos + M <= b.head.pos + c.h)
            && (Near(c, b, th.phase.ot) ==> Near32(c, Concrete(s), th.side, Wrap(th.phase.ot)))
  {
    var th := s.threads[i];
    NearAgrees(c, s, i);
    FitsBound(c);
    assert LocalOk(c, s.Of(th.side), th) && BoundOk(c, s.Of(th.side));
  }

  /** How far a copy of the tail can be behind the marker it is compared with. */
  lemma Room(c: Config, s: State, i: nat)
    requires c.Valid() && ProtocolOk(c, s) && i < |s.threads| && s.threads[i].phase.Check? && Younger(s, i, M)
    ensures 0 <= Limit(c, s, s.threads[i].side) - s.threads[i].phase.ot.pos < M + c.n
  {
    assert LocalOk(c, s.Of(s.threads[i].side), s.threads[i]) && BoundOk(c, s.prod) && BoundOk(c, s.cons);
  }

  /** The test for a free, or filled, entry. */
  lemma BlockedAgrees(c: Config, s: State, i: nat)
    requires Fits(c) && ProtocolOk(c, s) && i < |s.threads| && s.threads[i].phase.Check? && Younger(s, i, M)
    ensures var th := s.threads[i];
            Blocked32(c, Concrete(s), th.side, Wrap(th.phase.ot)) == BlockedLoose(c, s, th.side, th.phase.ot)
  {
    hide ProtocolOk;
    var ot := s.threads[i].phase.ot;
    Room(c, s, i);
    FitsBound(c);
    if s.threads[i].side.Prod? { WrapRoom(c.n, s.cons.head.pos, ot.pos); } else { WrapSub(s.prod.head.pos, ot.pos); }
    TwoMultiples(Limit(c, s, s.threads[i].side) - ot.pos);
  }

  lemma TwoMultiples(d: int)
    requires 0 <= d < 2 * M
    ensures d % M == 0 <==> d == 0 || d == M
  {
  }

  /** The CAS on the tail succeeds only on the very tail that was loaded. */
  lemma TailAgrees(c: Config, s: State, i: nat)
    requires Fits(c) && ProtocolOk(c, s) && i < |s.threads| && s.threads[i].phase.Cas?
    requires s.Of(s.threads[i].side).tail.pos - s.threads[i].phase.ot.pos < M
    ensures var th := s.threads[i];
            (Concrete(s).Tail(th.side) == Wrap(th.phase.ot)) == (s.Of(th.side).tail == th.phase.ot)
  {
    var th := s.threads[i];
    assert LocalOk(c, s.Of(th.side), th) && BoundOk(c, s.Of(th.side));
    WrapEq(s.Of(th.side).tail.pos, th.phase.ot.pos);
  }

  /** At any age the CAS succeeds exactly when the tail has moved by a multiple of 2^32. */
  lemma SwapAnyAge(c: Config, s: State, i: nat)
    requires Fits(c) && ProtocolOk(c, s) && i < |s.threads| && s.threads[i].phase.Cas?
    ensures var th := s.threads[i];
            Concrete(s).Tail(th.side) == Wrap(th.phase.ot) <==> (s.Of(th.side).tail.pos - th.phase.ot.pos) % M == 0
  {
    hide HoldersOk;
    var th := s.threads[i];
    assert LocalOk(c, s.Of(th.side), th) && BoundOk(c, s.Of(th.side));
    SameRest(s.Of(th.side).tail.pos, th.phase.ot.pos);
  }

  lemma SameRest(a: nat, b: nat)
    ensures a % M == b % M <==> (a - b) % M == 0
  {
  }

  /** The CAS on the head, and the value it installs: no assumption is needed here, because a
      commit can be overtaken by at most 2h others. */
  lemma HeadAgrees(c: Config, s: State, i: nat)
    requires Fits(c) && ProtocolOk(c, s) && i < |s.threads| && s.threads[i].phase.CommitCas?
    ensures var th := s.threads[i]; var b := s.Of(th.side);
            && ((Concrete(s).Head(th.side) == Wrap(th.phase.oh)) == (b.head == th.phase.oh))
            && NewHead32(Wrap(th.phase.oh), Wrap(th.phase.t)) == Wrap(NewHead(th.phase.oh, th.phase.t))
  {
    var th := s.threads[i];
    HeadAge(c, s, i);
    FitsBound(c);
    WrapEq(s.Of(th.side).head.count, th.phase.oh.count);
    NewHeadAgrees(th.phase.oh, th.phase.t);
  }

  lemma NewHeadAgrees(oh: Marker, t: Marker)
    requires -(M as int) < t.count - (oh.count + 1) < M
    ensures NewHead32(Wrap(oh), Wrap(t)) == Wrap(NewHead(oh, t))
  {
    WrapInc(oh.count);
    WrapEq(oh.count + 1, t.count);
  }

  lemma HeadAge(c: Config, s: State, i: nat)
    requires c.Valid() && ProtocolOk(c, s) && i < |s.threads| && s.threads[i].phase.CommitCas?
    ensures var th := s.threads[i]; var b := s.Of(th.side);
            && 0 <= b.head.count - th.phase.oh.count <= 2 * c.h
            && (b.head.count == th.phase.oh.count ==> b.head == th.phase.oh)
            && -(c.h as int) <= th.phase.t.count - (th.phase.oh.count + 1) <= 2 * c.h
  {
    CommitWindow(c, s, i);
    assert LocalOk(c, s.Of(s.threads[i].side), s.threads[i]) && BoundOk(c, s.Of(s.threads[i].side));
  }

  /* ---------------------------------------------------------------- every step agrees */

  lemma ConcreteThread(s: State, i: nat, th: Thread)
    requires i < |s.threads|
    ensures Concrete(s.SetThread(i, th)) == Concrete(s).SetThread(i, WrapThread(th))
  {
  }

  lemma QuietAgrees(c: Config, s: State, i: nat)
    requires Fits(c) && ProtocolOk(c, s) && i < |s.threads| && Younger(s, i, M)
    requires !s.threads[i].phase.Move? && !Reserves(s, i) && !s.threads[i].phase.CommitCas?
    ensures Step32(c, Concrete(s), i) == Concrete(LooseStep(c, s, i))
  {
    hide ProtocolOk;
    match s.threads[i].phase {
      case WaitHead(_) => NearAgrees(c, s, i);
      case Check(_) => BlockedAgrees(c, s, i);
      case Cas(_) => TailAgrees(c, s, i);
      case _ =>
    }
    ConcreteThread(s, i, LooseStep(c, s, i).threads[i]);
  }

  lemma MoveAgrees(c: Config, s: State, i: nat)
    requires Fits(c) && i < |s.threads| && s.threads[i].phase.Move?
    ensures Move32(c, Concrete(s), i) == Concrete(Step(c, s, i))
  {
    IndexAgrees(c, s.threads[i].phase.entry);
    ConcreteThread(s, i, Step(c, s, i).threads[i]);
  }

  lemma ReserveAgrees(c: Config, s: State, i: nat)
    requires Fits(c) && ProtocolOk(c, s) && i < |s.threads| && Younger(s, i, M) && Reserves(s, i)
    ensures Step32(c, Concrete(s), i) == Concrete(Step(c, s, i))
  {
    hide ProtocolOk;
    var ot := s.threads[i].phase.ot;
    TailAgrees(c, s, i);
    IndexAgrees(c, ot.pos);
    WrapInc(ot.pos);
    WrapInc(ot.count);
    ConcreteThread(s, i, Step(c, s, i).threads[i]);
  }

  lemma ConcretePublish(s: State, i: nat)
    requires i < |s.threads| && s.threads[i].phase.CommitCas?
    ensures var th := s.threads[i]; var CommitCas(e, oh, t) := th.phase;
            Concrete(Publish(s, i)) == Concrete(s).WithHead(th.side, Wrap(NewHead(oh, t))).Goto(i, Completed(e % M))
  {
  }

  lemma PublishAgrees(c: Config, s: State, i: nat)
    requires Fits(c) && ProtocolOk(c, s) && i < |s.threads| && Publishes(s, i)
    ensures Step32(c, Concrete(s), i) == Concrete(Step(c, s, i))
  {
    var m, th := Concrete(s), s.threads[i];
    var CommitCas(e, oh, t) := th.phase;
    assert m.threads[i] == WrapThread(th);
    assert Step32(c, m, i) == m.WithHead(th.side, NewHead32(Wrap(oh), Wrap(t))).Goto(i, Completed(e % M));
    HeadAgrees(c, s, i);
    ConcretePublish(s, i);
    assert Step(c, s, i) == Publish(s, i);
  }

  lemma RetryAgrees(c: Config, s: State, i: nat)
    requires Fits(c) && ProtocolOk(c, s) && i < |s.threads| && s.threads[i].phase.CommitCas? && !Publishes(s, i)
    ensures Step32(c, Concrete(s), i) == Concrete(Step(c, s, i))
  {
    HeadAgrees(c, s, i);
    ConcreteThread(s, i, Step(c, s, i).threads[i]);
  }

  lemma StepAgrees(c: Config, s: State, i: nat)
    requires Fits(c) && ProtocolOk(c, s) && i < |s.threads| && Younger(s, i, M)
    ensures Step32(c, Concrete(s), i) == Concrete(LooseStep(c, s, i))
  {
    if s.threads[i].phase.Move? { MoveAgrees(c, s, i); }
    else if Reserves(s, i) { ReserveAgrees(c, s, i); }
    else if Publishes(s, i) { PublishAgrees(c, s, i); }
    else if s.threads[i].phase.CommitCas? { RetryAgrees(c, s, i); }
    else { QuietAgrees(c, s, i); }
  }

  /* ---------------------------------------------------------------- whole runs */

  lemma BeginAgrees(c: Config, s: State, a: Action)
    requires c.Valid() && !a.Run?
    ensures Apply32(c, Concrete(s), a) == Concrete(Apply(c, s, a))
  {
    if a.i < |s.threads| {
      ConcreteThread(s, a.i, Thread(if a.BeginEnqueue? then Prod else Cons, LoadTail,
                                    if a.BeginEnqueue? then a.item else Item(0, []), 0));
    }
  }

  lemma ApplyAgrees(c: Config, s: State, a: Action)
    requires Fits(c) && ProtocolOk(c, s) && (a.Run? ==> Younger(s, a.i, M))
    ensures Apply32(c, Concrete(s), a) == Concrete(LooseApply(c, s, a))
  {
    if !a.Run? { BeginAgrees(c, s, a); }
    else if a.i < |s.threads| { StepAgrees(c, s, a.i); }
  }

  /** The 32-bit ring does exactly what the unbounded one does, up to the two mistakes, through any
      number of wraps. */
  lemma {:induction false} RunAgrees(c: Config, s: State, run: seq<Action>)
    requires Fits(c) && Inv(c, s) && FreshRun(c, s, run)
    ensures Exec32(c, Concrete(s), run) == Concrete(LooseExec(c, s, run))
  {
    if run != [] {
      var before := run[..|run| - 1];
      RunAgrees(c, s, before);
      LooseInv(c, s, before);
      ApplyAgrees(c, LooseExec(c, s, before), run[|run| - 1]);
    }
  }

  /** Zeroed memory, as rpcmsg_queue_init and rpcmsg_buffer_init leave it. */
  function Init32(c: Config, threads: nat): Machine {
    Machine(Marker(0, 0), Marker(0, 0), Marker(0, 0), Marker(0, 0), seq(c.n, _ => 0),
            seq(c.n, _ => seq(c.w, _ => 0)), seq(threads, _ => Thread(Prod, Idle, Item(0, []), 0)))
  }

  /** The state of the unbounded ring beside a 32-bit run from zeroed memory. */
  function Beside(c: Config, threads: nat, run: seq<Action>): State
    requires c.Valid()
  {
    LooseExec(c, Init(c, threads), run)
  }

  lemma {:induction false} FromZero(c: Config, threads: nat, run: seq<Action>)
    requires Fits(c) && FreshRun(c, Init(c, threads), run)
    ensures Exec32(c, Init32(c, threads), run) == Concrete(Beside(c, threads, run)) && Inv(c, Beside(c, threads, run))
  {
    InvInit(c, threads);
    assert Init32(c, threads) == Concrete(Init(c, threads));
    RunAgrees(c, Init(c, threads), run);
    LooseInv(c, Init(c, threads), run);
  }

  lemma {:induction false} ConcreteExclusion(c: Config, s: State, i: nat, j: nat)
    requires Fits(c) && ProtocolOk(c, s) && i < |s.threads| && j < |s.threads| && i != j
    requires Concrete(s).threads[i].InFlight() && Concrete(s).threads[j].InFlight()
    ensures Index32(c, Concrete(s).threads[i].phase.entry) != Index32(c, Concrete(s).threads[j].phase.entry)
  {
    assert Concrete(s).threads[i] == WrapThread(s.threads[i]) && Concrete(s).threads[j] == WrapThread(s.threads[j]);
    IndexDistinct(c, s, i, j);
    IndexAgrees(c, s.threads[i].phase.entry);
    IndexAgrees(c, s.threads[j].phase.entry);
  }

  /** The four wrapped distances between the markers of the program add up, within the bounds that the
      unbounded markers have. */
  lemma {:induction false} Ordering32(c: Config, threads: nat, run: seq<Action>)
    requires Fits(c) && FreshRun(c, Init(c, threads), run)
    ensures var m := Exec32(c, Init32(c, threads), run);
            var taken, waiting := Sub32(m.consTail.pos, m.consHead.pos), Sub32(m.prodHead.pos, m.consTail.pos);
            var coming := Sub32(m.prodTail.pos, m.prodHead.pos);
            && taken <= c.h + 1 && coming <= c.h + 1
            && taken + waiting + coming == Sub32(m.prodTail.pos, m.consHead.pos) <= c.n
  {
    var s := Beside(c, threads, run);
    FromZero(c, threads, run);
    assert BoundOk(c, s.prod) && BoundOk(c, s.cons);
    FitsBound(c);
    Distance(s.cons.tail.pos, s.cons.head.pos);
    Distance(s.prod.head.pos, s.cons.tail.pos);
    Distance(s.prod.tail.pos, s.prod.head.pos);
    Distance(s.prod.tail.pos, s.cons.head.pos);
  }

  lemma Distance(a: nat, b: nat)
    requires b <= a < b + M
    ensures Sub32(a % M, b % M) == a - b
  {
    WrapSub(a, b);
    SmallMod(a - b);
  }

  /** In the program itself, two threads in flight never use the same masked index. */
  lemma {:induction false} Exclusion32(c: Config, threads: nat, run: seq<Action>, i: nat, j: nat)
    requires Fits(c) && FreshRun(c, Init(c, threads), run)
    requires var m := Exec32(c, Init32(c, threads), run);
             && i < |m.threads| && j < |m.threads| && i != j
             && m.threads[i].InFlight() && m.threads[j].InFlight()
    ensures var m := Exec32(c, Init32(c, threads), run);
            Index32(c, m.threads[i].phase.entry) != Index32(c, m.threads[j].phase.entry)
  {
    FromZero(c, threads, run);
    ConcreteExclusion(c, Beside(c, threads, run), i, j);
  }

  /** A completed dequeue returns what was sent at its own position, which its 32-bit entry names up
      to wrap-around, and that is the result recorded for the position. */
  lemma {:induction false} Delivery32(c: Config, threads: nat, run: seq<Action>, i: nat)
    requires Fits(c) && FreshRun(c, Init(c, threads), run)
    requires var m := Exec32(c, Init32(c, threads), run);
             i < |m.threads| && m.threads[i].side.Cons? && m.threads[i].phase.Completed?
    ensures var th, s := Exec32(c, Init32(c, threads), run).threads[i], Beside(c, threads, run);
            && i < |s.threads| && s.threads[i].phase.Completed?
            && var e := s.threads[i].phase.entry;
               && e % M == th.phase.entry && e < |s.log| && th.item == s.log[e]
               && e in s.out && s.out[e] == th.item
  {
    var s := Beside(c, threads, run);
    FromZero(c, threads, run);
    assert Concrete(s).threads[i] == WrapThread(s.threads[i]);
    assert Carries(c, s, s.threads[i]);
  }

  /** Whenever a dequeue of the 32-bit program completes, it delivers a position that was not delivered
      before, with the item sent there, and the result recorded for that position stays for ever. */
  lemma {:induction false} Once32(c: Config, threads: nat, run: seq<Action>, n: nat, i: nat)
    requires Fits(c) && FreshRun(c, Init(c, threads), run) && n < |run| && run[n] == Run(i)
    requires i < |Exec32(c, Init32(c, threads), run[..n]).threads|
    requires var m := Exec32(c, Init32(c, threads), run[..n]); var m' := Step32(c, m, i);
             && i < |m'.threads| && m'.threads[i].side.Cons?
             && m'.threads[i].phase.Completed? && !m.threads[i].phase.Completed?
    ensures var s, now := Beside(c, threads, run[..n]), Beside(c, threads, run);
            && i < |s.threads|
            && var s' := LooseStep(c, s, i);
               && i < |s'.threads| && s'.threads[i].phase.Completed? && Delivers(s, s', i, s'.threads[i].phase.entry)
               && s'.log <= now.log && forall p :: p in s'.out ==> p in now.out && now.out[p] == s'.out[p]
  {
    hide Inv, Delivers, LooseStep, Step32, Concrete, Younger;
    var s := Beside(c, threads, run[..n]);
    FreshPrefix(c, Init(c, threads), run, n);
    FromZero(c, threads, run[..n]);
    FreshPrefix(c, Init(c, threads), run, n + 1);
    assert run[..n + 1][..n] == run[..n];
    StepDelivers(c, s, i);
    InvInit(c, threads);
    HistoryInRun(c, Init(c, threads), run, n);
  }

  lemma StepDelivers(c: Config, s: State, i: nat)
    requires Fits(c) && Inv(c, s) && i < |s.threads| && Younger(s, i, M)
    requires var m := Concrete(s); var m' := Step32(c, m, i);
             && i < |m'.threads| && m'.threads[i].side.Cons?
             && m'.threads[i].phase.Completed? && !m.threads[i].phase.Completed?
    ensures var s' := LooseStep(c, s, i);
            i < |s'.threads| && s'.threads[i].phase.Completed? && Delivers(s, s', i, s'.threads[i].phase.entry)
  {
    hide Step32, LooseStep, Delivers, Younger, DataOk, ProtocolOk;
    StepAgrees(c, s, i);
    LooseThreads(c, s, i);
    assert Concrete(s).threads[i] == WrapThread(s.threads[i]);
    assert Concrete(LooseStep(c, s, i)).threads[i] == WrapThread(LooseStep(c, s, i).threads[i]);
    Completion(c, s, i);
  }

  /** A consumer becomes completed only by a commit. */
  lemma Completion(c: Config, s: State, i: nat)
    requires Fits(c) && Inv(c, s) && i < |s.threads| && s.threads[i].side.Cons?
    requires |LooseStep(c, s, i).threads| == |s.threads|
    requires Concrete(LooseStep(c, s, i)).threads[i].phase.Completed? && !Concrete(s).threads[i].phase.Completed?
    ensures var s' := LooseStep(c, s, i);
            s'.threads[i].phase.Completed? && Delivers(s, s', i, s'.threads[i].phase.entry)
  {
    hide Inv, LooseStep, Delivers;
    var s' := LooseStep(c, s, i);
    assert Concrete(s).threads[i] == WrapThread(s.threads[i]);
    assert Concrete(s').threads[i] == WrapThread(s'.threads[i]);
    LooseDelivery(c, s, i);
  }

  lemma {:induction false} FreshPrefix(c: Config, s: State, run: seq<Action>, n: nat)
    requires c.Valid() && FreshRun(c, s, run) && n <= |run|
    ensures FreshRun(c, s, run[..n])
    decreases |run|
  {
    if n < |run| {
      FreshPrefix(c, s, run[..|run| - 1], n);
      assert run[..|run| - 1][..n] == run[..n];
    } else {
      assert run[..n] == run;
    }
  }

  /** rpcmsg_queue_full and rpcmsg_queue_empty on the wrapped fields. */
  predicate QueueFull32(c: Config, m: Machine) { Sub32(c.n + m.consTail.pos, m.prodTail.pos) == 0 }
  predicate QueueEmpty32(m: Machine) { m.prodHead.pos == m.consHead.pos }

  lemma ReportsAgree(c: Config, s: State)
    requires Fits(c) && ProtocolOk(c, s)
    ensures QueueFull32(c, Concrete(s)) == QueueFull(c, s)
    ensures QueueEmpty32(Concrete(s)) == QueueEmpty(s)
  {
    assert BoundOk(c, s.prod) && BoundOk(c, s.cons);
    FitsBound(c);
    WrapRoom(c.n, s.cons.tail.pos, s.prod.tail.pos);
    SmallMod(c.n + s.cons.tail.pos - s.prod.tail.pos);
    WrapEq(s.prod.head.pos, s.cons.head.pos);
  }

  /* ---------------------------------------------------------------- exactly the wrong answers */

  /** A refusal is wrong exactly when the limit has gained 2^32 on the tail that was loaded. */
  lemma WrongRefusal(c: Config, s: State, i: nat)
    requires Fits(c) && ProtocolOk(c, s) && i < |s.threads| && s.threads[i].phase.Check? && Younger(s, i, M)
    ensures var side, ot := s.threads[i].side, s.threads[i].phase.ot;
            Blocked32(c, Concrete(s), side, Wrap(ot)) && !Exhausted(c, s, side) <==> Limit(c, s, side) == ot.pos + M
  {
    BlockedAgrees(c, s, i);
    assert LocalOk(c, s.Of(s.threads[i].side), s.threads[i]) && BoundOk(c, s.prod) && BoundOk(c, s.cons);
  }

  /** In every 32-bit run from zeroed memory whose tails are used within 2^32 reservations: a thread
      that gets an entry gets the next one and there was one to get, so only refusals can be wrong, and
      they are exactly when the limit has gained 2^32 on the tail that was loaded. */
  lemma {:induction false} OnlyRefusalsWrong(c: Config, threads: nat, run: seq<Action>, i: nat)
    requires Fits(c) && FreshRun(c, Init(c, threads), run + [Run(i)])
    requires i < |Exec32(c, Init32(c, threads), run).threads|
    ensures var m, s := Exec32(c, Init32(c, threads), run), Beside(c, threads, run);
            var m' := Step32(c, m, i); var side := m.threads[i].side;
            && i < |s.threads| && i < |m'.threads| && side == s.threads[i].side
            && (m.threads[i].phase.Cas? && m'.threads[i].phase.Move? ==>
                  !Exhausted(c, s, side) && m'.threads[i].phase.entry == s.Of(side).tail.pos % M)
            && (!m.threads[i].phase.Refused? && m'.threads[i].phase.Refused? && !Exhausted(c, s, side) <==>
                s.threads[i].phase.Check? && Limit(c, s, side) == s.threads[i].phase.ot.pos + M)
  {
    var s, all := Beside(c, threads, run), run + [Run(i)];
    assert all[..|all| - 1] == run;
    FromZero(c, threads, run);
    assert Concrete(s).threads[i] == WrapThread(s.threads[i]);
    match s.threads[i].phase
    case Check(_) => WrongRefusal(c, s, i);
    case Cas(_) =>
      TailAgrees(c, s, i);
      assert s.threads[i].phase.ot.pos < Limit(c, s, s.threads[i].side);
    case _ =>
  }

  /** The outcomes of a step of a thread that asks for an entry, on the program's own fields: it still
      asks for the same and nothing shared has changed, it is refused, or it gets the entry at the tail,
      with the words it was given.  A thread whose swap fails asks again with the new tail. */
  lemma Acquire32(c: Config, m: Machine, i: nat)
    requires c.Valid() && i < |m.threads| && m.threads[i].Pending()
    ensures var m' := Step32(c, m, i); var th := m.threads[i]; var th' := m'.threads[i];
            && th'.side == th.side && (th'.Pending() || th'.phase.Refused? || th'.phase.Move?)
            && (!th'.phase.Move? ==> m' == m.SetThread(i, th') && th'.item == th.item)
            && (th'.phase.Move? ==>
                  && th.phase == Cas(m.Tail(th.side)) && th'.phase == Move(m.Tail(th.side).pos, 0)
                  && (th.side.Prod? ==>
                        && th'.item.words == th.item.words
                        && th'.item.id == if c.w > 0 then Index32(c, m.Tail(th.side).pos) else th.item.id))
            && (th.phase.Cas? && th.phase.ot != m.Tail(th.side) ==> th'.phase == WaitHead(m.Tail(th.side)))
  {
  }

  /** A thread that began an enqueue of item and has asked ever since still has just that item. */
  lemma {:induction false} Given32(c: Config, m: Machine, i: nat, item: Item, run: seq<Action>)
    requires c.Valid() && i < |m.threads| && m.threads[i].Resting() && |item.words| == c.w
    requires run != [] && run[0] == BeginEnqueue(i, item)
    requires forall k: nat :: 0 < k <= |run| ==> Asks32(Exec32(c, m, run[..k]), i)
    ensures var m' := Exec32(c, m, run);
            i < |m'.threads| && m'.threads[i].item == item && m'.threads[i].side.Prod?
    decreases |run|
  {
    hide Step32;
    assert run[..|run|] == run;
    var before := run[..|run| - 1];
    if before == [] {
      assert Exec32(c, m, before) == m;
    } else {
      forall k: nat | 0 < k <= |before| ensures Asks32(Exec32(c, m, before[..k]), i) { assert before[..k] == run[..k]; }
      Given32(c, m, i, item, before);
      assert before[..|before|] == before;
      AsksSame32(c, Exec32(c, m, before), run[|run| - 1], i);
    }
  }

  predicate Asks32(m: Machine, i: nat) { i < |m.threads| && m.threads[i].Pending() }

  lemma AsksSame32(c: Config, m: Machine, a: Action, i: nat)
    requires c.Valid() && Asks32(m, i) && Asks32(Apply32(c, m, a), i)
    ensures Apply32(c, m, a).threads[i].item == m.threads[i].item && Apply32(c, m, a).threads[i].side == m.threads[i].side
  {
    hide Step32, Index32;
    if a == Run(i) { Acquire32(c, m, i); } else if a.Run? && a.i < |m.threads| { OtherThread32(c, m, i, a.i); }
  }

  lemma OtherThread32(c: Config, m: Machine, i: nat, j: nat)
    requires c.Valid() && i < |m.threads| && j < |m.threads| && i != j
    ensures |Step32(c, m, j).threads| == |m.threads| && Step32(c, m, j).threads[i] == m.threads[i]
  {
    hide Index32, Near32, Blocked32, Put, Get, NewHead32;
  }

  /** In every 32-bit run: when the enqueue gets its entry, what it was given is appended to the log, and
      so is what the dequeue of that position returns. */
  lemma {:induction false} SentAsGiven32(c: Config, threads: nat, run: seq<Action>, i: nat)
    requires Fits(c) && FreshRun(c, Init(c, threads), run + [Run(i)])
    requires var m := Exec32(c, Init32(c, threads), run);
             && Asks32(m, i) && m.threads[i].side.Prod?
             && i < |Step32(c, m, i).threads| && Step32(c, m, i).threads[i].phase.Move?
    ensures var item := Exec32(c, Init32(c, threads), run).threads[i].item;
            var log, log' := Beside(c, threads, run).log, Beside(c, threads, run + [Run(i)]).log;
            && |log'| == |log| + 1 && log'[..|log|] == log
            && log'[|log|].words == item.words
            && log'[|log|].id == if c.w > 0 then |log| % c.n else item.id
  {
    hide Step32, Younger, Step, Inv;
    var s, all := Beside(c, threads, run), run + [Run(i)];
    assert all[..|all| - 1] == run && all[|all| - 1] == Run(i);
    FromZero(c, threads, run);
    assert Concrete(s).threads[i] == WrapThread(s.threads[i]);
    StepReserves(c, s, i);
    Leaves(c, s, i);
  }

  lemma StepReserves(c: Config, s: State, i: nat)
    requires Fits(c) && Inv(c, s) && i < |s.threads| && Younger(s, i, M) && s.threads[i].Pending()
    requires i < |Step32(c, Concrete(s), i).threads| && Step32(c, Concrete(s), i).threads[i].phase.Move?
    ensures Reserves(s, i) && LooseStep(c, s, i) == Step(c, s, i) && |s.log| == s.prod.tail.pos
  {
    hide Step, Step32, Index32;
    assert Concrete(s).threads[i] == WrapThread(s.threads[i]);
    Acquire32(c, Concrete(s), i);
    TailAgrees(c, s, i);
  }

  /** With tails used within 2^32 - n reservations there are no wrong answers at all: the run is one of
      module Ring. */
  ghost predicate StrictRun(c: Config, s: State, run: seq<Action>)
    requires c.Valid()
  {
    run != [] ==>
      && StrictRun(c, s, run[..|run| - 1])
      && (run[|run| - 1].Run? ==> Younger(Exec(c, s, run[..|run| - 1]), run[|run| - 1].i, M - c.n))
  }

  lemma {:induction false} StrictAgrees(c: Config, s: State, run: seq<Action>)
    requires Fits(c) && Inv(c, s) && StrictRun(c, s, run)
    ensures FreshRun(c, s, run) && LooseExec(c, s, run) == Exec(c, s, run)
    ensures Exec32(c, Concrete(s), run) == Concrete(Exec(c, s, run))
  {
    if run != [] {
      var before := run[..|run| - 1];
      StrictAgrees(c, s, before);
      InvExec(c, s, before);
      FitsBound(c);
      var a := run[|run| - 1];
      if a.Run? && a.i < |Exec(c, s, before).threads| { LooseIsStep(c, Exec(c, s, before), a.i); }
    }
    RunAgrees(c, s, run);
  }
}
