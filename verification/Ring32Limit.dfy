/** A run of the ring in which a producer is refused although 5 of the 32 entries are free: fewer
    than 2^32 reservations after it loaded the tail, so refusals can indeed be wrong. */
module Ring32Limit {
  import opened Ring
  import opened RingData
  import opened RingTheorems
  import opened RingSolo
  import opened Bits
  import opened Ring32

  lemma {:induction false} ExecConcat(c: Config, s: State, r1: seq<Action>, r2: seq<Action>)
    requires c.Valid()
    ensures Exec(c, s, r1 + r2) == Exec(c, Exec(c, s, r1), r2)
    ensures StrictRun(c, s, r1) && StrictRun(c, Exec(c, s, r1), r2) ==> StrictRun(c, s, r1 + r2)
    decreases |r2|
  {
    if r2 == [] {
      assert r1 + r2 == r1;
    } else {
      var last := |r2| - 1;
      ExecConcat(c, s, r1, r2[..last]);
      assert (r1 + r2)[..|r1 + r2| - 1] == r1 + r2[..last];
    }
  }

  /** Thread 0 stands at its test with the very first tail; thread 1 has brought the consumers to
      position x and the producers to position y. */
  ghost predicate Stalled(c: Config, s: State, x: nat, y: nat)
    requires c.Valid()
  {
    && Inv(c, s) && Quiescent(s) && |s.threads| == 2
    && s.threads[0].phase == Check(Marker(0, 0)) && s.threads[0].side == Prod
    && s.threads[1].Resting()
    && s.cons.tail.pos == x && s.prod.tail.pos == y
  }

  ghost predicate Reaches(c: Config, s: State, s': State)
    requires c.Valid()
  {
    exists run: seq<Action> :: StrictRun(c, s, run) && s' == Exec(c, s, run)
  }

  lemma ReachesTrans(c: Config, s: State, t: State, u: State)
    requires c.Valid() && Reaches(c, s, t) && Reaches(c, t, u)
    ensures Reaches(c, s, u)
  {
    var r1: seq<Action> :| StrictRun(c, s, r1) && t == Exec(c, s, r1);
    var r2: seq<Action> :| StrictRun(c, t, r2) && u == Exec(c, t, r2);
    ExecConcat(c, s, r1, r2);
  }

  /** A thread that runs alone always tests the newest tail. */
  predicate OwnTail(s: State, i: nat) {
    i < |s.threads| ==>
      match s.threads[i].phase
      case WaitHead(ot) => ot == s.Of(s.threads[i].side).tail
      case Check(ot) => ot == s.Of(s.threads[i].side).tail
      case Cas(ot) => ot == s.Of(s.threads[i].side).tail
      case _ => true
  }

  lemma OwnTailStep(c: Config, s: State, i: nat)
    requires c.Valid() && i < |s.threads| && OwnTail(s, i)
    ensures OwnTail(Step(c, s, i), i)
  {
  }

  lemma {:induction false} SoloFresh(c: Config, s: State, i: nat, n: nat)
    requires c.Valid() && c.n < M && i < |s.threads| && OwnTail(s, i)
    ensures var run := seq(n, _ => Run(i));
            StrictRun(c, s, run) && Exec(c, s, run) == RunN(c, s, i, n) && OwnTail(RunN(c, s, i, n), i)
    decreases n
  {
    RunNExec(c, s, i, n);
    if n > 0 {
      SoloFresh(c, s, i, n - 1);
      OwnTailStep(c, RunN(c, s, i, n - 1), i);
      assert seq(n, _ => Run(i))[..n - 1] == seq(n - 1, _ => Run(i));
    }
  }

  lemma {:induction false} BeginReaches(c: Config, s: State, a: Action)
    requires c.Valid() && !a.Run?
    ensures Reaches(c, s, Apply(c, s, a))
  {
    assert [a][..0] == [];
    assert Exec(c, s, [a]) == Apply(c, s, a) && StrictRun(c, s, [a]);
  }

  /** One whole operation of thread 1. */
  lemma {:induction false} OneOp(c: Config, s: State, a: Action) returns (s': State)
    requires c.Valid() && c.n < M && 1 < |s.threads| && s.threads[1].Resting() && !a.Run? && a.i == 1
    requires a.BeginEnqueue? ==> |a.item.words| == c.w
    requires var s0 := Apply(c, s, a); var b := s0.Of(s0.threads[1].side);
             b.head == b.tail && !Blocked(c, s0, s0.threads[1].side, b.tail)
    ensures Reaches(c, s, s') && Done(c, Apply(c, s, a), s', 1)
  {
    var s0 := Apply(c, s, a);
    s' := RunN(c, s0, 1, c.w + 8);
    Complete(c, s0, 1);
    SoloFresh(c, s0, 1, c.w + 8);
    BeginReaches(c, s, a);
    ReachesTrans(c, s, s0, s');
  }

  lemma ReachesInv(c: Config, s: State, s': State)
    requires c.Valid() && Inv(c, s) && Reaches(c, s, s')
    ensures Inv(c, s')
  {
    var run: seq<Action> :| StrictRun(c, s, run) && s' == Exec(c, s, run);
    InvExec(c, s, run);
  }

  lemma AfterOp(c: Config, s: State, x: nat, y: nat, th: Thread, s': State)
    requires c.Valid() && Stalled(c, s, x, y) && th.phase.LoadTail? && Inv(c, s')
    requires Done(c, s.SetThread(1, th), s', 1)
    ensures if th.side.Prod? then Stalled(c, s', x, y + 1) else Stalled(c, s', x + 1, y)
  {
    assert s'.threads[0] == s.threads[0];
    assert Quiescent(s');
  }

  lemma {:induction false} Enqueue(c: Config, s: State, x: nat, y: nat) returns (s': State)
    requires c.Valid() && c.n < M && c.w == 0 && Stalled(c, s, x, y) && y < x + c.n
    ensures Reaches(c, s, s') && Stalled(c, s', x, y + 1)
  {
    var a := BeginEnqueue(1, Item(0, []));
    assert Apply(c, s, a) == s.SetThread(1, Thread(Prod, LoadTail, Item(0, []), 0));
    QuiescentMarkers(c, s, Prod);
    QuiescentMarkers(c, s, Cons);
    s' := OneOp(c, s, a);
    ReachesInv(c, s, s');
    AfterOp(c, s, x, y, Thread(Prod, LoadTail, Item(0, []), 0), s');
  }

  lemma {:induction false} Dequeue(c: Config, s: State, x: nat, y: nat) returns (s': State)
    requires c.Valid() && c.n < M && Stalled(c, s, x, y) && x < y
    ensures Reaches(c, s, s') && Stalled(c, s', x + 1, y)
  {
    var a := BeginDequeue(1);
    assert Apply(c, s, a) == s.SetThread(1, Thread(Cons, LoadTail, Item(0, []), 0));
    QuiescentMarkers(c, s, Prod);
    QuiescentMarkers(c, s, Cons);
    s' := OneOp(c, s, a);
    ReachesInv(c, s, s');
    AfterOp(c, s, x, y, Thread(Cons, LoadTail, Item(0, []), 0), s');
  }

  /** k times one item in and out, and then j more items in. */
  lemma {:induction false} Pump(c: Config, s: State, x: nat, k: nat) returns (s': State)
    requires c.Valid() && c.n < M && c.w == 0 && Stalled(c, s, x, x)
    ensures Reaches(c, s, s') && Stalled(c, s', x + k, x + k)
    decreases k
  {
    if k == 0 {
      s' := s;
      assert s == Exec(c, s, []);
    } else {
      var s1 := Pump(c, s, x, k - 1);
      var s2 := Enqueue(c, s1, x + k - 1, x + k - 1);
      s' := Dequeue(c, s2, x + k - 1, x + k);
      ReachesTrans(c, s, s1, s2);
      ReachesTrans(c, s, s2, s');
    }
  }

  lemma {:induction false} Fill(c: Config, s: State, x: nat, j: nat) returns (s': State)
    requires c.Valid() && c.n < M && c.w == 0 && Stalled(c, s, x, x) && j <= c.n
    ensures Reaches(c, s, s') && Stalled(c, s', x, x + j)
    decreases j
  {
    if j == 0 {
      s' := s;
      assert s == Exec(c, s, []);
    } else {
      var s1 := Fill(c, s, x, j - 1);
      s' := Enqueue(c, s1, x, x + j - 1);
      ReachesTrans(c, s, s1, s');
    }
  }

  lemma {:induction false} Start(c: Config) returns (s: State)
    requires c.Valid() && c.n < M && c.w == 0
    ensures Reaches(c, Init(c, 2), s) && Stalled(c, s, 0, 0)
  {
    var s0 := Init(c, 2);
    var s1 := s0.SetThread(0, Thread(Prod, LoadTail, Item(0, []), 0));
    var s2 := s1.Goto(0, WaitHead(Marker(0, 0)));
    BeginReaches(c, s0, BeginEnqueue(0, Item(0, [])));
    SoloFresh(c, s1, 0, 2);
    assert RunN(c, s1, 0, 0) == s1 && RunN(c, s1, 0, 1) == s2;
    s := RunN(c, s1, 0, 2);
    assert s == s2.Goto(0, Check(Marker(0, 0)));
    ReachesTrans(c, s0, s1, s);
    InvInit(c, 2);
    ReachesInv(c, s0, s);
  }

  lemma {:induction false} LimitState() returns (s: State)
    ensures Reaches(RPC, Init(RPC, 2), s) && Stalled(RPC, s, M - 32, M - 5)
  {
    var s0 := Start(RPC);
    var s1 := Pump(RPC, s0, 0, M - 32);
    s := Fill(RPC, s1, M - 32, 27);
    ReachesTrans(RPC, Init(RPC, 2), s0, s1);
    ReachesTrans(RPC, Init(RPC, 2), s1, s);
  }

  /** The refused producer: 27 entries are in use, the tail it loaded is 2^32 - 5 reservations old. */
  lemma {:induction false} WrongRefusalHappens() returns (s: State)
    ensures Reachable(RPC, s) && 0 < |s.threads| && s.threads[0].phase == Check(Marker(0, 0)) && s.threads[0].side.Prod?
    ensures s.prod.tail.pos == M - 5 && s.prod.tail.pos == s.cons.head.pos + 27
    ensures exists run: seq<Action> :: Exec32(RPC, Init32(RPC, 2), run) == Concrete(s)
    ensures Step32(RPC, Concrete(s), 0).threads[0].phase.Refused?
  {
    s := LimitState();
    InstancesFit();
    var run: seq<Action> :| StrictRun(RPC, Init(RPC, 2), run) && s == Exec(RPC, Init(RPC, 2), run);
    InvInit(RPC, 2);
    StrictAgrees(RPC, Init(RPC, 2), run);
    assert Init32(RPC, 2) == Concrete(Init(RPC, 2));
    QuiescentMarkers(RPC, s, Cons);
    WrongRefusal(RPC, s, 0);
    assert Concrete(s).threads[0] == WrapThread(s.threads[0]);
  }
}
