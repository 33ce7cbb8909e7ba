/** One operation run to its end with nothing else in flight: the ring is then a bounded FIFO, and
    rpcmsg_queue_full and rpcmsg_queue_empty say exactly whether the operation is refused. */
module RingSolo {
  import opened Ring
  import opened RingSafety
  import opened RingData
  import opened RingTheorems

  /** n consecutive steps of thread i. */
  function RunN(c: Config, s: State, i: nat, n: nat): (r: State)
    requires c.Valid() && i < |s.threads|
    ensures |r.threads| == |s.threads|
    decreases n
  {
    if n == 0 then s else Step(c, RunN(c, s, i, n - 1), i)
  }

  lemma {:induction false} RunNSplit(c: Config, s: State, i: nat, m: nat, n: nat)
    requires c.Valid() && i < |s.threads|
    ensures RunN(c, s, i, m + n) == RunN(c, RunN(c, s, i, m), i, n)
    decreases n
  {
    if n > 0 { RunNSplit(c, s, i, m, n - 1); }
  }

  ghost predicate Quiescent(s: State) {
    forall i :: 0 <= i < |s.threads| ==> !s.threads[i].InFlight()
  }

  lemma QuiescentMarkers(c: Config, s: State, side: Side)
    requires c.Valid() && Inv(c, s) && Quiescent(s)
    ensures s.Of(side).head == s.Of(side).tail
  {
    HoldersCount(c, s, side);
    assert Holders(s, side) == {};
    assert SideOk(c, s.Of(side), s.threads, side);
  }

  /** Everything but the markers and log of thread i's own operation, and its private memory. */
  ghost predicate SameElsewhere(s: State, s': State, i: nat)
    requires i < |s.threads|
  {
    && |s'.threads| == |s.threads| && s'.threads[i].side == s.threads[i].side
    && s'.Of(Other(s.threads[i].side)) == s.Of(Other(s.threads[i].side))
    && forall j :: 0 <= j < |s.threads| && j != i ==> s'.threads[j] == s.threads[j]
  }

  lemma Acquire(c: Config, s: State, i: nat)
    requires c.Valid() && i < |s.threads| && s.threads[i].phase.LoadTail?
    requires var b := s.Of(s.threads[i].side); b.head == b.tail && !Blocked(c, s, s.threads[i].side, b.tail)
    ensures var s' := RunN(c, s, i, 4); var b := s.Of(s.threads[i].side);
            && SameElsewhere(s, s', i)
            && s'.threads[i].phase == Move(b.tail.pos, 0) && s'.Of(s.threads[i].side) == Reserved(b, i)
            && s'.log == if s.threads[i].side.Prod? then s.log + [Sent(c, b.tail.pos, s.threads[i].item)] else s.log
  {
    var b := s.Of(s.threads[i].side);
    var s1 := s.Goto(i, WaitHead(b.tail));
    var s2 := s.Goto(i, Check(b.tail));
    var s3 := s.Goto(i, Cas(b.tail));
    assert s1.threads == s.threads[i := s1.threads[i]];
    assert Step(c, s, i) == s1;
    assert Step(c, s1, i) == s2;
    assert Step(c, s2, i) == s3;
    assert Step(c, s3, i) == Reserve(c, s3, i);
    assert RunN(c, s, i, 0) == s && RunN(c, s, i, 1) == s1 && RunN(c, s, i, 2) == s2 && RunN(c, s, i, 3) == s3;
  }

  lemma Refuse(c: Config, s: State, i: nat)
    requires c.Valid() && i < |s.threads| && s.threads[i].phase.LoadTail?
    requires var b := s.Of(s.threads[i].side); b.head == b.tail && Blocked(c, s, s.threads[i].side, b.tail)
    ensures RunN(c, s, i, 3) == s.Goto(i, Refused(s.Of(s.threads[i].side).tail))
  {
    var b := s.Of(s.threads[i].side);
    var s1 := s.Goto(i, WaitHead(b.tail));
    var s2 := s.Goto(i, Check(b.tail));
    assert Step(c, s, i) == s1;
    assert Step(c, s1, i) == s2;
    assert Step(c, s2, i) == s.Goto(i, Refused(b.tail));
    assert RunN(c, s, i, 0) == s && RunN(c, s, i, 1) == s1 && RunN(c, s, i, 2) == s2;
  }

  lemma {:induction false} MoveSome(c: Config, s: State, i: nat, n: nat)
    requires c.Valid() && i < |s.threads| && s.threads[i].phase.Move? && s.threads[i].phase.k == 0
    requires n <= c.w + 1
    ensures var s' := RunN(c, s, i, n); var e := s.threads[i].phase.entry;
            && SameElsewhere(s, s', i) && s'.log == s.log
            && s'.Of(s.threads[i].side) == s.Of(s.threads[i].side)
            && s'.threads[i].phase == if n <= c.w then Move(e, n) else CommitHead(e)
    decreases n
  {
    if n > 0 {
      MoveSome(c, s, i, n - 1);
      MoveOne(c, RunN(c, s, i, n - 1), i);
    }
  }

  lemma MoveOne(c: Config, s: State, i: nat)
    requires c.Valid() && i < |s.threads| && s.threads[i].phase.Move?
    ensures var s' := Step(c, s, i); var Move(e, k) := s.threads[i].phase;
            && SameElsewhere(s, s', i) && s'.log == s.log
            && s'.Of(s.threads[i].side) == s.Of(s.threads[i].side)
            && s'.threads[i].phase == if k < c.w then Move(e, k + 1) else CommitHead(e)
  {
  }

  lemma CommitAlone(c: Config, s: State, i: nat)
    requires c.Valid() && i < |s.threads| && s.threads[i].phase.CommitHead?
    requires var b := s.Of(s.threads[i].side); b.head.count + 1 == b.tail.count
    ensures var s' := RunN(c, s, i, 3); var b := s.Of(s.threads[i].side); var b' := s'.Of(s.threads[i].side);
            && SameElsewhere(s, s', i) && s'.log == s.log
            && b'.tail == b.tail && b'.head == b.tail && s'.threads[i].phase == Completed(s.threads[i].phase.entry)
  {
    var b := s.Of(s.threads[i].side);
    var e := s.threads[i].phase.entry;
    var s1 := s.Goto(i, CommitTail(e, b.head));
    var s2 := s.Goto(i, CommitCas(e, b.head, b.tail));
    assert Step(c, s, i) == s1;
    assert Step(c, s1, i) == s2;
    assert Step(c, s2, i) == Publish(s2, i);
    assert RunN(c, s, i, 0) == s && RunN(c, s, i, 1) == s1 && RunN(c, s, i, 2) == s2;
  }

  lemma {:induction false} RunNParts(c: Config, s: State, i: nat, l: nat, m: nat, n: nat)
    requires c.Valid() && i < |s.threads|
    ensures RunN(c, s, i, l + m + n) == RunN(c, RunN(c, RunN(c, s, i, l), i, m), i, n)
  {
    RunNSplit(c, s, i, l, m);
    RunNSplit(c, s, i, l + m, n);
  }

  /** The effect of a whole operation of thread i. */
  ghost predicate Done(c: Config, s: State, s': State, i: nat)
    requires c.Valid() && i < |s.threads|
  {
    var th := s.threads[i];
    var b, b' := s.Of(th.side), s'.Of(th.side);
    && SameElsewhere(s, s', i) && s'.threads[i].phase == Completed(b.tail.pos)
    && b'.tail == b'.head == Marker(b.tail.pos + 1, b.tail.count + 1)
    && s'.log == if th.side.Prod? then s.log + [Sent(c, b.tail.pos, th.item)] else s.log
  }

  lemma {:induction false} MoveAndCommit(c: Config, s: State, s1: State, i: nat)
    requires c.Valid() && i < |s.threads| && SameElsewhere(s, s1, i)
    requires var b := s.Of(s.threads[i].side);
             && b.head == b.tail && s1.threads[i].phase == Move(b.tail.pos, 0)
             && s1.Of(s.threads[i].side) == Reserved(b, i)
             && s1.log == if s.threads[i].side.Prod? then s.log + [Sent(c, b.tail.pos, s.threads[i].item)] else s.log
    ensures Done(c, s, RunN(c, RunN(c, s1, i, c.w + 1), i, 3), i)
  {
    MoveSome(c, s1, i, c.w + 1);
    CommitAlone(c, RunN(c, s1, i, c.w + 1), i);
  }

  /** A whole operation of thread i that is not refused. */
  lemma {:induction false} Complete(c: Config, s: State, i: nat)
    requires c.Valid() && i < |s.threads| && s.threads[i].phase.LoadTail?
    requires var b := s.Of(s.threads[i].side); b.head == b.tail && !Blocked(c, s, s.threads[i].side, b.tail)
    ensures Done(c, s, RunN(c, s, i, c.w + 8), i)
  {
    Acquire(c, s, i);
    MoveAndCommit(c, s, RunN(c, s, i, 4), i);
    RunNParts(c, s, i, 4, c.w + 1, 3);
  }

  lemma {:induction false} RunNExec(c: Config, s: State, i: nat, n: nat)
    requires c.Valid() && i < |s.threads|
    ensures RunN(c, s, i, n) == Exec(c, s, seq(n, _ => Run(i)))
    decreases n
  {
    hide Step;
    if n > 0 {
      RunNExec(c, s, i, n - 1);
      assert seq(n, _ => Run(i))[..n - 1] == seq(n - 1, _ => Run(i));
    }
  }

  /** The items waiting in the queue, oldest first. */
  function Waiting(s: State): seq<Item>
    requires s.cons.tail.pos <= |s.log|
  {
    s.log[s.cons.tail.pos..]
  }

  /** Alone, an enqueue on a queue that reports full, with n items waiting, is refused. */
  lemma SoloEnqueueFull(c: Config, s: State, i: nat, item: Item)
    requires c.Valid() && Inv(c, s) && Quiescent(s)
    requires i < |s.threads| && s.threads[i].Resting() && |item.words| == c.w
    ensures |Waiting(s)| <= c.n && (QueueFull(c, s) <==> |Waiting(s)| == c.n)
    ensures var s0 := Apply(c, s, BeginEnqueue(i, item));
            QueueFull(c, s) ==> RunN(c, s0, i, 3) == s0.Goto(i, Refused(s.prod.tail))
  {
    QuiescentMarkers(c, s, Prod);
    QuiescentMarkers(c, s, Cons);
    if QueueFull(c, s) { Refuse(c, s.SetThread(i, Thread(Prod, LoadTail, item, 0)), i); }
  }

  /** Otherwise it appends what it was given: the words, and the id, which for an event is the index. */
  lemma SoloEnqueue(c: Config, s: State, i: nat, item: Item)
    requires c.Valid() && Inv(c, s) && Quiescent(s) && !QueueFull(c, s)
    requires i < |s.threads| && s.threads[i].Resting() && |item.words| == c.w
    ensures var done := RunN(c, Apply(c, s, BeginEnqueue(i, item)), i, c.w + 8);
            && done.threads[i].phase.Completed? && Quiescent(done)
            && done.cons.tail.pos <= |done.log|
            && |Waiting(done)| == |Waiting(s)| + 1 && Waiting(done)[..|Waiting(s)|] == Waiting(s)
            && Waiting(done)[|Waiting(s)|].words == item.words
            && Waiting(done)[|Waiting(s)|].id == if c.w > 0 then s.prod.tail.pos % c.n else item.id
  {
    QuiescentMarkers(c, s, Prod);
    QuiescentMarkers(c, s, Cons);
    Complete(c, s.SetThread(i, Thread(Prod, LoadTail, item, 0)), i);
  }

  /** Alone, a dequeue on a queue that reports empty, with no item waiting, is refused. */
  lemma SoloDequeueEmpty(c: Config, s: State, i: nat)
    requires c.Valid() && Inv(c, s) && Quiescent(s) && i < |s.threads| && s.threads[i].Resting()
    ensures s.cons.tail.pos <= |s.log| && (QueueEmpty(s) <==> Waiting(s) == [])
    ensures var s0 := Apply(c, s, BeginDequeue(i));
            QueueEmpty(s) ==> RunN(c, s0, i, 3) == s0.Goto(i, Refused(s.cons.tail))
  {
    QuiescentMarkers(c, s, Prod);
    QuiescentMarkers(c, s, Cons);
    if QueueEmpty(s) { Refuse(c, s.SetThread(i, Thread(Cons, LoadTail, Item(0, []), 0)), i); }
  }

  /** Otherwise it takes the oldest item. */
  lemma SoloDequeue(c: Config, s: State, i: nat)
    requires c.Valid() && Inv(c, s) && Quiescent(s) && !QueueEmpty(s)
    requires i < |s.threads| && s.threads[i].Resting()
    ensures var done := RunN(c, Apply(c, s, BeginDequeue(i)), i, c.w + 8);
            && done.threads[i].phase.Completed? && Quiescent(done)
            && 0 < |Waiting(s)| && done.cons.tail.pos <= |done.log|
            && done.threads[i].item == Waiting(s)[0] && Waiting(done) == Waiting(s)[1..]
  {
    hide Step, CellsOk, Carries, LocalsOk, HoldersOk;
    QuiescentMarkers(c, s, Prod);
    QuiescentMarkers(c, s, Cons);
    var s0 := s.SetThread(i, Thread(Cons, LoadTail, Item(0, []), 0));
    Complete(c, s0, i);
    InvStep(c, s, BeginDequeue(i));
    Delivered(c, s0, i, c.w + 8);
  }

  lemma Delivered(c: Config, s: State, i: nat, n: nat)
    requires c.Valid() && Inv(c, s) && i < |s.threads|
    ensures var s' := RunN(c, s, i, n); var th := s'.threads[i];
            th.side.Cons? && th.phase.Completed? ==> th.phase.entry < |s'.log| && th.item == s'.log[th.phase.entry]
  {
    RunNExec(c, s, i, n);
    InvExec(c, s, seq(n, _ => Run(i)));
    var s' := RunN(c, s, i, n);
    assert Carries(c, s', s'.threads[i]);
  }
}
