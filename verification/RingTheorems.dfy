/** What holds of the ring in every state that any interleaving of any number of threads reaches. */
module RingTheorems {
  import opened Finite
  import opened Ring
  import opened RingSafety
  import opened RingData

  ghost predicate Reachable(c: Config, s: State)
    requires c.Valid()
  {
    exists threads: nat, run: seq<Action> :: s == Exec(c, Init(c, threads), run)
  }

  lemma ReachableInv(c: Config, s: State)
    requires c.Valid() && Reachable(c, s)
    ensures Inv(c, s)
  {
    var threads: nat, run: seq<Action> :| s == Exec(c, Init(c, threads), run);
    InvInit(c, threads);
    InvExec(c, Init(c, threads), run);
  }

  /* ---------------------------------------------------------------- order and exclusion */

  lemma Ordering(c: Config, s: State)
    requires c.Valid() && Reachable(c, s)
    ensures s.cons.head.pos <= s.cons.tail.pos <= s.prod.head.pos <= s.prod.tail.pos <= s.cons.head.pos + c.n
    ensures s.prod.tail.pos <= s.prod.head.pos + c.h + 1
    ensures s.cons.tail.pos <= s.cons.head.pos + c.h + 1
  {
    ReachableInv(c, s);
  }

  lemma Exclusion(c: Config, s: State, i: nat, j: nat)
    requires c.Valid() && Reachable(c, s)
    requires i < |s.threads| && j < |s.threads| && i != j
    requires s.threads[i].InFlight() && s.threads[j].InFlight()
    ensures s.threads[i].phase.entry % c.n != s.threads[j].phase.entry % c.n
  {
    ReachableInv(c, s);
    IndexDistinct(c, s, i, j);
  }

  /* ---------------------------------------------------------------- exactly-once FIFO */

  /** The log only grows and no result is ever changed: what position k carries is fixed when the
      k-th producer reserves it. */
  lemma {:induction false} HistoryFixed(c: Config, s: State, run: seq<Action>)
    requires c.Valid() && Inv(c, s)
    ensures var s' := Exec(c, s, run);
            s.log <= s'.log && forall p :: p in s.out ==> p in s'.out && s'.out[p] == s.out[p]
  {
    if run != [] {
      var before := Exec(c, s, run[..|run| - 1]);
      HistoryFixed(c, s, run[..|run| - 1]);
      InvExec(c, s, run[..|run| - 1]);
      HistoryStep(c, before, run[|run| - 1]);
    }
  }

  /** Consumer i commits position e with the item reserved there. */
  ghost predicate Delivers(s: State, s': State, i: nat, e: nat) {
    && e !in s.out && e < |s.log| && s'.out == s.out[e := s.log[e]]
    && i < |s'.threads| && s'.threads[i].phase == Completed(e) && s'.threads[i].item == s.log[e]
  }

  /** Every step leaves the results alone, or adds one: a consumer that commits position e delivers
      the item reserved at e, which nobody delivered before. */
  lemma HistoryStep(c: Config, s: State, a: Action)
    requires c.Valid() && Inv(c, s)
    ensures var s' := Apply(c, s, a);
            && s.log <= s'.log && |s'.log| <= |s.log| + 1
            && (s'.out == s.out || (a.Run? && exists e :: Delivers(s, s', a.i, e)))
  {
    if a.Run? && a.i < |s.threads| {
      var i, s' := a.i, Step(c, s, a.i);
      StepCases(c, s, i);
      if Publishes(s, i) {
        if s.threads[i].side.Cons? {
          ReadyToPublish(c, s, i);
          PublishConsFrame(c, s, i);
          assert Delivers(s, s', i, s.threads[i].phase.entry);
        }
      } else if !Reserves(s, i) {
        QuietFrame(c, s, i);
      }
    }
  }

  /** Results are what was sent, and what is queued is still intact: a published entry is not
      overwritten before the consumers have passed it. */
  lemma ExactlyOnceFifo(c: Config, s: State)
    requires c.Valid() && Reachable(c, s)
    ensures |s.log| == s.prod.tail.pos && |s.ring| == |s.msgs| == c.n && s.prod.head.pos <= |s.log|
    ensures forall p :: p in s.out ==> p < |s.log| && s.out[p] == s.log[p]
    ensures forall i :: 0 <= i < |s.threads| && s.threads[i].side.Cons? && s.threads[i].phase.Completed? ==>
              s.threads[i].phase.entry < |s.log| && s.threads[i].item == s.log[s.threads[i].phase.entry]
    ensures forall p: nat :: s.cons.head.pos <= p < s.prod.head.pos ==>
              s.ring[p % c.n] == s.log[p].id && s.msgs[p % c.n] == s.log[p].words
    ensures |s.out.Keys| == s.cons.head.count && forall p: nat :: p < s.cons.head.pos ==> p in s.out
  {
    ReachableInv(c, s);
    forall p: nat | s.cons.head.pos <= p < s.prod.head.pos
      ensures s.ring[p % c.n] == s.log[p].id && s.msgs[p % c.n] == s.log[p].words {
      assert p in s.prod.committed;
      assert Stored(c, s, p);
    }
    forall i | 0 <= i < |s.threads| && s.threads[i].side.Cons? && s.threads[i].phase.Completed?
      ensures s.threads[i].phase.entry < |s.log| && s.threads[i].item == s.log[s.threads[i].phase.entry] {
      assert Carries(c, s, s.threads[i]);
    }
  }

  /* ---------------------------------------------------------------- commit aggregation */

  ghost function Holders(s: State, side: Side): set<nat> {
    set i: nat | i < |s.threads| && s.threads[i].side == side && s.threads[i].InFlight()
  }

  /** Each thread in flight holds one position, and each held position has one thread. */
  lemma HoldersHold(s: State, side: Side)
    requires HoldersOk(s.Of(side), s.threads, side)
    ensures |Holders(s, side)| == |s.Of(side).holder.Keys|
  {
    var holder := s.Of(side).holder;
    forall i | i in Holders(s, side) ensures i in holder.Values {
      assert s.threads[i].phase.entry in holder;
    }
    forall p | p in holder ensures holder[p] in Holders(s, side) {
      assert Holds(s.threads[holder[p]], side, p);
    }
    assert Holders(s, side) == holder.Values;
    forall p, q | p in holder && q in holder && holder[p] == holder[q] ensures p == q {
      assert Holds(s.threads[holder[p]], side, p) && Holds(s.threads[holder[q]], side, q);
    }
    InjectiveSize(holder);
  }

  lemma HeldCount(c: Config, b: Bound)
    requires BoundOk(c, b)
    ensures |b.holder.Keys| + b.head.count == b.tail.count
  {
    assert b.holder.Keys + b.committed == UpTo(b.tail.pos);
    assert |b.holder.Keys + b.committed| == |b.holder.Keys| + |b.committed|;
  }

  /** The threads in flight are exactly the reservations not yet committed. */
  lemma HoldersCount(c: Config, s: State, side: Side)
    requires c.Valid() && ProtocolOk(c, s)
    ensures |Holders(s, side)| + s.Of(side).head.count == s.Of(side).tail.count
  {
    assert SideOk(c, s.Of(side), s.threads, side);
    HoldersHold(s, side);
    HeldCount(c, s.Of(side));
  }

  lemma CommitAggregation(c: Config, s: State, side: Side)
    requires c.Valid() && Reachable(c, s)
    ensures var b := s.Of(side);
            && |b.committed| == b.head.count
            && (forall p: nat :: p < b.head.pos ==> p in b.committed)
            && |Holders(s, side)| == b.tail.count - b.head.count
            && (Holders(s, side) == {} ==> b.head == b.tail)
  {
    ReachableInv(c, s);
    HoldersCount(c, s, side);
    assert SideOk(c, s.Of(side), s.threads, side);
  }

  /* ---------------------------------------------------------------- wait-freedom of commit */

  /** Bounds on the whole life of a reservation. */
  lemma CommitWindow(c: Config, s: State, i: nat)
    requires c.Valid() && ProtocolOk(c, s) && i < |s.threads| && s.threads[i].InFlight()
    ensures var b := s.Of(s.threads[i].side); var e := s.threads[i].phase.entry;
            && b.head.pos <= e < b.tail.pos <= e + c.h + 1
            && e <= b.head.count + c.h && b.head.count <= e + c.h
            && s.threads[i].fails <= 2 * c.h
            && (s.threads[i].phase.CommitTail? || s.threads[i].phase.CommitCas? ==>
                  b.head.count <= s.threads[i].phase.oh.count + 2 * c.h - s.threads[i].fails)
  {
    var th := s.threads[i];
    var b := s.Of(th.side);
    InFlightRange(c, s, i);
    assert SideOk(c, b, s.threads, th.side);
    assert LocalOk(c, b, th);
    assert b.head.count < b.tail.pos by {
      assert th.phase.entry !in b.committed;
      FillsUp(b.committed, b.tail.pos);
    }
  }

  /** A commit CAS fails at most 2h times, however the other threads are scheduled. */
  lemma CommitFailures(c: Config, s: State, i: nat)
    requires c.Valid() && Reachable(c, s) && i < |s.threads| && s.threads[i].InFlight()
    ensures s.threads[i].fails <= 2 * c.h
    ensures var b := s.Of(s.threads[i].side); var e := s.threads[i].phase.entry;
            b.head.pos <= e && b.tail.pos <= e + c.h + 1
  {
    ReachableInv(c, s);
    CommitWindow(c, s, i);
  }

  /** An upper bound on the steps a committing thread still needs. */
  function Budget(c: Config, th: Thread): int {
    match th.phase
    case CommitHead(_) => 4 * c.h + 3
    case CommitTail(_, _) => 2 * (2 * c.h - th.fails) + 2
    case CommitCas(_, _, _) => 2 * (2 * c.h - th.fails) + 1
    case _ => 0
  }

  function OwnSteps(run: seq<Action>, i: nat): nat {
    if run == [] then 0
    else OwnSteps(run[..|run| - 1], i) + if run[|run| - 1] == Run(i) then 1 else 0
  }

  /** A step of a committing thread uses up budget; a step of another leaves the thread alone. */
  lemma BudgetStep(c: Config, s: State, i: nat, a: Action)
    requires c.Valid() && i < |s.threads| && s.threads[i].Committing()
    requires s.threads[i].phase.CommitHead? ==> s.threads[i].fails == 0
    ensures var s' := Apply(c, s, a); var th := s.threads[i];
            && |s'.threads| == |s.threads|
            && (s'.threads[i].phase == Completed(th.phase.entry)
                || (s'.threads[i].Committing() && s'.threads[i].phase.entry == th.phase.entry
                    && Budget(c, s'.threads[i]) + (if a == Run(i) then 1 else 0) <= Budget(c, th)))
  {
    if a == Run(i) {
      assert Apply(c, s, a) == Step(c, s, i);
    } else {
      OthersKeep(c, s, i, a);
    }
  }

  lemma OthersKeep(c: Config, s: State, i: nat, a: Action)
    requires c.Valid() && i < |s.threads| && s.threads[i].Committing() && a != Run(i)
    ensures |Apply(c, s, a).threads| == |s.threads| && Apply(c, s, a).threads[i] == s.threads[i]
  {
    if a.Run? && a.i < |s.threads| { StepOther(c, s, i, a.i); }
  }

  lemma StepOther(c: Config, s: State, i: nat, j: nat)
    requires c.Valid() && i < |s.threads| && j < |s.threads| && i != j
    ensures |Step(c, s, j).threads| == |s.threads| && Step(c, s, j).threads[i] == s.threads[i]
  {
    hide Step;
    if Reserves(s, j) { ReserveFrame(c, s, j); }
    else if Publishes(s, j) { PublishFrame(c, s, j); }
    else { QuietFrame(c, s, j); }
  }

  /** Wait-freedom: a thread that takes 4h+3 steps of its commit, among any steps of others, has
      finished it on the way. */
  lemma {:induction false} CommitWaitFree(c: Config, s: State, i: nat, run: seq<Action>)
    requires c.Valid() && Inv(c, s) && i < |s.threads| && s.threads[i].phase.CommitHead?
    requires OwnSteps(run, i) >= 4 * c.h + 3
    ensures exists k: nat :: k <= |run| && i < |Exec(c, s, run[..k]).threads|
                             && Exec(c, s, run[..k]).threads[i].phase == Completed(s.threads[i].phase.entry)
  {
    if forall k: nat :: k <= |run| ==> !Finished(c, s, i, run[..k]) {
      StillCommitting(c, s, i, run);
      assert run[..|run|] == run;
      InvExec(c, s, run);
      CommitWindow(c, Exec(c, s, run), i);
      assert false;
    }
    var k: nat :| k <= |run| && Finished(c, s, i, run[..k]);
  }

  ghost predicate Finished(c: Config, s: State, i: nat, run: seq<Action>)
    requires c.Valid() && i < |s.threads| && s.threads[i].InFlight()
  {
    i < |Exec(c, s, run).threads| && Exec(c, s, run).threads[i].phase == Completed(s.threads[i].phase.entry)
  }

  lemma {:induction false} StillCommitting(c: Config, s: State, i: nat, run: seq<Action>)
    requires c.Valid() && Inv(c, s) && i < |s.threads| && s.threads[i].phase.CommitHead?
    requires forall k: nat :: k <= |run| ==> !Finished(c, s, i, run[..k])
    ensures var s' := Exec(c, s, run);
            && i < |s'.threads| && s'.threads[i].Committing()
            && s'.threads[i].phase.entry == s.threads[i].phase.entry
            && Budget(c, s'.threads[i]) + OwnSteps(run, i) <= 4 * c.h + 3
  {
    hide Inv, Apply;
    if run != [] {
      var before := run[..|run| - 1];
      forall k: nat | k <= |before| ensures !Finished(c, s, i, before[..k]) {
        assert before[..k] == run[..k];
      }
      StillCommitting(c, s, i, before);
      FreshCommit(c, s, i, before);
      BudgetStep(c, Exec(c, s, before), i, run[|run| - 1]);
      assert run[..|run|] == run && !Finished(c, s, i, run[..|run|]);
    }
  }

  lemma FreshCommit(c: Config, s: State, i: nat, run: seq<Action>)
    requires c.Valid() && Inv(c, s) && i < |Exec(c, s, run).threads|
    ensures var th := Exec(c, s, run).threads[i]; th.phase.CommitHead? ==> th.fails == 0
  {
    InvExec(c, s, run);
    var s' := Exec(c, s, run);
    assert LocalOk(c, s'.Of(s'.threads[i].side), s'.threads[i]);
  }

  /* ---------------------------------------------------------------- truthful failures */

  /** Whatever step makes a thread refused, a producer is so only when the queue is full and a consumer
      only when it is empty, at that very moment and however old its own copy of the tail. */
  lemma RefusalTruthful(c: Config, s: State, a: Action, i: nat)
    requires c.Valid() && Reachable(c, s) && i < |s.threads| && i < |Apply(c, s, a).threads|
    requires !s.threads[i].phase.Refused? && Apply(c, s, a).threads[i].phase.Refused?
    ensures s.threads[i].side.Prod? ==> s.prod.tail.pos == s.cons.head.pos + c.n
    ensures s.threads[i].side.Cons? ==> s.cons.tail.pos == s.prod.head.pos
  {
    hide Reachable;
    ReachableInv(c, s);
    if a != Run(i) {
      ThreadKept(c, s, a, i);
    } else {
      RefusedStep(c, s, i);
    }
  }

  lemma RefusedStep(c: Config, s: State, i: nat)
    requires c.Valid() && ProtocolOk(c, s) && i < |s.threads|
    requires !s.threads[i].phase.Refused? && Step(c, s, i).threads[i].phase.Refused?
    ensures s.threads[i].side.Prod? ==> s.prod.tail.pos == s.cons.head.pos + c.n
    ensures s.threads[i].side.Cons? ==> s.cons.tail.pos == s.prod.head.pos
  {
    hide HoldersOk, Step;
    RefusedFrom(c, s, i);
    assert LocalOk(c, s.Of(s.threads[i].side), s.threads[i]);
  }

  lemma RefusedFrom(c: Config, s: State, i: nat)
    requires c.Valid() && i < |s.threads|
    requires !s.threads[i].phase.Refused? && Step(c, s, i).threads[i].phase.Refused?
    ensures s.threads[i].phase.Check? && Blocked(c, s, s.threads[i].side, s.threads[i].phase.ot)
  {
    hide Blocked;
  }

  /** A thread that is not starting changes only by its own steps. */
  lemma ThreadKept(c: Config, s: State, a: Action, i: nat)
    requires c.Valid() && i < |s.threads| && a != Run(i)
    ensures |Apply(c, s, a).threads| == |s.threads|
    ensures Apply(c, s, a).threads[i] == s.threads[i] || Apply(c, s, a).threads[i].phase.LoadTail?
    ensures a.i != i || !s.threads[i].Resting() ==> Apply(c, s, a).threads[i] == s.threads[i]
  {
    if a.Run? && a.i < |s.threads| { StepOther(c, s, i, a.i); }
  }

  /** rpcmsg_queue_full and rpcmsg_queue_empty. */
  predicate QueueFull(c: Config, s: State) { c.n + s.cons.tail.pos == s.prod.tail.pos }
  predicate QueueEmpty(s: State) { s.prod.head.pos == s.cons.head.pos }

  /** On one snapshot, a queue reported full (empty) gives no thread an entry to reserve. */
  lemma ReportsTruthful(c: Config, s: State, i: nat)
    requires c.Valid() && Reachable(c, s) && i < |s.threads| && Reserves(s, i)
    ensures s.threads[i].side.Prod? ==> !QueueFull(c, s)
    ensures s.threads[i].side.Cons? ==> !QueueEmpty(s)
  {
    ReachableInv(c, s);
    assert s.threads[i].phase.Cas?;
  }

  /** Exactly when the reports are positive: the queue is full, or empty, and no consumer is in flight. */
  lemma ReportsExact(c: Config, s: State)
    requires c.Valid() && Reachable(c, s)
    ensures QueueFull(c, s) <==> s.prod.tail.pos == s.cons.head.pos + c.n && Holders(s, Cons) == {}
    ensures QueueEmpty(s) <==> s.cons.tail.pos == s.prod.head.pos && Holders(s, Cons) == {}
  {
    hide Reachable, LocalsOk, Holders;
    ReachableInv(c, s);
    HoldersCount(c, s, Cons);
    assert SideOk(c, s.cons, s.threads, Cons) && SideOk(c, s.prod, s.threads, Prod);
  }
}
