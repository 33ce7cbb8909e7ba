/** The contents of the ring: what was written for a reserved position is what its consumer reads. */
module RingData {
  import opened Finite
  import opened Ring
  import opened RingSafety

  /* ---------------------------------------------------------------- the invariant */

  ghost predicate ShapeOk(c: Config, s: State)
    requires c.Valid()
  {
    && |s.ring| == |s.msgs| == c.n
    && (forall x :: 0 <= x < c.n ==> |s.msgs[x]| == c.w)
    && |s.log| == s.prod.tail.pos
    && (forall p :: 0 <= p < |s.log| ==> |s.log[p].words| == c.w && (c.w > 0 ==> s.log[p].id == p % c.n))
  }

  /** The ring entry of position p holds the item reserved there. */
  ghost predicate Stored(c: Config, s: State, p: nat)
    requires c.Valid() && ShapeOk(c, s)
  {
    p < |s.log| && s.ring[p % c.n] == s.log[p].id && s.msgs[p % c.n] == s.log[p].words
  }

  ghost predicate CellsOk(c: Config, s: State)
    requires c.Valid() && ShapeOk(c, s)
  {
    forall p :: p in s.prod.committed && s.cons.head.pos <= p ==> Stored(c, s, p)
  }

  /** How far thread th has got with the item it moves. */
  ghost predicate Carries(c: Config, s: State, th: Thread)
    requires c.Valid() && ShapeOk(c, s)
  {
    match th.side
    case Prod =>
      && (th.Pending() ==> |th.item.words| == c.w)
      && (th.InFlight() ==> th.phase.entry < |s.log| && th.item == s.log[th.phase.entry])
      && (th.phase.Move? ==>
            && th.phase.k <= c.w
            && s.msgs[th.phase.entry % c.n][..th.phase.k] == s.log[th.phase.entry].words[..th.phase.k])
      && (th.Committing() ==> Stored(c, s, th.phase.entry))
    case Cons =>
      && (th.InFlight() ==> th.phase.entry < |s.log|)
      && (th.phase.Move? ==>
            && th.phase.k <= c.w
            && (th.phase.k > 0 ==>
                  th.item == Item(s.log[th.phase.entry].id, s.log[th.phase.entry].words[..th.phase.k - 1])))
      && (th.Committing() ==> th.item == s.log[th.phase.entry])
      && (th.phase.Completed? ==> th.phase.entry in s.out && s.out[th.phase.entry] == th.item)
  }

  ghost predicate OutOk(s: State) {
    && s.out.Keys == s.cons.committed
    && (forall p :: p in s.out ==> p < |s.log| && s.out[p] == s.log[p])
  }

  ghost predicate DataOk(c: Config, s: State)
    requires c.Valid()
  {
    && ShapeOk(c, s) && CellsOk(c, s) && OutOk(s)
    && (forall i :: 0 <= i < |s.threads| ==> Carries(c, s, s.threads[i]))
  }

  ghost predicate Inv(c: Config, s: State)
    requires c.Valid()
  {
    ProtocolOk(c, s) && DataOk(c, s)
  }

  /* ---------------------------------------------------------------- steps */

  /** Where the positions of in-flight threads lie. */
  lemma InFlightRange(c: Config, s: State, i: nat)
    requires ProtocolOk(c, s) && i < |s.threads| && s.threads[i].InFlight()
    ensures var b := s.Of(s.threads[i].side); var e := s.threads[i].phase.entry;
            && e in b.holder && b.holder[e] == i
            && b.head.pos <= e < b.tail.pos
            && s.cons.head.pos <= e < s.prod.tail.pos <= s.cons.head.pos + c.n
            && (s.threads[i].side.Prod? ==> s.cons.tail.pos <= e)
            && (s.threads[i].side.Cons? ==> e in s.prod.committed)
  {
    var b, e := s.Of(s.threads[i].side), s.threads[i].phase.entry;
    assert SideOk(c, b, s.threads, s.threads[i].side);
  }

  /** Two in-flight threads, whatever their sides, never use the same ring entry. */
  lemma IndexDistinct(c: Config, s: State, i: nat, j: nat)
    requires c.Valid() && ProtocolOk(c, s)
    requires i < |s.threads| && j < |s.threads| && i != j
    requires s.threads[i].InFlight() && s.threads[j].InFlight()
    ensures s.threads[i].phase.entry % c.n != s.threads[j].phase.entry % c.n
  {
    InFlightRange(c, s, i);
    InFlightRange(c, s, j);
    var p, q := s.threads[i].phase.entry, s.threads[j].phase.entry;
    if p < q { ModDistinct(p, q, c.n); } else { ModDistinct(q, p, c.n); }
  }

  /** A step of thread i that writes no memory, and only extends the log and the results. */
  lemma MemoryKept(c: Config, s: State, s': State, i: nat)
    requires c.Valid() && DataOk(c, s) && ShapeOk(c, s') && OutOk(s')
    requires i < |s.threads| == |s'.threads| && s'.threads == s.threads[i := s'.threads[i]]
    requires s'.ring == s.ring && s'.msgs == s.msgs && s.log <= s'.log
    requires forall p :: p in s.out ==> p in s'.out && s'.out[p] == s.out[p]
    requires s.cons.head.pos <= s'.cons.head.pos
    requires forall p :: p in s'.prod.committed ==> p in s.prod.committed || Stored(c, s', p)
    requires Carries(c, s', s'.threads[i])
    ensures DataOk(c, s')
  {
    forall p | p in s'.prod.committed && s'.cons.head.pos <= p ensures Stored(c, s', p) {
      assert p in s.prod.committed ==> Stored(c, s, p);
    }
    forall j | 0 <= j < |s'.threads| ensures Carries(c, s', s'.threads[j]) {
      if j != i { CarriesFrame(c, s, s', s.threads[j]); }
    }
  }

  lemma CarriesFrame(c: Config, s: State, s': State, th: Thread)
    requires c.Valid() && ShapeOk(c, s) && ShapeOk(c, s') && Carries(c, s, th)
    requires s'.ring == s.ring && s'.msgs == s.msgs && s.log <= s'.log
    requires forall p :: p in s.out ==> p in s'.out && s'.out[p] == s.out[p]
    ensures Carries(c, s', th)
  {
  }

  lemma DataQuiet(c: Config, s: State, i: nat)
    requires c.Valid() && Inv(c, s) && i < |s.threads|
    requires !Reserves(s, i) && !Publishes(s, i) && !s.threads[i].phase.Move?
    ensures DataOk(c, Step(c, s, i))
  {
    var s' := Step(c, s, i);
    QuietMemory(c, s, i);
    CarriesFrame(c, s, s', s.threads[i]);
    MemoryKept(c, s, s', i);
  }

  lemma QuietMemory(c: Config, s: State, i: nat)
    requires c.Valid() && i < |s.threads|
    requires !Reserves(s, i) && !Publishes(s, i) && !s.threads[i].phase.Move?
    ensures var s' := Step(c, s, i); var th, th' := s.threads[i], s'.threads[i];
            && s' == s.(threads := s.threads[i := th'])
            && th'.side == th.side && th'.item == th.item && !th'.phase.Move?
            && (th'.Pending() ==> th.Pending()) && th'.Committing() == th.Committing()
            && (th.Committing() ==> th'.phase.entry == th.phase.entry)
            && (th'.phase.Completed? ==> th' == th)
  {
  }

  /** Writing the cell of thread i leaves every other live cell alone. */
  lemma CellFrame(c: Config, s: State, i: nat, p: nat)
    requires c.Valid() && ProtocolOk(c, s) && i < |s.threads| && s.threads[i].InFlight()
    requires s.threads[i].side.Prod? && p in s.prod.committed && s.cons.head.pos <= p
    ensures p % c.n != s.threads[i].phase.entry % c.n
  {
    InFlightRange(c, s, i);
    var e := s.threads[i].phase.entry;
    if p < e { ModDistinct(p, e, c.n); } else { ModDistinct(e, p, c.n); }
  }

  /** Progress of the moving thread itself. */
  lemma MovedIn(c: Config, s: State, i: nat)
    requires c.Valid() && Inv(c, s) && i < |s.threads|
    requires s.threads[i].phase.Move? && s.threads[i].side.Prod?
    ensures ShapeOk(c, MoveIn(c, s, i)) && Carries(c, MoveIn(c, s, i), MoveIn(c, s, i).threads[i])
  {
    hide FlowOk, HoldersOk, LocalsOk;
    var s' := MoveIn(c, s, i);
    var Move(e, k) := s.threads[i].phase;
    assert Carries(c, s, s.threads[i]);
    if k < c.w {
      assert s'.msgs[e % c.n][..k + 1] == s.msgs[e % c.n][..k] + [s.log[e].words[k]];
    } else {
      assert s.msgs[e % c.n] == s.msgs[e % c.n][..k];
      assert s.log[e].words == s.log[e].words[..k];
    }
  }

  lemma DataMoveIn(c: Config, s: State, i: nat)
    requires c.Valid() && Inv(c, s) && i < |s.threads|
    requires s.threads[i].phase.Move? && s.threads[i].side.Prod?
    ensures DataOk(c, MoveIn(c, s, i))
  {
    hide ProtocolOk;
    var s' := MoveIn(c, s, i);
    MovedIn(c, s, i);
    forall p | p in s'.prod.committed && s'.cons.head.pos <= p ensures Stored(c, s', p) {
      CellFrame(c, s, i, p);
      assert Stored(c, s, p);
    }
    forall j | 0 <= j < |s'.threads| ensures Carries(c, s', s'.threads[j]) {
      if j != i {
        assert Carries(c, s, s.threads[j]);
        if s.threads[j].InFlight() { IndexDistinct(c, s, i, j); }
      }
    }
  }

  lemma MovedOut(c: Config, s: State, i: nat)
    requires c.Valid() && Inv(c, s) && i < |s.threads|
    requires s.threads[i].phase.Move? && s.threads[i].side.Cons?
    ensures Carries(c, s, MoveOut(c, s, i).threads[i])
  {
    hide ProtocolOk;
    var th := s.threads[i];
    var Move(e, k) := th.phase;
    assert Carries(c, s, th);
    InFlightRange(c, s, i);
    assert Stored(c, s, e);
    if k > 0 {
      assert s.log[e].words[..k] == s.log[e].words[..k - 1] + [s.log[e].words[k - 1]];
    }
    if k == c.w {
      assert s.log[e].words == s.log[e].words[..k];
    }
  }

  lemma DataMoveOut(c: Config, s: State, i: nat)
    requires c.Valid() && Inv(c, s) && i < |s.threads|
    requires s.threads[i].phase.Move? && s.threads[i].side.Cons?
    ensures DataOk(c, MoveOut(c, s, i))
  {
    var s' := MoveOut(c, s, i);
    MovedOut(c, s, i);
    CarriesFrame(c, s, s', s'.threads[i]);
    MemoryKept(c, s, s', i);
  }

  lemma DataReserve(c: Config, s: State, i: nat)
    requires c.Valid() && Inv(c, s) && i < |s.threads| && Reserves(s, i)
    ensures DataOk(c, Reserve(c, s, i))
  {
    assert Carries(c, s, s.threads[i]);
    assert LocalOk(c, s.Of(s.threads[i].side), s.threads[i]);
    MemoryKept(c, s, Reserve(c, s, i), i);
  }

  lemma DataPublishProd(c: Config, s: State, i: nat)
    requires c.Valid() && Inv(c, s) && i < |s.threads| && Publishes(s, i) && s.threads[i].side.Prod?
    ensures DataOk(c, Publish(s, i))
  {
    var s' := Publish(s, i);
    assert Carries(c, s, s.threads[i]);
    assert s'.out == s.out && s'.cons == s.cons && s'.log == s.log;
    assert s'.prod.committed == s.prod.committed + {s.threads[i].phase.entry};
    MemoryKept(c, s, s', i);
  }

  lemma PublishConsFrame(c: Config, s: State, i: nat)
    requires i < |s.threads| && Publishes(s, i) && s.threads[i].side.Cons?
    ensures var s' := Publish(s, i); var th := s.threads[i]; var e := th.phase.entry;
            && s' == s.(cons := Published(s.cons, e, s.cons.head, th.phase.t),
                        out := s.out[e := th.item], threads := s.threads[i := th.(phase := Completed(e))])
  {
  }

  /** A committing consumer has read the item of its position, which has no result yet. */
  lemma ReadyToPublish(c: Config, s: State, i: nat)
    requires c.Valid() && Inv(c, s) && i < |s.threads| && s.threads[i].Committing() && s.threads[i].side.Cons?
    ensures var e := s.threads[i].phase.entry; e !in s.out && e < |s.log| && s.threads[i].item == s.log[e]
  {
    assert Carries(c, s, s.threads[i]);
    InFlightRange(c, s, i);
  }

  lemma DataPublishCons(c: Config, s: State, i: nat, b: Bound)
    requires c.Valid() && Inv(c, s) && i < |s.threads| && s.threads[i].Committing() && s.threads[i].side.Cons?
    requires s.cons.head.pos <= b.head.pos && b.committed == s.cons.committed + {s.threads[i].phase.entry}
    ensures var th := s.threads[i]; var e := th.phase.entry;
            DataOk(c, s.(cons := b, out := s.out[e := th.item], threads := s.threads[i := th.(phase := Completed(e))]))
  {
    hide ProtocolOk, Carries;
    var th := s.threads[i];
    var e := th.phase.entry;
    ReadyToPublish(c, s, i);
    var s' := s.(cons := b, out := s.out[e := th.item], threads := s.threads[i := th.(phase := Completed(e))]);
    MemoryKept(c, s, s', i);
  }

  lemma DataBegin(c: Config, s: State, i: nat, th: Thread)
    requires c.Valid() && Inv(c, s) && i < |s.threads|
    requires th.phase.LoadTail? && |th.item.words| == (if th.side.Prod? then c.w else 0)
    ensures DataOk(c, s.SetThread(i, th))
  {
    MemoryKept(c, s, s.SetThread(i, th), i);
  }

  lemma StepCases(c: Config, s: State, i: nat)
    requires c.Valid() && i < |s.threads|
    ensures Reserves(s, i) ==> Step(c, s, i) == Reserve(c, s, i)
    ensures Publishes(s, i) ==> Step(c, s, i) == Publish(s, i)
    ensures s.threads[i].phase.Move? ==>
              Step(c, s, i) == if s.threads[i].side.Prod? then MoveIn(c, s, i) else MoveOut(c, s, i)
  {
  }

  lemma DataRun(c: Config, s: State, i: nat)
    requires c.Valid() && Inv(c, s) && i < |s.threads|
    ensures DataOk(c, Step(c, s, i))
  {
    StepCases(c, s, i);
    if Reserves(s, i) { DataReserve(c, s, i); }
    else if Publishes(s, i) {
      if s.threads[i].side.Prod? { DataPublishProd(c, s, i); } else {
        var s' := Publish(s, i);
        PublishConsFrame(c, s, i);
        PublishStep(c, s.cons, s.threads, Cons, i, s'.threads[i]);
        DataPublishCons(c, s, i, s'.cons);
      }
    }
    else if s.threads[i].phase.Move? {
      if s.threads[i].side.Prod? { DataMoveIn(c, s, i); } else { DataMoveOut(c, s, i); }
    }
    else { DataQuiet(c, s, i); }
  }

  /** Every action of every thread keeps the invariant. */
  lemma InvStep(c: Config, s: State, a: Action)
    requires c.Valid() && Inv(c, s)
    ensures Inv(c, Apply(c, s, a))
  {
    ProtocolStep(c, s, a);
    match a
    case BeginEnqueue(i, item) =>
      if i < |s.threads| && |item.words| == c.w { DataBegin(c, s, i, Thread(Prod, LoadTail, item, 0)); }
    case BeginDequeue(i) =>
      if i < |s.threads| { DataBegin(c, s, i, Thread(Cons, LoadTail, Item(0, []), 0)); }
    case Run(i) =>
      if i < |s.threads| { DataRun(c, s, i); }
  }

  lemma InvInit(c: Config, threads: nat)
    requires c.Valid()
    ensures Inv(c, Init(c, threads))
  {
    ProtocolInit(c, threads);
  }

  /** So it holds after every interleaving. */
  lemma {:induction false} InvExec(c: Config, s: State, run: seq<Action>)
    requires c.Valid() && Inv(c, s)
    ensures Inv(c, Exec(c, s, run))
  {
    if run != [] {
      InvExec(c, s, run[..|run| - 1]);
      InvStep(c, Exec(c, s, run[..|run| - 1]), run[|run| - 1]);
    }
  }
}
