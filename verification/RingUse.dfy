/** The ring as its users see it when one thread (number 0) is the only consumer: which step takes
    an item in, which hands one out, and how much room is left. */
module RingUse {
  import opened Finite
  import opened Ring
  import opened RingSafety
  import opened RingData
  import opened RingTheorems

  /** Thread 0 only dequeues, all others only enqueue, and then positions are released in order. */
  ghost predicate OneConsumer(s: State) {
    && 0 < |s.threads|
    && (s.threads[0].side.Prod? ==> s.threads[0].Resting())
    && (forall i :: 0 < i < |s.threads| ==> s.threads[i].side.Prod?)
    && s.cons.head.pos == s.cons.head.count
  }

  predicate Allowed(a: Action) {
    match a
    case BeginEnqueue(i, _) => i > 0
    case BeginDequeue(i) => i == 0
    case Run(_) => true
  }

  /** The only consumer publishes exactly its own position. */
  lemma ReleaseInOrder(c: Config, s: State, i: nat)
    requires c.Valid() && ProtocolOk(c, s) && OneConsumer(s) && i < |s.threads|
    requires s.threads[i].side.Cons? && Publishes(s, i)
    ensures var CommitCas(e, oh, t) := s.threads[i].phase;
            e == s.cons.head.pos && NewHead(oh, t) == Marker(e + 1, e + 1)
  {
    var CommitCas(e, oh, t) := s.threads[i].phase;
    assert LocalOk(c, s.cons, s.threads[i]);
    InFlightRange(c, s, i);
    HoldersCount(c, s, Cons);
    SubsetSize(Holders(s, Cons), {0});
    assert s.cons.tail.pos <= s.cons.head.count + 1;
  }

  lemma OneConsumerStep(c: Config, s: State, a: Action)
    requires c.Valid() && ProtocolOk(c, s) && OneConsumer(s) && Allowed(a)
    ensures OneConsumer(Apply(c, s, a))
  {
    if a.Run? && a.i < |s.threads| {
      if Reserves(s, a.i) {
        ReserveFrame(c, s, a.i);
      } else if Publishes(s, a.i) {
        PublishFrame(c, s, a.i);
        if s.threads[a.i].side.Cons? { ReleaseInOrder(c, s, a.i); }
      } else {
        QuietFrame(c, s, a.i);
        if s.threads[a.i].Resting() { QuietRest(c, s, a.i); }
      }
    }
  }

  lemma QuietRest(c: Config, s: State, i: nat)
    requires c.Valid() && i < |s.threads| && s.threads[i].Resting()
    ensures Step(c, s, i) == s
  {
  }

  /* ---------------------------------------------------------------- what a step changes */

  /** The thread is enqueueing and has not got an entry yet. */
  predicate Sends(th: Thread) { th.side.Prod? && th.Pending() }

  /** The step is turned down because no entry is free. */
  predicate Refuses(c: Config, s: State, i: nat)
    requires i < |s.threads|
  {
    s.threads[i].side.Prod? && s.threads[i].phase.Check? && Blocked(c, s, Prod, s.threads[i].phase.ot)
  }

  /** A step that neither takes an item in, nor hands one out, nor gives one back. */
  lemma QuietUse(c: Config, s: State, i: nat)
    requires c.Valid() && i < |s.threads| && !Reserves(s, i) && !Publishes(s, i) && !Refuses(c, s, i)
    ensures var s' := Step(c, s, i); var th, th' := s.threads[i], s'.threads[i];
            && s'.log == s.log && s'.cons == s.cons && s'.threads == s.threads[i := th']
            && Sends(th') == Sends(th) && (Sends(th) ==> th'.item == th.item)
  {
  }

  /** A reservation by a producer appends its item. */
  lemma TakeIn(c: Config, s: State, i: nat)
    requires c.Valid() && c.w == 0 && Inv(c, s) && i < |s.threads| && s.threads[i].side.Prod? && Reserves(s, i)
    ensures var s' := Step(c, s, i);
            && s'.log == s.log + [s.threads[i].item] && s'.cons == s.cons
            && s'.threads == s.threads[i := s'.threads[i]] && !Sends(s'.threads[i])
  {
    StepCases(c, s, i);
  }

  /** The commit of the consumer hands out the oldest item. */
  lemma HandOut(c: Config, s: State, i: nat)
    requires c.Valid() && Inv(c, s) && OneConsumer(s) && i < |s.threads| && s.threads[i].side.Cons? && Publishes(s, i)
    ensures var s' := Step(c, s, i); var e := s.cons.head.pos;
            && s'.log == s.log && e < |s.log| && s.threads[i].item == s.log[e] && s'.cons.head.pos == e + 1
            && s'.threads == s.threads[i := s'.threads[i]] && !Sends(s'.threads[i])
  {
    StepCases(c, s, i);
    ReadyToPublish(c, s, i);
    PublishConsFrame(c, s, i);
    ReleaseInOrder(c, s, i);
  }

  /** Other successful compare-and-swaps: a consumer reserves, or a producer publishes. */
  lemma OtherSwaps(c: Config, s: State, i: nat)
    requires c.Valid() && i < |s.threads|
    requires (Reserves(s, i) && s.threads[i].side.Cons?) || (Publishes(s, i) && s.threads[i].side.Prod?)
    ensures var s' := Step(c, s, i); var th, th' := s.threads[i], s'.threads[i];
            && s'.log == s.log && s'.cons.head == s.cons.head && s'.threads == s.threads[i := th']
            && !Sends(th) && !Sends(th')
  {
  }

  /* ---------------------------------------------------------------- room */

  /** If the waiting entries carry different ids below c.n, none of them id, there is room. */
  lemma {:induction false} RoomLeft(c: Config, s: State, id: nat)
    requires c.Valid() && ProtocolOk(c, s) && |s.log| == s.prod.tail.pos && id < c.n
    requires forall p: nat :: s.cons.head.pos <= p < |s.log| ==> s.log[p].id < c.n && s.log[p].id != id
    requires forall p: nat, q: nat :: s.cons.head.pos <= p < q < |s.log| ==> s.log[p].id != s.log[q].id
    ensures s.prod.tail.pos < s.cons.head.pos + c.n
  {
    var waiting := UpTo(|s.log|) - UpTo(s.cons.head.pos);
    var ids := map p: nat | p in waiting :: s.log[p].id;
    InjectiveSize(ids);
    assert ids.Keys == waiting;
    SubsetSize(ids.Values, UpTo(c.n) - {id});
    assert UpTo(s.cons.head.pos) <= UpTo(|s.log|);
    assert |waiting| == |s.log| - s.cons.head.pos;
  }
}
