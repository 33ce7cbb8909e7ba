/** What every step of the ring keeps, and hence what holds in every reachable state. */
module RingSafety {
  import opened Finite
  import opened Ring

  /* ---------------------------------------------------------------- the invariant */

  /** The two markers of one side against the set of committed positions. */
  ghost predicate BoundOk(c: Config, b: Bound) {
    && b.tail.pos == b.tail.count
    && b.head.pos <= b.head.count <= b.tail.pos <= b.head.pos + c.h + 1
    && |b.committed| == b.head.count
    && (forall p :: p in b.committed ==> p < b.tail.pos && p !in b.holder)
    && (forall p :: p in b.holder ==> p < b.tail.pos)
    && (forall p: nat :: p < b.head.pos ==> p in b.committed)
    && (forall p: nat :: p < b.tail.pos ==> p in b.committed || p in b.holder)
    && (b.head.count == b.tail.pos ==> b.head.pos == b.tail.pos)
  }

  ghost predicate Holds(th: Thread, side: Side, p: nat) {
    th.side == side && th.InFlight() && th.phase.entry == p
  }

  /** Every reserved and uncommitted position is held by exactly one thread. */
  ghost predicate HoldersOk(b: Bound, ts: seq<Thread>, side: Side) {
    && (forall p :: p in b.holder ==> b.holder[p] < |ts| && Holds(ts[b.holder[p]], side, p))
    && (forall i :: 0 <= i < |ts| && ts[i].side == side && ts[i].InFlight() ==>
          ts[i].phase.entry in b.holder && b.holder[ts[i].phase.entry] == i)
  }

  /** A possibly stale copy of the tail. */
  ghost predicate TailCopy(b: Bound, t: Marker) {
    t.pos == t.count <= b.tail.pos
  }

  /** A possibly stale copy of the head, read by the thread that holds position e. */
  ghost predicate HeadCopy(c: Config, b: Bound, e: nat, oh: Marker, fails: nat) {
    && oh.count <= b.head.count
    && (oh.count == b.head.count ==> oh == b.head)
    && e + fails <= oh.count + c.h
  }

  /** The local variables of a thread against its own side of the queue. */
  ghost predicate LocalOk(c: Config, b: Bound, th: Thread) {
    match th.phase
    case Idle | LoadTail | WaitReload | Refused(_) | Completed(_) => true
    case WaitHead(ot) => TailCopy(b, ot)
    case Check(ot) => TailCopy(b, ot) && ot.pos <= b.head.pos + c.h
    case Cas(ot) => TailCopy(b, ot) && ot.pos <= b.head.pos + c.h
    case Move(e, _) => e <= b.head.pos + c.h && th.fails == 0
    case CommitHead(e) => e <= b.head.pos + c.h && th.fails == 0
    case CommitTail(e, oh) => e <= b.head.pos + c.h && HeadCopy(c, b, e, oh, th.fails)
    case CommitCas(e, oh, t) =>
      && e <= b.head.pos + c.h && HeadCopy(c, b, e, oh, th.fails)
      && TailCopy(b, t) && e < t.pos
      && (oh.count == b.head.count ==> forall q :: q in b.committed ==> q < t.pos)
  }

  ghost predicate LocalsOk(c: Config, b: Bound, ts: seq<Thread>, side: Side) {
    forall i :: 0 <= i < |ts| && ts[i].side == side ==> LocalOk(c, b, ts[i])
  }

  ghost predicate SideOk(c: Config, b: Bound, ts: seq<Thread>, side: Side) {
    BoundOk(c, b) && HoldersOk(b, ts, side) && LocalsOk(c, b, ts, side)
  }

  /** The position that a reservation on this side must stay below. */
  function Limit(c: Config, s: State, side: Side): nat {
    if side.Prod? then s.cons.head.pos + c.n else s.prod.head.pos
  }

  /** Consumers stay behind producers, and producers at most n ahead of consumers. */
  ghost predicate FlowOk(c: Config, s: State) {
    && s.prod.tail.pos <= Limit(c, s, Prod)
    && s.cons.tail.pos <= Limit(c, s, Cons)
    && (forall i :: 0 <= i < |s.threads| && s.threads[i].phase.Cas? ==>
          s.threads[i].phase.ot.pos < Limit(c, s, s.threads[i].side))
  }

  /** Everything about markers and threads; the contents of the ring follow in DataOk. */
  ghost predicate ProtocolOk(c: Config, s: State) {
    SideOk(c, s.prod, s.threads, Prod) && SideOk(c, s.cons, s.threads, Cons) && FlowOk(c, s)
  }

  /* ---------------------------------------------------------------- protocol steps */

  /** A step that changes only the phase of thread i, and not what it holds. */
  lemma LocalStep(c: Config, b: Bound, ts: seq<Thread>, side: Side, i: nat, th: Thread)
    requires i < |ts| && SideOk(c, b, ts, side) && th.side == ts[i].side
    requires ts[i].InFlight() == th.InFlight()
    requires th.InFlight() ==> th.phase.entry == ts[i].phase.entry
    requires th.side == side ==> LocalOk(c, b, th)
    ensures SideOk(c, b, ts[i := th], side)
  {
    var ts' := ts[i := th];
    forall p | p in b.holder ensures b.holder[p] < |ts'| && Holds(ts'[b.holder[p]], side, p) {
      assert Holds(ts[b.holder[p]], side, p);
    }
  }

  function Reserved(b: Bound, i: nat): Bound {
    b.(tail := Marker(b.tail.pos + 1, b.tail.count + 1), holder := b.holder[b.tail.pos := i])
  }

  /** A successful CAS on the tail. */
  lemma ReserveStep(c: Config, b: Bound, ts: seq<Thread>, side: Side, i: nat, th: Thread)
    requires i < |ts| && SideOk(c, b, ts, side)
    requires ts[i].side == side && ts[i].phase == Cas(b.tail)
    requires th.side == side && th.phase == Move(b.tail.pos, 0) && th.fails == 0
    ensures SideOk(c, Reserved(b, i), ts[i := th], side)
  {
    var ts' := ts[i := th];
    var b' := Reserved(b, i);
    assert LocalOk(c, b, ts[i]);
    forall p | p in b'.holder ensures b'.holder[p] < |ts'| && Holds(ts'[b'.holder[p]], side, p) {
      assert p != b.tail.pos ==> Holds(ts[b.holder[p]], side, p);
    }
    forall j | 0 <= j < |ts'| && ts'[j].side == side ensures LocalOk(c, b', ts'[j]) {
      assert j != i ==> LocalOk(c, b, ts[j]);
    }
  }

  function Published(b: Bound, e: nat, oh: Marker, t: Marker): Bound {
    b.(head := NewHead(oh, t), committed := b.committed + {e}, holder := b.holder - {e})
  }

  /** The heart of the commit: if the counts meet, everything below t is committed, and if
      everything reserved is committed, the counts do meet. */
  lemma PublishBound(c: Config, b: Bound, e: nat, t: Marker)
    requires BoundOk(c, b) && e in b.holder
    requires TailCopy(b, t) && e < t.pos
    requires forall q :: q in b.committed ==> q < t.pos
    ensures BoundOk(c, Published(b, e, b.head, t))
    ensures b.head.pos <= Published(b, e, b.head, t).head.pos
  {
    var b' := Published(b, e, b.head, t);
    assert |b'.committed| == |b.committed| + 1;
    FillsUp(b'.committed, t.pos);
    FillsUp(UpTo(b.head.pos), t.pos);
  }

  lemma PublishStep(c: Config, b: Bound, ts: seq<Thread>, side: Side, i: nat, th: Thread)
    requires i < |ts| && SideOk(c, b, ts, side)
    requires ts[i].side == side && ts[i].phase.CommitCas? && ts[i].phase.oh == b.head
    requires th.side == side && th.phase == Completed(ts[i].phase.entry)
    ensures SideOk(c, Published(b, ts[i].phase.entry, b.head, ts[i].phase.t), ts[i := th], side)
    ensures b.head.pos <= Published(b, ts[i].phase.entry, b.head, ts[i].phase.t).head.pos
  {
    var CommitCas(e, oh, t) := ts[i].phase;
    var ts' := ts[i := th];
    var b' := Published(b, e, b.head, t);
    assert LocalOk(c, b, ts[i]);
    PublishBound(c, b, e, t);
    forall p | p in b'.holder ensures b'.holder[p] < |ts'| && Holds(ts'[b'.holder[p]], side, p) {
      assert Holds(ts[b.holder[p]], side, p);
    }
    forall j | 0 <= j < |ts'| && ts'[j].side == side ensures LocalOk(c, b', ts'[j]) {
      assert j != i ==> LocalOk(c, b, ts[j]);
    }
  }

  /** Changing an idle thread into a starting one, whatever its old and new side. */
  lemma BeginStep(c: Config, b: Bound, ts: seq<Thread>, side: Side, i: nat, th: Thread)
    requires i < |ts| && SideOk(c, b, ts, side)
    requires ts[i].Resting() && th.phase.LoadTail?
    ensures SideOk(c, b, ts[i := th], side)
  {
    var ts' := ts[i := th];
    forall p | p in b.holder ensures b.holder[p] < |ts'| && Holds(ts'[b.holder[p]], side, p) {
      assert Holds(ts[b.holder[p]], side, p);
    }
  }

  lemma ProtocolInit(c: Config, threads: nat)
    requires c.Valid()
    ensures ProtocolOk(c, Init(c, threads))
  {
  }

  /** Thread i is about to reserve or publish a position. */
  predicate Reserves(s: State, i: nat)
    requires i < |s.threads|
  {
    s.threads[i].phase.Cas? && s.Of(s.threads[i].side).tail == s.threads[i].phase.ot
  }

  predicate Publishes(s: State, i: nat)
    requires i < |s.threads|
  {
    s.threads[i].phase.CommitCas? && s.Of(s.threads[i].side).head == s.threads[i].phase.oh
  }

  /** A step other than a successful CAS moves neither marker and drops no held position. */
  lemma QuietFrame(c: Config, s: State, i: nat)
    requires c.Valid() && i < |s.threads|
    requires !Reserves(s, i) && !Publishes(s, i)
    ensures var s' := Step(c, s, i); var th, th' := s.threads[i], s'.threads[i];
            && s'.prod == s.prod && s'.cons == s.cons && s'.threads == s.threads[i := th']
            && s'.log == s.log && s'.out == s.out
            && th'.side == th.side && th'.InFlight() == th.InFlight()
            && (th.InFlight() ==> th'.phase.entry == th.phase.entry)
  {
  }

  lemma QuietLocal(c: Config, s: State, i: nat)
    requires c.Valid() && ProtocolOk(c, s) && i < |s.threads|
    requires !Reserves(s, i) && !Publishes(s, i)
    ensures LocalOk(c, s.Of(s.threads[i].side), Step(c, s, i).threads[i])
  {
    var th := s.threads[i];
    var b := s.Of(th.side);
    assert LocalOk(c, b, th);
    assert SideOk(c, b, s.threads, th.side);
    if th.InFlight() {
      assert th.phase.entry in b.holder;
    }
  }

  lemma FlowStep(c: Config, s: State, s': State, i: nat)
    requires i < |s.threads| == |s'.threads| && FlowOk(c, s)
    requires s'.threads == s.threads[i := s'.threads[i]]
    requires forall side :: Limit(c, s, side) <= Limit(c, s', side)
    requires s'.prod.tail.pos <= Limit(c, s', Prod) && s'.cons.tail.pos <= Limit(c, s', Cons)
    requires s'.threads[i].phase.Cas? ==> s'.threads[i].phase.ot.pos < Limit(c, s', s'.threads[i].side)
    ensures FlowOk(c, s')
  {
  }

  lemma QuietKeeps(c: Config, s: State, i: nat)
    requires c.Valid() && ProtocolOk(c, s) && i < |s.threads|
    requires !Reserves(s, i) && !Publishes(s, i)
    ensures ProtocolOk(c, Step(c, s, i))
  {
    hide HoldersOk, BoundOk;
    var s' := Step(c, s, i);
    QuietFrame(c, s, i);
    QuietLocal(c, s, i);
    assert LocalOk(c, s.Of(s.threads[i].side), s.threads[i]);
    LocalStep(c, s.prod, s.threads, Prod, i, s'.threads[i]);
    LocalStep(c, s.cons, s.threads, Cons, i, s'.threads[i]);
    FlowStep(c, s, s', i);
  }

  /** A reservation or publication on one side is invisible to the holders on the other. */
  lemma OtherSide(c: Config, b: Bound, ts: seq<Thread>, side: Side, i: nat, th: Thread)
    requires i < |ts| && SideOk(c, b, ts, side) && ts[i].side != side && th.side != side
    ensures SideOk(c, b, ts[i := th], side)
  {
    var ts' := ts[i := th];
    forall p | p in b.holder ensures b.holder[p] < |ts'| && Holds(ts'[b.holder[p]], side, p) {
      assert Holds(ts[b.holder[p]], side, p);
    }
  }

  function Other(side: Side): Side { if side.Prod? then Cons else Prod }

  /** A step of thread i that moves a marker on its own side only. */
  lemma OneSide(c: Config, s: State, s': State, i: nat)
    requires i < |s.threads| == |s'.threads| && ProtocolOk(c, s) && FlowOk(c, s')
    requires s'.threads == s.threads[i := s'.threads[i]] && s'.threads[i].side == s.threads[i].side
    requires s'.Of(Other(s.threads[i].side)) == s.Of(Other(s.threads[i].side))
    requires SideOk(c, s'.Of(s.threads[i].side), s'.threads, s.threads[i].side)
    ensures ProtocolOk(c, s')
  {
    var other := Other(s.threads[i].side);
    OtherSide(c, s.Of(other), s.threads, other, i, s'.threads[i]);
  }

  lemma ReserveFrame(c: Config, s: State, i: nat)
    requires c.Valid() && i < |s.threads| && Reserves(s, i)
    ensures var s' := Step(c, s, i); var th, th' := s.threads[i], s'.threads[i]; var b := s.Of(th.side);
            && s'.threads == s.threads[i := th'] && th'.side == th.side
            && th'.phase == Move(b.tail.pos, 0) && th'.fails == 0
            && s'.Of(th.side) == Reserved(b, i) && s'.Of(Other(th.side)) == s.Of(Other(th.side))
  {
  }

  lemma PublishFrame(c: Config, s: State, i: nat)
    requires c.Valid() && i < |s.threads| && Publishes(s, i)
    ensures var s' := Step(c, s, i); var th, th' := s.threads[i], s'.threads[i]; var b := s.Of(th.side);
            && s'.threads == s.threads[i := th'] && th'.side == th.side
            && th'.phase == Completed(th.phase.entry)
            && s'.Of(th.side) == Published(b, th.phase.entry, b.head, th.phase.t)
            && s'.Of(Other(th.side)) == s.Of(Other(th.side))
  {
  }

  /** A reservation stays below the limit, and publishing only raises the limit of the other side. */
  lemma FlowForward(c: Config, s: State, s': State, i: nat)
    requires i < |s.threads| == |s'.threads| && FlowOk(c, s)
    requires s'.threads == s.threads[i := s'.threads[i]] && !s'.threads[i].phase.Cas?
    requires var side := s.threads[i].side; var b, b' := s.Of(side), s'.Of(side);
             && s'.Of(Other(side)) == s.Of(Other(side)) && b.head.pos <= b'.head.pos
             && (b'.tail.pos == b.tail.pos || b'.tail.pos <= Limit(c, s, side))
    ensures FlowOk(c, s')
  {
  }

  lemma ReserveKeeps(c: Config, s: State, i: nat)
    requires c.Valid() && ProtocolOk(c, s) && i < |s.threads| && Reserves(s, i)
    ensures ProtocolOk(c, Step(c, s, i))
  {
    var s' := Step(c, s, i);
    ReserveFrame(c, s, i);
    ReserveStep(c, s.Of(s.threads[i].side), s.threads, s.threads[i].side, i, s'.threads[i]);
    FlowForward(c, s, s', i);
    OneSide(c, s, s', i);
  }

  lemma PublishKeeps(c: Config, s: State, i: nat)
    requires c.Valid() && ProtocolOk(c, s) && i < |s.threads| && Publishes(s, i)
    ensures ProtocolOk(c, Step(c, s, i))
  {
    var s' := Step(c, s, i);
    PublishFrame(c, s, i);
    PublishStep(c, s.Of(s.threads[i].side), s.threads, s.threads[i].side, i, s'.threads[i]);
    FlowForward(c, s, s', i);
    OneSide(c, s, s', i);
  }

  lemma ProtocolStep(c: Config, s: State, a: Action)
    requires c.Valid() && ProtocolOk(c, s)
    ensures ProtocolOk(c, Apply(c, s, a))
  {
    match a
    case BeginEnqueue(i, item) =>
      if i < |s.threads| && s.threads[i].Resting() {
        BeginStep(c, s.prod, s.threads, Prod, i, Thread(Prod, LoadTail, item, 0));
        BeginStep(c, s.cons, s.threads, Cons, i, Thread(Prod, LoadTail, item, 0));
      }
    case BeginDequeue(i) =>
      if i < |s.threads| && s.threads[i].Resting() {
        BeginStep(c, s.prod, s.threads, Prod, i, Thread(Cons, LoadTail, Item(0, []), 0));
        BeginStep(c, s.cons, s.threads, Cons, i, Thread(Cons, LoadTail, Item(0, []), 0));
      }
    case Run(i) =>
      if i < |s.threads| {
        if Reserves(s, i) { ReserveKeeps(c, s, i); }
        else if Publishes(s, i) { PublishKeeps(c, s, i); }
        else { QuietKeeps(c, s, i); }
      }
  }
}
