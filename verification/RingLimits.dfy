/**
 What the ring of install/include/mercury_atomic_queue.h does not promise, shown
 by concrete runs, and the undisturbed calls those runs are made of.
 */
module RingLimits {
  import opened Masking
  import opened AtomicQueue

  // ------------------------------------------------------- undisturbed calls

  /** Only threads that have not claimed anything are inside a call. */
  ghost predicate Settled(s: State)
  {
    && Masked(s)
    && s.tick.prodTail == s.tick.prodHead
    && s.tick.consTail == s.tick.consHead
    && s.tick.consHead <= s.tick.prodTail <= s.tick.consHead + s.ring.mask
  }

  /** The ring after a slot was claimed for `e`, after it was filled, and after it was published. */
  function Claimed(s: State, e: Entry): State
  {
    s.(ring := s.ring.(prodHead := (s.tick.prodHead + 1) % Size(s)),
       tick := s.tick.(prodHead := s.tick.prodHead + 1, log := s.tick.log + [e]))
  }

  function Stored(s: State, e: Entry): State
  {
    var s', h := Claimed(s, e), s.ring.prodHead;
    s'.(ring := s'.ring.(slots := if h < |s.ring.slots| then s.ring.slots[h := e] else s.ring.slots))
  }

  function Published(s: State, e: Entry): State
  {
    var s' := Stored(s, e);
    s'.(ring := s'.ring.(prodTail := (s.tick.prodTail + 1) % Size(s)), tick := s'.tick.(prodTail := s.tick.prodTail + 1))
  }

  /** The ring after its oldest entry was claimed, and after it was released. */
  function Took(s: State): State
  {
    s.(ring := s.ring.(consHead := (s.tick.consHead + 1) % Size(s)), tick := s.tick.(consHead := s.tick.consHead + 1))
  }

  function Freed(s: State, e: Entry): State
  {
    var s' := Took(s);
    s'.(ring := s'.ring.(consTail := (s.tick.consTail + 1) % Size(s)),
        tick := s'.tick.(consTail := s.tick.consTail + 1, returned := s.tick.returned + [e]))
  }

  /** With room, an undisturbed producer claims the next slot. */
  lemma ClaimSteps(s: State, tid: Tid, e: Entry)
    requires Settled(s) && Outstanding(s) < s.ring.mask
    ensures var h, t := s.ring.prodHead, s.tick.prodHead;
            && Step(Goto(s, tid, PushReadHead(e)), tid) == Goto(s, tid, PushReadTail(e, h, t))
            && Step(Goto(s, tid, PushReadTail(e, h, t)), tid) == Goto(s, tid, PushCas(e, h, t))
            && Step(Goto(s, tid, PushCas(e, h, t)), tid) == Goto(Claimed(s, e), tid, PushStore(e, h, t))
  {
    NextResidue(s, s.tick.prodHead);
    DifferentSlots(s.tick.consTail, s.tick.prodHead + 1, Size(s));
  }

  lemma FillSteps(s: State, tid: Tid, e: Entry)
    requires Settled(s)
    ensures var h, t := s.ring.prodHead, s.tick.prodHead;
            && Step(Goto(Claimed(s, e), tid, PushStore(e, h, t)), tid) == Goto(Stored(s, e), tid, PushAwait(e, h, t))
            && Step(Goto(Stored(s, e), tid, PushAwait(e, h, t)), tid) == Goto(Stored(s, e), tid, PushPublish(e, h, t))
            && Step(Goto(Stored(s, e), tid, PushPublish(e, h, t)), tid) == Goto(Published(s, e), tid, PushOk(e, t))
  {
    NextResidue(s, s.tick.prodHead);
  }

  /** With a published entry, an undisturbed consumer claims it. */
  lemma TakeSteps(s: State, tid: Tid)
    requires Settled(s) && s.tick.consHead < s.tick.prodTail
    ensures var h, t := s.ring.consHead, s.tick.consHead;
            && Step(Goto(s, tid, PopReadHead), tid) == Goto(s, tid, PopReadTail(h, t))
            && Step(Goto(s, tid, PopReadTail(h, t)), tid) == Goto(s, tid, PopCas(h, t))
            && Step(Goto(s, tid, PopCas(h, t)), tid) == Goto(Took(s), tid, PopLoad(h, t))
  {
    NextResidue(s, s.tick.consHead);
    DifferentSlots(s.tick.consHead, s.tick.prodTail, Size(s));
  }

  function Oldest(s: State): Entry
    requires s.ring.consHead < |s.ring.slots|
  {
    s.ring.slots[s.ring.consHead]
  }

  lemma FreeSteps(s: State, tid: Tid)
    requires Settled(s)
    ensures var h, t, e := s.ring.consHead, s.tick.consHead, Oldest(s);
            && Step(Goto(Took(s), tid, PopLoad(h, t)), tid) == Goto(Took(s), tid, PopAwait(h, t, e))
            && Step(Goto(Took(s), tid, PopAwait(h, t, e)), tid) == Goto(Took(s), tid, PopPublish(h, t, e))
            && Step(Goto(Took(s), tid, PopPublish(h, t, e)), tid) == Goto(Freed(s, e), tid, PopGot(t, e))
  {
    NextResidue(s, s.tick.consHead);
  }

  lemma PublishedSettled(s: State, e: Entry)
    requires Settled(s) && Outstanding(s) < s.ring.mask
    ensures Settled(Published(s, e))
  {
  }

  lemma FreedSettled(s: State, e: Entry)
    requires Settled(s) && s.tick.consHead < s.tick.prodTail
    ensures Settled(Freed(s, e))
  {
  }

  function Fresh(mask: nat, e: Entry): State
  {
    State(Ring(mask, 0, 0, 0, 0, seq(mask + 1, _ => e), 0), Tickets(0, 0, 0, 0, [], []), map[])
  }

  lemma FreshSettled(mask: nat, e: Entry)
    requires IsPow2(mask + 1)
    ensures Init(Fresh(mask, e)) && Settled(Fresh(mask, e))
  {
  }

  // ------------------------------------------------------------- reachability

  /** Reached by any run; by one in which no head is lapped; by one in which moreover consumer 0 called and has not found the FIFO empty since. */
  datatype Kind = Any | Unlapped | Calling

  ghost predicate Good(states: seq<State>, call: nat, kind: Kind)
  {
    && (kind != Any ==> NeverLapped(states))
    && (kind == Calling ==>
          && call < |states| && states[call].pcs == map[0 := PopReadHead]
          && forall k :: call <= k < |states| ==> states[k].tick.consHead < states[k].tick.prodTail)
  }

  ghost predicate Reached(s: State, kind: Kind)
  {
    exists states, acts, call :: Run(states, acts) && Good(states, call, kind) && states[|acts|] == s
  }

  ghost predicate StateGood(s: State, kind: Kind)
  {
    (kind != Any ==> NoLap(s)) && (kind == Calling ==> s.tick.consHead < s.tick.prodTail)
  }

  lemma Start(s: State)
    requires Init(s)
    ensures Reached(s, Any) && Reached(s, Unlapped)
  {
    var states, acts: seq<Action> := [s], [];
    assert Run(states, acts) && Good(states, 0, Any) && Good(states, 0, Unlapped);
  }

  lemma RunOn(states: seq<State>, acts: seq<Action>, a: Action, s': State)
    requires Run(states, acts) && Enabled(states[|acts|], a) && Apply(states[|acts|], a) == s'
    ensures Run(states + [s'], acts + [a])
  {
    var states', acts' := states + [s'], acts + [a];
    forall i | 0 <= i < |acts'|
      ensures Enabled(states'[i], acts'[i]) && states'[i + 1] == Apply(states'[i], acts'[i])
    {
      if i < |acts| {
        assert states[i + 1] == Apply(states[i], acts[i]);
      }
    }
  }

  lemma StillGood(states: seq<State>, call: nat, kind: Kind, s': State)
    requires Good(states, call, kind) && StateGood(s', kind)
    ensures Good(states + [s'], call, kind)
  {
  }

  lemma Go(s: State, a: Action, s': State, kind: Kind)
    requires Reached(s, kind) && Enabled(s, a) && Apply(s, a) == s' && StateGood(s', kind)
    ensures Reached(s', kind)
  {
    var states, acts, call :| Run(states, acts) && Good(states, call, kind) && states[|acts|] == s;
    RunOn(states, acts, a, s');
    StillGood(states, call, kind, s');
    assert (states + [s'])[|acts + [a]|] == s';
  }

  /** Consumer 0 calls. */
  lemma Call(s: State)
    requires Reached(s, Unlapped) && s.pcs == map[] && s.tick.consHead < s.tick.prodTail
    ensures Reached(Goto(s, 0, PopReadHead), Calling)
  {
    var states, acts, call :| Run(states, acts) && Good(states, call, Unlapped) && states[|acts|] == s;
    var s' := Goto(s, 0, PopReadHead);
    assert s'.pcs == map[0 := PopReadHead];
    RunOn(states, acts, DoPop(0), s');
    StillGood(states, call, Unlapped, s');
    assert Good(states + [s'], |acts + [DoPop(0)]|, Calling);
    assert (states + [s'])[|acts + [DoPop(0)]|] == s';
  }

  /** The other threads are not lapped when each index advances once. */
  ghost predicate OthersSafe(s: State, kind: Kind)
  {
    kind != Any ==> forall a :: a in s.pcs ==>
      !HoldsProdHead(s.pcs[a]) && (HoldsConsHead(s.pcs[a]) ==> s.tick.consHead + 1 < s.pcs[a].t + Size(s))
  }

  /** `s` is `s0` with at most one more entry claimed, and `pc` holds the current tickets. */
  ghost predicate Near(s0: State, s: State, pc: Pc, kind: Kind)
  {
    && OthersSafe(s0, kind) && s.pcs == s0.pcs && s.ring.mask == s0.ring.mask && s.tick.consHead <= s0.tick.consHead + 1
    && (HoldsProdHead(pc) ==> pc.t == s.tick.prodHead) && (HoldsConsHead(pc) ==> pc.t == s.tick.consHead)
    && (kind == Calling ==> s.tick.consHead < s.tick.prodTail)
  }

  lemma NearGood(s0: State, s: State, tid: Tid, pc: Pc, kind: Kind)
    requires Near(s0, s, pc, kind)
    ensures StateGood(Goto(s, tid, pc), kind) && StateGood(s, kind)
  {
  }

  /** A call begins, makes a step, and ends. */
  lemma Begin(s: State, a: Action, tid: Tid, pc: Pc, kind: Kind)
    requires Reached(s, kind) && tid !in s.pcs && Near(s, s, pc, kind)
    requires (pc.PushReadHead? && a == DoPush(tid, pc.e)) || (pc.PopReadHead? && a == DoPop(tid))
    ensures Reached(Goto(s, tid, pc), kind)
  {
    NearGood(s, s, tid, pc, kind);
    Go(s, a, Goto(s, tid, pc), kind);
  }

  lemma Hop(s0: State, s: State, tid: Tid, pc: Pc, s': State, pc': Pc, kind: Kind)
    requires Reached(Goto(s, tid, pc), kind) && Step(Goto(s, tid, pc), tid) == Goto(s', tid, pc') && Near(s0, s', pc', kind)
    ensures Reached(Goto(s', tid, pc'), kind)
  {
    NearGood(s0, s', tid, pc', kind);
    Go(Goto(s, tid, pc), DoStep(tid), Goto(s', tid, pc'), kind);
  }

  lemma End(s0: State, s: State, tid: Tid, pc: Pc, kind: Kind)
    requires Reached(Goto(s, tid, pc), kind) && Finished(pc) && tid !in s.pcs && Near(s0, s, pc, kind)
    ensures Reached(s, kind)
  {
    assert s.pcs[tid := pc] - {tid} == s.pcs;
    NearGood(s0, s, tid, pc, kind);
    Go(Goto(s, tid, pc), DoReturn(tid), s, kind);
  }

  lemma ReadBeside(s: State, tid: Tid, e: Entry, kind: Kind)
    requires Reached(s, kind) && Settled(s) && tid !in s.pcs && Outstanding(s) < s.ring.mask && OthersSafe(s, kind)
    requires kind == Calling ==> s.tick.consHead < s.tick.prodTail
    ensures Reached(Goto(s, tid, PushCas(e, s.ring.prodHead, s.tick.prodHead)), kind)
  {
    var h, t := s.ring.prodHead, s.tick.prodHead;
    Begin(s, DoPush(tid, e), tid, PushReadHead(e), kind);
    ClaimSteps(s, tid, e);
    Hop(s, s, tid, PushReadHead(e), s, PushReadTail(e, h, t), kind);
    Hop(s, s, tid, PushReadTail(e, h, t), s, PushCas(e, h, t), kind);
  }

  lemma ClaimBeside(s: State, tid: Tid, e: Entry, kind: Kind)
    requires Reached(s, kind) && Settled(s) && tid !in s.pcs && Outstanding(s) < s.ring.mask && OthersSafe(s, kind)
    requires kind == Calling ==> s.tick.consHead < s.tick.prodTail
    ensures Reached(Goto(Claimed(s, e), tid, PushStore(e, s.ring.prodHead, s.tick.prodHead)), kind)
  {
    var h, t := s.ring.prodHead, s.tick.prodHead;
    ReadBeside(s, tid, e, kind);
    ClaimSteps(s, tid, e);
    Hop(s, s, tid, PushCas(e, h, t), Claimed(s, e), PushStore(e, h, t), kind);
  }

  lemma PublishBeside(s: State, tid: Tid, e: Entry, kind: Kind)
    requires Reached(Goto(Claimed(s, e), tid, PushStore(e, s.ring.prodHead, s.tick.prodHead)), kind)
    requires Settled(s) && tid !in s.pcs && OthersSafe(s, kind) && (kind == Calling ==> s.tick.consHead < s.tick.prodTail)
    ensures Reached(Published(s, e), kind)
  {
    var h, t := s.ring.prodHead, s.tick.prodHead;
    FillSteps(s, tid, e);
    Hop(s, Claimed(s, e), tid, PushStore(e, h, t), Stored(s, e), PushAwait(e, h, t), kind);
    Hop(s, Stored(s, e), tid, PushAwait(e, h, t), Stored(s, e), PushPublish(e, h, t), kind);
    Hop(s, Stored(s, e), tid, PushPublish(e, h, t), Published(s, e), PushOk(e, t), kind);
    End(s, Published(s, e), tid, PushOk(e, t), kind);
  }

  lemma PushBeside(s: State, tid: Tid, e: Entry, kind: Kind)
    requires Reached(s, kind) && Settled(s) && tid !in s.pcs && Outstanding(s) < s.ring.mask && OthersSafe(s, kind)
    requires kind == Calling ==> s.tick.consHead < s.tick.prodTail
    ensures Reached(Published(s, e), kind)
  {
    ClaimBeside(s, tid, e, kind);
    PublishBeside(s, tid, e, kind);
  }

  lemma LookBeside(s: State, tid: Tid, kind: Kind)
    requires Reached(s, kind) && Settled(s) && tid !in s.pcs && OthersSafe(s, kind) && s.tick.consHead < s.tick.prodTail
    ensures Reached(Goto(s, tid, PopCas(s.ring.consHead, s.tick.consHead)), kind)
  {
    var h, t := s.ring.consHead, s.tick.consHead;
    Begin(s, DoPop(tid), tid, PopReadHead, kind);
    TakeSteps(s, tid);
    Hop(s, s, tid, PopReadHead, s, PopReadTail(h, t), kind);
    Hop(s, s, tid, PopReadTail(h, t), s, PopCas(h, t), kind);
  }

  lemma TakeBeside(s: State, tid: Tid, kind: Kind)
    requires Reached(s, kind) && Settled(s) && tid !in s.pcs && OthersSafe(s, kind)
    requires s.tick.consHead < s.tick.prodTail && (kind == Calling ==> s.tick.consHead + 1 < s.tick.prodTail)
    ensures Reached(Goto(Took(s), tid, PopLoad(s.ring.consHead, s.tick.consHead)), kind)
  {
    var h, t := s.ring.consHead, s.tick.consHead;
    LookBeside(s, tid, kind);
    TakeSteps(s, tid);
    Hop(s, s, tid, PopCas(h, t), Took(s), PopLoad(h, t), kind);
  }

  lemma GotBeside(s: State, tid: Tid, kind: Kind)
    requires Reached(Goto(Took(s), tid, PopLoad(s.ring.consHead, s.tick.consHead)), kind)
    requires Settled(s) && tid !in s.pcs && OthersSafe(s, kind) && (kind == Calling ==> s.tick.consHead + 1 < s.tick.prodTail)
    ensures Reached(Goto(Freed(s, Oldest(s)), tid, PopGot(s.tick.consHead, Oldest(s))), kind)
  {
    var h, t, e := s.ring.consHead, s.tick.consHead, Oldest(s);
    FreeSteps(s, tid);
    Hop(s, Took(s), tid, PopLoad(h, t), Took(s), PopAwait(h, t, e), kind);
    Hop(s, Took(s), tid, PopAwait(h, t, e), Took(s), PopPublish(h, t, e), kind);
    Hop(s, Took(s), tid, PopPublish(h, t, e), Freed(s, e), PopGot(t, e), kind);
  }

  lemma FreeBeside(s: State, tid: Tid, kind: Kind)
    requires Reached(Goto(Took(s), tid, PopLoad(s.ring.consHead, s.tick.consHead)), kind)
    requires Settled(s) && tid !in s.pcs && OthersSafe(s, kind) && (kind == Calling ==> s.tick.consHead + 1 < s.tick.prodTail)
    ensures Reached(Freed(s, Oldest(s)), kind)
  {
    GotBeside(s, tid, kind);
    FreedNear(s, s.tick.consHead, Oldest(s), kind);
    End(s, Freed(s, Oldest(s)), tid, PopGot(s.tick.consHead, Oldest(s)), kind);
  }

  lemma FreedNear(s: State, t: nat, e: Entry, kind: Kind)
    requires OthersSafe(s, kind) && (kind == Calling ==> s.tick.consHead + 1 < s.tick.prodTail)
    ensures Near(s, Freed(s, e), PopGot(t, e), kind)
  {
  }

  lemma PopBeside(s: State, tid: Tid, kind: Kind)
    requires Reached(s, kind) && Settled(s) && tid !in s.pcs && OthersSafe(s, kind)
    requires s.tick.consHead < s.tick.prodTail && (kind == Calling ==> s.tick.consHead + 1 < s.tick.prodTail)
    ensures Reached(Freed(s, Oldest(s)), kind)
  {
    TakeBeside(s, tid, kind);
    FreeBeside(s, tid, kind);
  }

  // ------------------------------------------------------------ a lapped producer

  /** Producer 0 has read its indices on an empty ring of size 2 and stopped before its compare-and-swap. */
  lemma StoppedProducer(x: Entry) returns (s: State)
    ensures Reached(s, Any) && Settled(s) && s.ring.mask == 1
    ensures s.pcs == map[0 := PushCas(x, 0, 0)] && s.tick.prodTail == 0 && s.tick.consHead == 0
  {
    assert Pow2(1) == 2;
    var s0 := Fresh(1, x);
    FreshSettled(1, x);
    Start(s0);
    ReadBeside(s0, 0, x, Any);
    s := Goto(s0, 0, PushCas(x, 0, 0));
  }

  /** Thread 1 pushes, pops and pushes: prod_head is back at the masked value producer 0 read. */
  lemma LappedProducer(x: Entry, y: Entry, z: Entry) returns (s: State)
    ensures Reached(s, Any) && Settled(s) && s.ring.mask == 1
    ensures s.pcs == map[0 := PushCas(x, 0, 0)] && s.tick.prodTail == 2 && s.tick.consHead == 1
  {
    s := StoppedProducer(x);
    PushBeside(s, 1, y, Any);
    PublishedSettled(s, y);
    s := Published(s, y);
    PopBeside(s, 1, Any);
    FreedSettled(s, Oldest(s));
    s := Freed(s, Oldest(s));
    PushBeside(s, 1, z, Any);
    PublishedSettled(s, z);
    s := Published(s, z);
  }

  lemma ClaimsFullRing(s: State, x: Entry)
    requires Settled(s) && s.ring.mask == 1 && s.tick.prodTail == 2
    ensures Step(Goto(s, 0, PushCas(x, 0, 0)), 0) == Goto(Claimed(s, x), 0, PushStore(x, 0, 2))
  {
    NextResidue(s, 2);
  }

  lemma FullRingClaimed(x: Entry, y: Entry, z: Entry) returns (s: State)
    ensures Reached(Goto(Claimed(s, x), 0, PushStore(x, s.ring.prodHead, s.tick.prodHead)), Any)
    ensures Settled(s) && s.ring.mask == 1 && s.pcs == map[] && s.tick.prodTail == 2 && s.tick.consHead == 1
  {
    var s1 := LappedProducer(x, y, z);
    s := s1.(pcs := map[]);
    assert s1 == Goto(s, 0, PushCas(x, 0, 0));
    ClaimsFullRing(s, x);
    Hop(s, s, 0, PushCas(x, 0, 0), Claimed(s, x), PushStore(x, 0, 2), Any);
  }

  lemma FullRingPublished(x: Entry, y: Entry, z: Entry) returns (s: State)
    ensures Reached(s, Any) && s.pcs == map[] && s.tick.prodTail == 3 && s.tick.consHead == 1 && s.ring.consHead == s.ring.prodTail
  {
    var s0 := FullRingClaimed(x, y, z);
    PublishBeside(s0, 0, x, Any);
    s := Published(s0, x);
  }

  /**
   Without the hypothesis the ring loses entries.  Size 2: producer 0 stops
   before its compare-and-swap while thread 1 makes prod_head go round once; the
   compare-and-swap then succeeds on a full ring, and once producer 0 has
   published, the ring looks empty with two entries inside.
   */
  lemma LappedProducerLosesEntries(x: Entry, y: Entry, z: Entry) returns (states: seq<State>, acts: seq<Action>)
    ensures Run(states, acts) && states[|acts|].pcs == map[]
    ensures states[|acts|].tick.prodTail == states[|acts|].tick.consHead + 2
    ensures states[|acts|].ring.consHead == states[|acts|].ring.prodTail
  {
    var s := FullRingPublished(x, y, z);
    var call: nat;
    states, acts, call :| Run(states, acts) && Good(states, call, Any) && states[|acts|] == s;
  }

  // ------------------------------------------------------------- a spurious NULL

  /** Two entries in a ring of size 4; consumer 0 has called, read cons_head and stopped. */
  lemma StoppedConsumer(x: Entry) returns (s: State)
    ensures Reached(s, Calling) && Settled(s) && s.ring.mask == 3 && s.pcs == map[0 := PopReadTail(0, 0)]
    ensures s.tick.prodTail == 2 && s.tick.consHead == 0
  {
    var s2 := TwoPublished(x);
    Call(s2);
    Hop(s2, s2, 0, PopReadHead, s2, PopReadTail(0, 0), Calling);
    s := Goto(s2, 0, PopReadTail(0, 0));
  }

  lemma TwoPublished(x: Entry) returns (s: State)
    ensures Reached(s, Unlapped) && Settled(s) && s.ring.mask == 3 && s.pcs == map[]
    ensures s.tick.prodTail == 2 && s.tick.consHead == 0
  {
    assert Pow2(2) == 4;
    var s0 := Fresh(3, x);
    FreshSettled(3, x);
    Start(s0);
    PushBeside(s0, 1, x, Unlapped);
    PublishedSettled(s0, x);
    var s1 := Published(s0, x);
    PushBeside(s1, 1, x, Unlapped);
    PublishedSettled(s1, x);
    s := Published(s1, x);
  }

  /** Thread 1 pushes, pops and pushes: prod_tail reaches ticket 4. */
  lemma CameRound(x: Entry) returns (s: State)
    ensures Reached(s, Calling) && Settled(s) && s.ring.mask == 3 && s.pcs == map[0 := PopReadTail(0, 0)]
    ensures s.tick.prodTail == 4 && s.tick.consHead == 1
  {
    s := HalfRound(x);
    PopBeside(s, 1, Calling);
    FreedSettled(s, Oldest(s));
    s := Freed(s, Oldest(s));
    PushBeside(s, 1, x, Calling);
    PublishedSettled(s, x);
    s := Published(s, x);
  }

  lemma HalfRound(x: Entry) returns (s: State)
    ensures Reached(s, Calling) && Settled(s) && s.ring.mask == 3 && s.pcs == map[0 := PopReadTail(0, 0)]
    ensures s.tick.prodTail == 3 && s.tick.consHead == 0
  {
    s := StoppedConsumer(x);
    PushBeside(s, 1, x, Calling);
    PublishedSettled(s, x);
    s := Published(s, x);
  }

  /**
   Even when no head is lapped, a pop can answer NULL although the FIFO never
   was empty during the call: size 4, consumer 0 stops after reading cons_head
   at ticket 0; thread 1 pushes, pops and pushes, and prod_tail reaches ticket 4.
   */
  lemma SpuriousNull(x: Entry) returns (states: seq<State>, acts: seq<Action>, call: nat)
    ensures Run(states, acts) && NeverLapped(states) && call < |states|
    ensures states[call].pcs == map[0 := PopReadHead] && states[|acts|].pcs == map[0 := PopNull]
    ensures forall k :: call <= k < |states| ==> states[k].tick.consHead < states[k].tick.prodTail
  {
    var s := CameRound(x);
    var s0 := s.(pcs := map[]);
    assert s == Goto(s0, 0, PopReadTail(0, 0));
    Hop(s0, s0, 0, PopReadTail(0, 0), s0, PopNull, Calling);
    assert map[0 := PopNull] == Goto(s0, 0, PopNull).pcs;
    states, acts, call :| Run(states, acts) && Good(states, call, Calling) && states[|acts|] == Goto(s0, 0, PopNull);
  }
}
