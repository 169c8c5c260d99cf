/**
 The lock-free multi-producer, multi-consumer ring of
 install/include/mercury_atomic_queue.h, one atomic load, store or
 compare-and-swap per step, under sequential consistency.

 `Ring` holds the words the C code reads and writes: every branch of `Step`
 looks at those words and at the thread's own locals only.  `Tickets` counts
 without wrapping behind the four masked indices and is never read by a branch.
 */
module AtomicQueue {
  import opened Masking

  type Tid = nat

  /** A completion entry; `id` tells two additions of the same memory apart. */
  datatype Entry = Entry(id: nat, selfNotify: bool)

  datatype Ring = Ring(
    mask: nat,
    prodHead: nat, prodTail: nat, consHead: nat, consTail: nat,
    slots: seq<Entry>,
    drops: nat)

  /** `log[t]` is the entry that claimed ticket `t`; `returned` is what pops gave back, in order. */
  datatype Tickets = Tickets(
    prodHead: nat, prodTail: nat, consHead: nat, consTail: nat,
    log: seq<Entry>, returned: seq<Entry>)

  /**
   Program counters.  `h` and `c` are the locals prod_head/cons_head and
   cons_tail; `t` and `u` are the tickets they were read at.
   */
  datatype Pc =
    | PushReadHead(e: Entry)
    | PushReadTail(e: Entry, h: nat, t: nat)
    | PushRecheckHead(e: Entry, h: nat, t: nat, c: nat, u: nat)
    | PushRecheckTail(e: Entry, h: nat, t: nat, c: nat, u: nat)
    | PushCas(e: Entry, h: nat, t: nat)
    | PushStore(e: Entry, h: nat, t: nat)
    | PushAwait(e: Entry, h: nat, t: nat)
    | PushPublish(e: Entry, h: nat, t: nat)
    | PushOk(e: Entry, t: nat)
    | PushFull(e: Entry)
    | PopReadHead
    | PopReadTail(h: nat, t: nat)
    | PopCas(h: nat, t: nat)
    | PopLoad(h: nat, t: nat)
    | PopAwait(h: nat, t: nat, e: Entry)
    | PopPublish(h: nat, t: nat, e: Entry)
    | PopGot(t: nat, e: Entry)
    | PopNull

  /** Threads outside `pcs` are not inside a call. */
  datatype State = State(ring: Ring, tick: Tickets, pcs: map<Tid, Pc>)

  function Size(s: State): nat
  {
    s.ring.mask + 1
  }

  function Next(h: nat, mask: nat): nat
  {
    BitAnd(h + 1, mask)
  }

  function Outstanding(s: State): int
  {
    s.tick.prodHead - s.tick.consTail
  }

  // ---------------------------------------------------------------- steps

  function Goto(s: State, tid: Tid, pc: Pc): State
  {
    s.(pcs := s.pcs[tid := pc])
  }

  /** Lines 163-179: read both indices, re-check when full, compare-and-swap. */
  function PushClaimStep(s: State, tid: Tid, pc: Pc): State
    requires pc.PushReadHead? || pc.PushReadTail? || pc.PushRecheckHead? || pc.PushRecheckTail? || pc.PushCas?
  {
    match pc
    case PushReadHead(e) =>
      Goto(s, tid, PushReadTail(e, s.ring.prodHead, s.tick.prodHead))
    case PushReadTail(e, h, t) =>
      if Next(h, s.ring.mask) == s.ring.consTail then
        Goto(s, tid, PushRecheckHead(e, h, t, s.ring.consTail, s.tick.consTail))
      else
        Goto(s, tid, PushCas(e, h, t))
    case PushRecheckHead(e, h, t, c, u) =>
      // `continue` inside do-while goes to the loop condition, that is to the CAS
      if s.ring.prodHead == h then Goto(s, tid, PushRecheckTail(e, h, t, c, u))
      else Goto(s, tid, PushCas(e, h, t))
    case PushRecheckTail(e, h, t, c, u) =>
      if s.ring.consTail == c then
        Goto(s.(ring := s.ring.(drops := s.ring.drops + 1)), tid, PushFull(e))
      else Goto(s, tid, PushCas(e, h, t))
    case PushCas(e, h, t) =>
      if s.ring.prodHead == h then
        Goto(
          s.(ring := s.ring.(prodHead := Next(h, s.ring.mask)),
          tick := s.tick.(prodHead := s.tick.prodHead + 1, log := s.tick.log + [e])),
          tid, PushStore(e, h, s.tick.prodHead))
      else Goto(s, tid, PushReadHead(e))
  }

  /** Lines 181-193: write the slot, wait for earlier producers, publish. */
  function PushFillStep(s: State, tid: Tid, pc: Pc): State
    requires pc.PushStore? || pc.PushAwait? || pc.PushPublish?
  {
    match pc
    case PushStore(e, h, t) =>
      Goto(
        s.(ring := s.ring.(slots := if h < |s.ring.slots| then s.ring.slots[h := e] else s.ring.slots)),
        tid, PushAwait(e, h, t))
    case PushAwait(e, h, t) =>
      if s.ring.prodTail == h then Goto(s, tid, PushPublish(e, h, t)) else s
    case PushPublish(e, h, t) =>
      Goto(
        s.(ring := s.ring.(prodTail := Next(h, s.ring.mask)),
        tick := s.tick.(prodTail := s.tick.prodTail + 1)),
        tid, PushOk(e, t))
  }

  /** Lines 203-224 of hg_atomic_queue_pop_mc. */
  function PopStep(s: State, tid: Tid, pc: Pc): State
    requires pc.PopReadHead? || pc.PopReadTail? || pc.PopCas? || pc.PopLoad? || pc.PopAwait? || pc.PopPublish?
  {
    match pc
    case PopReadHead =>
      Goto(s, tid, PopReadTail(s.ring.consHead, s.tick.consHead))
    case PopReadTail(h, t) =>
      if h == s.ring.prodTail then Goto(s, tid, PopNull) else Goto(s, tid, PopCas(h, t))
    case PopCas(h, t) =>
      if s.ring.consHead == h then
        Goto(
          s.(ring := s.ring.(consHead := Next(h, s.ring.mask)),
          tick := s.tick.(consHead := s.tick.consHead + 1)),
          tid, PopLoad(h, s.tick.consHead))
      else Goto(s, tid, PopReadHead)
    case PopLoad(h, t) =>
      if h < |s.ring.slots| then Goto(s, tid, PopAwait(h, t, s.ring.slots[h])) else s
    case PopAwait(h, t, e) =>
      if s.ring.consTail == h then Goto(s, tid, PopPublish(h, t, e)) else s
    case PopPublish(h, t, e) =>
      Goto(
        s.(ring := s.ring.(consTail := Next(h, s.ring.mask)),
        tick := s.tick.(consTail := s.tick.consTail + 1, returned := s.tick.returned + [e])),
        tid, PopGot(t, e))
  }

  predicate Finished(pc: Pc)
  {
    pc.PushOk? || pc.PushFull? || pc.PopGot? || pc.PopNull?
  }

  /** One atomic step of a thread that is inside a call. */
  function Step(s: State, tid: Tid): State
    requires tid in s.pcs
  {
    var pc := s.pcs[tid];
    if pc.PushReadHead? || pc.PushReadTail? || pc.PushRecheckHead? || pc.PushRecheckTail? || pc.PushCas? then
      PushClaimStep(s, tid, pc)
    else if pc.PushStore? || pc.PushAwait? || pc.PushPublish? then
      PushFillStep(s, tid, pc)
    else if Finished(pc) then s
    else PopStep(s, tid, pc)
  }

  function CallPush(s: State, tid: Tid, e: Entry): State
  {
    Goto(s, tid, PushReadHead(e))
  }

  function CallPop(s: State, tid: Tid): State
  {
    Goto(s, tid, PopReadHead)
  }

  function Return(s: State, tid: Tid): State
  {
    s.(pcs := s.pcs - {tid})
  }

  datatype Action =
    | DoPush(tid: Tid, e: Entry)
    | DoPop(tid: Tid)
    | DoStep(tid: Tid)
    | DoReturn(tid: Tid)

  predicate Enabled(s: State, a: Action)
  {
    match a
    case DoPush(tid, _) => tid !in s.pcs
    case DoPop(tid) => tid !in s.pcs
    case DoStep(tid) => tid in s.pcs
    case DoReturn(tid) => tid in s.pcs && Finished(s.pcs[tid])
  }

  function Apply(s: State, a: Action): State
    requires Enabled(s, a)
  {
    match a
    case DoPush(tid, e) => CallPush(s, tid, e)
    case DoPop(tid) => CallPop(s, tid)
    case DoStep(tid) => Step(s, tid)
    case DoReturn(tid) => Return(s, tid)
  }

  ghost predicate Init(s: State)
  {
    && IsPow2(Size(s))
    && |s.ring.slots| == Size(s)
    && s.ring == Ring(s.ring.mask, 0, 0, 0, 0, s.ring.slots, 0)
    && s.tick == Tickets(0, 0, 0, 0, [], [])
    && s.pcs == map[]
  }

  // ----------------------------------------------------------- hypothesis

  /** A producer between its read of prod_head and its CAS or failure return. */
  predicate HoldsProdHead(pc: Pc)
  {
    pc.PushReadTail? || pc.PushRecheckHead? || pc.PushRecheckTail? || pc.PushCas?
  }

  predicate HoldsConsHead(pc: Pc)
  {
    pc.PopReadTail? || pc.PopCas?
  }

  /** No full revolution of a head since the thread read it, if it still has to compare it. */
  predicate Unlapped(s: State, tid: Tid)
    requires tid in s.pcs
  {
    && (HoldsProdHead(s.pcs[tid]) ==> s.tick.prodHead < s.pcs[tid].t + Size(s))
    && (HoldsConsHead(s.pcs[tid]) ==> s.tick.consHead < s.pcs[tid].t + Size(s))
  }

  ghost predicate NoLap(s: State)
  {
    forall tid :: tid in s.pcs ==> Unlapped(s, tid)
  }

  // ------------------------------------------------------------ invariant

  ghost predicate Masked(s: State)
  {
    && IsPow2(Size(s))
    && |s.ring.slots| == Size(s)
    && s.ring.prodHead == s.tick.prodHead % Size(s)
    && s.ring.prodTail == s.tick.prodTail % Size(s)
    && s.ring.consHead == s.tick.consHead % Size(s)
    && s.ring.consTail == s.tick.consTail % Size(s)
  }

  /** cons_tail <= cons_head <= prod_tail <= prod_head <= cons_tail + size - 1. */
  ghost predicate Bounds(s: State)
  {
    s.tick.consTail <= s.tick.consHead <= s.tick.prodTail <= s.tick.prodHead <= s.tick.consTail + s.ring.mask
  }

  ghost predicate Contents(s: State)
  {
    && |s.tick.log| == s.tick.prodHead
    && |s.ring.slots| == Size(s)
    && s.tick.prodTail <= s.tick.prodHead
    && s.tick.consTail <= s.tick.prodHead
    && s.tick.returned == s.tick.log[..s.tick.consTail]
    && (forall t :: s.tick.consTail <= t < s.tick.prodTail ==> s.ring.slots[t % Size(s)] == s.tick.log[t])
  }

  predicate ClaimedPush(pc: Pc)
  {
    pc.PushStore? || pc.PushAwait? || pc.PushPublish?
  }

  predicate ClaimedPop(pc: Pc)
  {
    pc.PopLoad? || pc.PopAwait? || pc.PopPublish?
  }

  /** No two threads hold the same ticket. */
  ghost predicate Exclusive(s: State)
  {
    forall a, b :: a in s.pcs && b in s.pcs && a != b ==>
      && !(ClaimedPush(s.pcs[a]) && ClaimedPush(s.pcs[b]) && s.pcs[a].t == s.pcs[b].t)
      && !(ClaimedPop(s.pcs[a]) && ClaimedPop(s.pcs[b]) && s.pcs[a].t == s.pcs[b].t)
  }

  ghost predicate PushClaimOk(s: State, pc: Pc)
    requires HoldsProdHead(pc)
  {
    var k := s.tick;
    && pc.h == pc.t % Size(s)
    && pc.t <= k.prodHead
    && (pc.PushRecheckHead? || pc.PushRecheckTail? ==>
          && pc.u <= k.consTail
          && pc.c == pc.u % Size(s)
          && (pc.PushRecheckTail? || pc.t == k.prodHead ==> pc.u + Size(s) == pc.t + 1))
    && (pc.PushCas? && pc.t == k.prodHead ==> pc.t < k.consTail + s.ring.mask)
  }

  ghost predicate PushFillOk(s: State, pc: Pc)
    requires ClaimedPush(pc)
  {
    var k := s.tick;
    && pc.h == pc.t % Size(s)
    && k.prodTail <= pc.t < k.prodHead
    && pc.t < |k.log| && k.log[pc.t] == pc.e
    && (!pc.PushStore? ==> pc.h < |s.ring.slots| && s.ring.slots[pc.h] == pc.e)
    && (pc.PushPublish? ==> pc.t == k.prodTail)
  }

  ghost predicate PopOk(s: State, pc: Pc)
    requires HoldsConsHead(pc) || ClaimedPop(pc)
  {
    var k := s.tick;
    && pc.h == pc.t % Size(s)
    && (HoldsConsHead(pc) ==> pc.t <= k.consHead)
    && (pc.PopCas? && pc.t == k.consHead ==> pc.t < k.prodTail)
    && (ClaimedPop(pc) ==> k.consTail <= pc.t < k.consHead)
    && (pc.PopAwait? || pc.PopPublish? ==> pc.t < |k.log| && pc.e == k.log[pc.t])
    && (pc.PopPublish? ==> pc.t == k.consTail)
  }

  ghost predicate ResultOk(s: State, pc: Pc)
    requires Finished(pc)
  {
    var k := s.tick;
    && (pc.PushOk? ==> pc.t < k.prodTail && pc.t < |k.log| && k.log[pc.t] == pc.e)
    && (pc.PopGot? ==> pc.t < k.consTail && pc.t < |k.log| && k.log[pc.t] == pc.e)
  }

  ghost predicate PcOk(s: State, pc: Pc)
  {
    && (HoldsProdHead(pc) ==> PushClaimOk(s, pc))
    && (ClaimedPush(pc) ==> PushFillOk(s, pc))
    && (HoldsConsHead(pc) || ClaimedPop(pc) ==> PopOk(s, pc))
    && (Finished(pc) ==> ResultOk(s, pc))
  }

  ghost predicate Pcs(s: State)
  {
    forall tid :: tid in s.pcs ==> PcOk(s, s.pcs[tid])
  }

  ghost predicate Inv(s: State)
  {
    Masked(s) && Bounds(s) && Contents(s) && Exclusive(s) && Pcs(s)
  }

  lemma InitInv(s: State)
    requires Init(s)
    ensures Inv(s)
  {
  }

  lemma NextResidue(s: State, t: nat)
    requires IsPow2(Size(s))
    ensures Next(t % Size(s), s.ring.mask) == (t + 1) % Size(s)
  {
    MaskedBySize(t % Size(s) + 1, s.ring.mask);
    SuccResidue(t, Size(s));
  }

  // ------------------------------------------------- preservation, push

  /** What a thread knows stays true while nothing it depends on moves ... */
  lemma SameFrame(s: State, s': State, pc: Pc)
    requires PcOk(s, pc) && s'.tick == s.tick && s'.ring.mask == s.ring.mask && s'.ring.slots == s.ring.slots
    ensures PcOk(s', pc)
  {
  }

  /** ... when a producer claims the next ticket ... */
  lemma PushClaimFrame(s: State, s': State, pc: Pc, e: Entry)
    requires PcOk(s, pc) && |s.tick.log| == s.tick.prodHead
    requires s'.tick == s.tick.(prodHead := s.tick.prodHead + 1, log := s.tick.log + [e])
    requires s'.ring.mask == s.ring.mask && s'.ring.slots == s.ring.slots
    ensures PcOk(s', pc)
  {
  }

  /** ... and when a consumer does. */
  lemma PopClaimFrame(s: State, s': State, pc: Pc)
    requires PcOk(s, pc)
    requires s'.tick == s.tick.(consHead := s.tick.consHead + 1)
    requires s'.ring.mask == s.ring.mask && s'.ring.slots == s.ring.slots
    ensures PcOk(s', pc)
  {
  }

  lemma PublishFrame(s: State, s': State, pc: Pc)
    requires PcOk(s, pc)
    requires s'.tick == s.tick.(prodTail := s.tick.prodTail + 1) && s'.ring.mask == s.ring.mask && s'.ring.slots == s.ring.slots
    requires ClaimedPush(pc) ==> pc.t != s.tick.prodTail
    ensures PcOk(s', pc)
  {
  }

  lemma ReleaseFrame(s: State, s': State, pc: Pc, e: Entry)
    requires PcOk(s, pc)
    requires s'.tick == s.tick.(consTail := s.tick.consTail + 1, returned := s.tick.returned + [e])
    requires s'.ring.mask == s.ring.mask && s'.ring.slots == s.ring.slots
    requires ClaimedPop(pc) ==> pc.t != s.tick.consTail
    ensures PcOk(s', pc)
  {
  }

  /** The steps that only move a program counter. */
  lemma MoveKeepsInv(s: State, tid: Tid, pc: Pc, drops: nat)
    requires Inv(s)
    requires PcOk(s, pc)
    requires ClaimedPush(pc) ==> tid in s.pcs && ClaimedPush(s.pcs[tid]) && s.pcs[tid].t == pc.t
    requires ClaimedPop(pc) ==> tid in s.pcs && ClaimedPop(s.pcs[tid]) && s.pcs[tid].t == pc.t
    ensures Inv(Goto(s.(ring := s.ring.(drops := drops)), tid, pc))
  {
    var s' := Goto(s.(ring := s.ring.(drops := drops)), tid, pc);
    forall a | a in s'.pcs
      ensures PcOk(s', s'.pcs[a])
    {
      SameFrame(s, s', s'.pcs[a]);
    }
  }

  lemma DifferentSlots(t: nat, u: nat, n: nat)
    requires n >= 1 && t < u < t + n
    ensures t % n != u % n
  {
    if t % n == u % n {
      SameResidue(t, u, n);
    }
  }

  /** Lines 166-168: what the producer knows after comparing with cons_tail. */
  lemma PushReadTailKeepsInv(s: State, tid: Tid)
    requires Inv(s) && tid in s.pcs && s.pcs[tid].PushReadTail?
    ensures Inv(Step(s, tid))
  {
    var pc := s.pcs[tid];
    var n := Size(s);
    assert PcOk(s, pc);
    NextResidue(s, pc.t);
    if pc.t == s.tick.prodHead {
      if pc.t + 1 < s.tick.consTail + n {
        DifferentSlots(s.tick.consTail, pc.t + 1, n);
      } else {
        Revolution(s.tick.consTail, n);
      }
    }
    MoveKeepsInv(s, tid, Step(s, tid).pcs[tid], s.ring.drops);
  }

  lemma PushRecheckKeepsInv(s: State, tid: Tid)
    requires Inv(s) && tid in s.pcs && Unlapped(s, tid) && (s.pcs[tid].PushRecheckHead? || s.pcs[tid].PushRecheckTail?)
    ensures Inv(Step(s, tid))
  {
    var pc := s.pcs[tid];
    assert PcOk(s, pc);
    if pc.PushRecheckHead? && s.ring.prodHead == pc.h {
      SameResidue(pc.t, s.tick.prodHead, Size(s));
    }
    MoveKeepsInv(s, tid, Step(s, tid).pcs[tid], Step(s, tid).ring.drops);
  }

  /** A claim at ticket `prodHead` keeps the invariant when there is room. */
  lemma PushClaimKeepsInv(s: State, tid: Tid)
    requires Inv(s) && tid in s.pcs && s.pcs[tid].PushCas? && s.ring.prodHead == s.pcs[tid].h
    requires s.tick.prodHead < s.tick.consTail + s.ring.mask
    ensures Inv(Step(s, tid))
  {
    var s' := Step(s, tid);
    assert PcOk(s, s.pcs[tid]);
    NextResidue(s, s.tick.prodHead);
    forall a | a in s'.pcs
      ensures PcOk(s', s'.pcs[a])
    {
      if a != tid {
        PushClaimFrame(s, s', s.pcs[a], s.pcs[tid].e);
      }
    }
    forall a | a in s.pcs && a != tid && ClaimedPush(s.pcs[a])
      ensures s.pcs[a].t < s.tick.prodHead
    {
      assert PcOk(s, s.pcs[a]);
    }
  }

  lemma PushCasKeepsInv(s: State, tid: Tid)
    requires Inv(s) && tid in s.pcs && Unlapped(s, tid) && s.pcs[tid].PushCas?
    ensures Inv(Step(s, tid))
  {
    var pc := s.pcs[tid];
    assert PcOk(s, pc);
    if s.ring.prodHead == pc.h {
      SameResidue(pc.t, s.tick.prodHead, Size(s));
      PushClaimKeepsInv(s, tid);
    } else {
      MoveKeepsInv(s, tid, Step(s, tid).pcs[tid], s.ring.drops);
    }
  }

  /** What the store into the slot does. */
  lemma StoreEffect(s: State, tid: Tid)
    requires Inv(s) && tid in s.pcs && s.pcs[tid].PushStore?
    ensures var s', pc := Step(s, tid), s.pcs[tid];
            && PushFillOk(s, pc) && pc.h < Size(s)
            && s' == s.(ring := s.ring.(slots := s.ring.slots[pc.h := pc.e]), pcs := s.pcs[tid := PushAwait(pc.e, pc.h, pc.t)])
  {
    assert PcOk(s, s.pcs[tid]);
  }

  /** The slot stored to is none of those that are published. */
  lemma StoreKeepsContents(s: State, tid: Tid)
    requires Inv(s) && tid in s.pcs && s.pcs[tid].PushStore?
    ensures Contents(Step(s, tid))
  {
    var s', pc, n := Step(s, tid), s.pcs[tid], Size(s);
    StoreEffect(s, tid);
    forall t | s.tick.consTail <= t < s.tick.prodTail
      ensures s'.ring.slots[t % n] == s.tick.log[t]
    {
      DifferentSlots(t, pc.t, n);
    }
  }

  /** Nor does another producer rely on it. */
  lemma StoreFrame(s: State, tid: Tid, other: Tid)
    requires Inv(s) && tid in s.pcs && s.pcs[tid].PushStore? && other in s.pcs && other != tid
    ensures PcOk(Step(s, tid), s.pcs[other])
  {
    var pc, o, n := s.pcs[tid], s.pcs[other], Size(s);
    StoreEffect(s, tid);
    assert PcOk(s, o);
    if ClaimedPush(o) {
      if o.t < pc.t {
        DifferentSlots(o.t, pc.t, n);
      } else {
        DifferentSlots(pc.t, o.t, n);
      }
    }
  }

  lemma PushStoreKeepsInv(s: State, tid: Tid)
    requires Inv(s) && tid in s.pcs && s.pcs[tid].PushStore?
    ensures Inv(Step(s, tid))
  {
    var s' := Step(s, tid);
    StoreEffect(s, tid);
    StoreKeepsContents(s, tid);
    forall a | a in s'.pcs
      ensures PcOk(s', s'.pcs[a])
    {
      if a != tid {
        StoreFrame(s, tid, a);
      }
    }
  }

  lemma PushPublishKeepsInv(s: State, tid: Tid)
    requires Inv(s) && tid in s.pcs && (s.pcs[tid].PushAwait? || s.pcs[tid].PushPublish?)
    ensures Inv(Step(s, tid))
  {
    var s', pc, n := Step(s, tid), s.pcs[tid], Size(s);
    assert PcOk(s, pc);
    if pc.PushAwait? {
      if s.ring.prodTail == pc.h {
        SameResidue(s.tick.prodTail, pc.t, n);
        MoveKeepsInv(s, tid, s'.pcs[tid], s.ring.drops);
      }
    } else {
      NextResidue(s, pc.t);
      forall a | a in s'.pcs
        ensures PcOk(s', s'.pcs[a])
      {
        if a != tid {
          PublishFrame(s, s', s.pcs[a]);
        }
      }
    }
  }

  // -------------------------------------------------- preservation, pop

  lemma PopReadTailKeepsInv(s: State, tid: Tid)
    requires Inv(s) && tid in s.pcs && s.pcs[tid].PopReadTail?
    ensures Inv(Step(s, tid))
  {
    assert PcOk(s, s.pcs[tid]);
    MoveKeepsInv(s, tid, Step(s, tid).pcs[tid], s.ring.drops);
  }

  /** A claim at ticket `consHead` keeps the invariant when there is a published entry. */
  lemma PopClaimKeepsInv(s: State, tid: Tid)
    requires Inv(s) && tid in s.pcs && s.pcs[tid].PopCas? && s.ring.consHead == s.pcs[tid].h
    requires s.tick.consHead < s.tick.prodTail
    ensures Inv(Step(s, tid))
  {
    var s' := Step(s, tid);
    assert PcOk(s, s.pcs[tid]);
    NextResidue(s, s.tick.consHead);
    forall a | a in s'.pcs
      ensures PcOk(s', s'.pcs[a])
    {
      if a != tid {
        PopClaimFrame(s, s', s.pcs[a]);
      }
    }
    forall a | a in s.pcs && a != tid && ClaimedPop(s.pcs[a])
      ensures s.pcs[a].t < s.tick.consHead
    {
      assert PcOk(s, s.pcs[a]);
    }
  }

  lemma PopCasKeepsInv(s: State, tid: Tid)
    requires Inv(s) && tid in s.pcs && Unlapped(s, tid) && s.pcs[tid].PopCas?
    ensures Inv(Step(s, tid))
  {
    var pc := s.pcs[tid];
    assert PcOk(s, pc);
    if s.ring.consHead == pc.h {
      SameResidue(pc.t, s.tick.consHead, Size(s));
      PopClaimKeepsInv(s, tid);
    } else {
      MoveKeepsInv(s, tid, Step(s, tid).pcs[tid], s.ring.drops);
    }
  }

  lemma PopLoadKeepsInv(s: State, tid: Tid)
    requires Inv(s) && tid in s.pcs && (s.pcs[tid].PopLoad? || s.pcs[tid].PopAwait?)
    ensures Inv(Step(s, tid))
  {
    var s', pc, n := Step(s, tid), s.pcs[tid], Size(s);
    assert PcOk(s, pc);
    assert s.ring.slots[pc.t % n] == s.tick.log[pc.t];
    if pc.PopAwait? && s.ring.consTail == pc.h {
      SameResidue(s.tick.consTail, pc.t, n);
    }
    MoveKeepsInv(s, tid, s'.pcs[tid], s.ring.drops);
  }

  lemma PopPublishKeepsInv(s: State, tid: Tid)
    requires Inv(s) && tid in s.pcs && s.pcs[tid].PopPublish?
    ensures Inv(Step(s, tid))
  {
    var s', pc := Step(s, tid), s.pcs[tid];
    assert PcOk(s, pc);
    NextResidue(s, pc.t);
    forall a | a in s'.pcs
      ensures PcOk(s', s'.pcs[a])
    {
      if a != tid {
        ReleaseFrame(s, s', s.pcs[a], pc.e);
      }
    }
  }

  // ---------------------------------------------------------- every step

  lemma StepKeepsInv(s: State, tid: Tid)
    requires Inv(s) && tid in s.pcs && Unlapped(s, tid)
    ensures Inv(Step(s, tid))
  {
    var pc := s.pcs[tid];
    match pc
    case PushReadHead(_) => MoveKeepsInv(s, tid, Step(s, tid).pcs[tid], s.ring.drops);
    case PushReadTail(_, _, _) => PushReadTailKeepsInv(s, tid);
    case PushRecheckHead(_, _, _, _, _) => PushRecheckKeepsInv(s, tid);
    case PushRecheckTail(_, _, _, _, _) => PushRecheckKeepsInv(s, tid);
    case PushCas(_, _, _) => PushCasKeepsInv(s, tid);
    case PushStore(_, _, _) => PushStoreKeepsInv(s, tid);
    case PushAwait(_, _, _) => PushPublishKeepsInv(s, tid);
    case PushPublish(_, _, _) => PushPublishKeepsInv(s, tid);
    case PopReadHead => MoveKeepsInv(s, tid, Step(s, tid).pcs[tid], s.ring.drops);
    case PopReadTail(_, _) => PopReadTailKeepsInv(s, tid);
    case PopCas(_, _) => PopCasKeepsInv(s, tid);
    case PopLoad(_, _) => PopLoadKeepsInv(s, tid);
    case PopAwait(_, _, _) => PopLoadKeepsInv(s, tid);
    case PopPublish(_, _, _) => PopPublishKeepsInv(s, tid);
    case _ =>
  }

  lemma ReturnKeepsInv(s: State, tid: Tid)
    requires Inv(s)
    ensures Inv(Return(s, tid))
  {
    var s' := Return(s, tid);
    forall a | a in s'.pcs
      ensures PcOk(s', s'.pcs[a])
    {
      assert PcOk(s, s.pcs[a]);
    }
  }

  lemma ApplyKeepsInv(s: State, a: Action)
    requires Inv(s) && NoLap(s) && Enabled(s, a)
    ensures Inv(Apply(s, a))
  {
    match a
    case DoPush(tid, e) => MoveKeepsInv(s, tid, PushReadHead(e), s.ring.drops);
    case DoPop(tid) => MoveKeepsInv(s, tid, PopReadHead, s.ring.drops);
    case DoStep(tid) => StepKeepsInv(s, tid);
    case DoReturn(tid) => ReturnKeepsInv(s, tid);
  }

  // ------------------------------------------------------------ whole runs

  ghost predicate Run(states: seq<State>, acts: seq<Action>)
  {
    && |states| == |acts| + 1
    && Init(states[0])
    && (forall i :: 0 <= i < |acts| ==> Enabled(states[i], acts[i]) && states[i + 1] == Apply(states[i], acts[i]))
  }

  ghost predicate NeverLapped(states: seq<State>)
  {
    forall i :: 0 <= i < |states| ==> NoLap(states[i])
  }

  /** What the ring holds as a FIFO: published and not yet claimed by a consumer. */
  ghost function Queue(s: State): seq<Entry>
    requires Inv(s)
  {
    s.tick.log[s.tick.consHead..s.tick.prodTail]
  }

  lemma {:induction false} RunsKeepInv(states: seq<State>, acts: seq<Action>, i: nat)
    requires Run(states, acts) && NeverLapped(states) && i < |states|
    ensures Inv(states[i])
  {
    if i == 0 {
      InitInv(states[0]);
    } else {
      RunsKeepInv(states, acts, i - 1);
      assert NoLap(states[i - 1]);
      ApplyKeepsInv(states[i - 1], acts[i - 1]);
    }
  }

  /** Publishing appends the producer's own entry. */
  lemma PublishAppends(s: State, tid: Tid)
    requires Inv(s) && tid in s.pcs && s.pcs[tid].PushPublish? && Inv(Step(s, tid))
    ensures Queue(Step(s, tid)) == Queue(s) + [s.pcs[tid].e]
  {
    var k := s.tick;
    assert PcOk(s, s.pcs[tid]);
    PublishTicks(s, tid);
    OneMore(k.log, k.consHead, k.prodTail);
  }

  lemma PublishTicks(s: State, tid: Tid)
    requires tid in s.pcs && s.pcs[tid].PushPublish?
    ensures Step(s, tid).tick == s.tick.(prodTail := s.tick.prodTail + 1)
  {
  }

  lemma OneMore(log: seq<Entry>, from: nat, to: nat)
    requires from <= to < |log|
    ensures log[from..to + 1] == log[from..to] + [log[to]]
  {
  }

  /** A consumer's claim takes the oldest entry, and that is the one it will load. */
  lemma ClaimTakesOldest(s: State, tid: Tid)
    requires Inv(s) && tid in s.pcs && Unlapped(s, tid) && s.pcs[tid].PopCas? && s.ring.consHead == s.pcs[tid].h && Inv(Step(s, tid))
    ensures |Queue(s)| > 0 && Queue(Step(s, tid)) == Queue(s)[1..]
    ensures Step(s, tid).pcs[tid].PopLoad? && Step(s, tid).tick.log[Step(s, tid).pcs[tid].t] == Queue(s)[0]
  {
    assert PcOk(s, s.pcs[tid]);
    SameResidue(s.pcs[tid].t, s.tick.consHead, Size(s));
  }

  /** A step that is neither leaves the published and unclaimed tickets alone. */
  lemma OtherStepsKeep(s: State, tid: Tid)
    requires tid in s.pcs && !s.pcs[tid].PushPublish? && !(s.pcs[tid].PopCas? && s.ring.consHead == s.pcs[tid].h)
    ensures Step(s, tid).tick.consHead == s.tick.consHead && Step(s, tid).tick.prodTail == s.tick.prodTail
    ensures s.tick.log <= Step(s, tid).tick.log
  {
  }

  /**
   The ring is a bounded FIFO: publishing appends the producer's own entry, a
   consumer's claim takes the oldest entry (and that entry is the one it will
   load), and every other step leaves the FIFO alone.
   */
  lemma StepRefinesFifo(s: State, a: Action)
    requires Inv(s) && NoLap(s) && Enabled(s, a)
    ensures Inv(Apply(s, a))
    ensures |Queue(s)| <= s.ring.mask
    ensures a.DoStep? && s.pcs[a.tid].PushPublish? ==> Queue(Apply(s, a)) == Queue(s) + [s.pcs[a.tid].e]
    ensures a.DoStep? && s.pcs[a.tid].PopCas? && s.ring.consHead == s.pcs[a.tid].h ==>
      && |Queue(s)| > 0
      && Queue(Apply(s, a)) == Queue(s)[1..]
      && Apply(s, a).pcs[a.tid].PopLoad?
      && Apply(s, a).tick.log[Apply(s, a).pcs[a.tid].t] == Queue(s)[0]
    ensures !(a.DoStep? && s.pcs[a.tid].PushPublish?) && !(a.DoStep? && s.pcs[a.tid].PopCas? && s.ring.consHead == s.pcs[a.tid].h) ==>
      Queue(Apply(s, a)) == Queue(s)
  {
    ApplyKeepsInv(s, a);
    if a.DoStep? {
      if s.pcs[a.tid].PushPublish? {
        PublishAppends(s, a.tid);
      } else if s.pcs[a.tid].PopCas? && s.ring.consHead == s.pcs[a.tid].h {
        ClaimTakesOldest(s, a.tid);
      } else {
        OtherStepsKeep(s, a.tid);
      }
    }
  }

  lemma {:induction false} LogGrows(states: seq<State>, acts: seq<Action>, i: nat, j: nat)
    requires Run(states, acts) && i <= j < |states|
    ensures states[i].tick.log <= states[j].tick.log
    decreases j
  {
    if i < j {
      LogGrows(states, acts, i, j - 1);
      assert states[j] == Apply(states[j - 1], acts[j - 1]);
    }
  }

  /**
   In every state of every run: the index order, and the entries handed back so
   far are exactly the first pushed ones in claim order; a pop that finished with
   ticket `t` returned the entry that claimed `t` and a push that finished with
   ticket `t` is that entry.
   */
  lemma PopsReturnPushesInOrder(states: seq<State>, acts: seq<Action>, i: nat, j: nat)
    requires Run(states, acts) && NeverLapped(states) && i <= j < |states|
    ensures Bounds(states[i]) && |states[i].tick.log| == states[i].tick.prodHead
    ensures states[i].tick.returned == states[i].tick.log[..states[i].tick.consTail]
    ensures forall a :: a in states[i].pcs && (states[i].pcs[a].PopGot? || states[i].pcs[a].PushOk?) ==>
      var pc := states[i].pcs[a]; pc.t < |states[j].tick.log| && states[j].tick.log[pc.t] == pc.e
  {
    RunsKeepInv(states, acts, i);
    LogGrows(states, acts, i, j);
    forall a | a in states[i].pcs
      ensures PcOk(states[i], states[i].pcs[a])
    {
    }
  }

  // ------------------------------------------------------ who holds a ticket

  function Producers(s: State): set<Tid>
  {
    set tid | tid in s.pcs && ClaimedPush(s.pcs[tid])
  }

  function Consumers(s: State): set<Tid>
  {
    set tid | tid in s.pcs && ClaimedPop(s.pcs[tid])
  }

  /** There are as many threads inside a claim as tickets between a tail and its head. */
  ghost predicate ClaimsCounted(s: State)
  {
    && s.tick.prodTail + |Producers(s)| == s.tick.prodHead
    && s.tick.consTail + |Consumers(s)| == s.tick.consHead
  }

  /** A step changes its own thread's counter only, and says what it now holds. */
  lemma StepHolds(s: State, tid: Tid)
    requires tid in s.pcs
    ensures var s', pc := Step(s, tid), s.pcs[tid];
            && tid in s'.pcs && s'.pcs == s.pcs[tid := s'.pcs[tid]]
            && ClaimedPush(s'.pcs[tid]) == ((pc.PushCas? && s.ring.prodHead == pc.h) || (ClaimedPush(pc) && !pc.PushPublish?))
            && ClaimedPop(s'.pcs[tid]) == ((pc.PopCas? && s.ring.consHead == pc.h) || (ClaimedPop(pc) && !pc.PopPublish?))
  {
  }

  lemma StepTickets(s: State, tid: Tid)
    requires tid in s.pcs
    ensures var k, k', pc := s.tick, Step(s, tid).tick, s.pcs[tid];
            && k'.prodHead == (if pc.PushCas? && s.ring.prodHead == pc.h then k.prodHead + 1 else k.prodHead)
            && k'.prodTail == (if pc.PushPublish? then k.prodTail + 1 else k.prodTail)
            && k'.consHead == (if pc.PopCas? && s.ring.consHead == pc.h then k.consHead + 1 else k.consHead)
            && k'.consTail == (if pc.PopPublish? then k.consTail + 1 else k.consTail)
  {
  }

  lemma HoldersChange(s: State, s': State, tid: Tid)
    requires tid in s.pcs && tid in s'.pcs && s'.pcs == s.pcs[tid := s'.pcs[tid]]
    ensures Producers(s') == (if ClaimedPush(s'.pcs[tid]) then Producers(s) + {tid} else Producers(s) - {tid})
    ensures Consumers(s') == (if ClaimedPop(s'.pcs[tid]) then Consumers(s) + {tid} else Consumers(s) - {tid})
  {
  }

  lemma StepKeepsClaims(s: State, tid: Tid)
    requires ClaimsCounted(s) && tid in s.pcs
    ensures ClaimsCounted(Step(s, tid))
  {
    StepHolds(s, tid);
    StepTickets(s, tid);
    HoldersChange(s, Step(s, tid), tid);
  }

  lemma ApplyKeepsClaims(s: State, a: Action)
    requires ClaimsCounted(s) && Enabled(s, a)
    ensures ClaimsCounted(Apply(s, a))
  {
    if a.DoStep? {
      StepKeepsClaims(s, a.tid);
    } else {
      assert Producers(Apply(s, a)) == Producers(s) && Consumers(Apply(s, a)) == Consumers(s);
    }
  }

  lemma {:induction false} RunsCountClaims(states: seq<State>, acts: seq<Action>, i: nat)
    requires Run(states, acts) && i < |states|
    ensures ClaimsCounted(states[i])
  {
    if i > 0 {
      RunsCountClaims(states, acts, i - 1);
      ApplyKeepsClaims(states[i - 1], acts[i - 1]);
    }
  }

  /** The ticket of a thread inside a claim. */
  function Ticket(s: State, tid: Tid): nat
    requires tid in s.pcs && (ClaimedPush(s.pcs[tid]) || ClaimedPop(s.pcs[tid]))
  {
    s.pcs[tid].t
  }

  function Held(s: State, tids: set<Tid>): set<nat>
    requires forall tid :: tid in tids ==> tid in s.pcs && (ClaimedPush(s.pcs[tid]) || ClaimedPop(s.pcs[tid]))
  {
    set tid | tid in tids :: Ticket(s, tid)
  }

  ghost predicate Apart(s: State, tids: set<Tid>)
  {
    && (forall tid :: tid in tids ==> tid in s.pcs && (ClaimedPush(s.pcs[tid]) || ClaimedPop(s.pcs[tid])))
    && (forall a, b :: a in tids && b in tids && a != b ==> s.pcs[a].t != s.pcs[b].t)
  }

  /** Threads with different tickets hold as many tickets as they are. */
  lemma {:induction false} HeldCount(s: State, tids: set<Tid>)
    requires Apart(s, tids)
    ensures |Held(s, tids)| == |tids|
    decreases |tids|
  {
    if tid :| tid in tids {
      HeldCount(s, tids - {tid});
      assert Ticket(s, tid) !in Held(s, tids - {tid});
      assert Held(s, tids) == Held(s, tids - {tid}) + {Ticket(s, tid)};
    } else {
      assert Held(s, tids) == {};
    }
  }

  function Between(lo: nat, hi: nat): (r: set<nat>)
    requires lo <= hi
    ensures |r| == hi - lo && forall u :: u in r <==> lo <= u < hi
    decreases hi
  {
    if lo == hi then {} else Between(lo, hi - 1) + {hi - 1}
  }

  /** As many tickets of a range as the range has are all of it. */
  lemma AllOfThem(held: set<nat>, lo: nat, hi: nat)
    requires lo <= hi && |held| == hi - lo && forall u :: u in held ==> lo <= u < hi
    ensures held == Between(lo, hi)
  {
    var all := Between(lo, hi);
    assert held <= all;
    if u :| u in all && u !in held {
      SmallerSet(held, all - {u});
    }
  }

  lemma {:induction false} SmallerSet(a: set<nat>, b: set<nat>)
    requires a <= b
    ensures |a| <= |b|
    decreases |a|
  {
    if u :| u in a {
      SmallerSet(a - {u}, b - {u});
    }
  }

  /**
   Every ticket between a tail and its head is held by a thread that is inside
   its call, and by one only.
   */
  lemma EveryTicketHeld(states: seq<State>, acts: seq<Action>, i: nat, u: nat)
    requires Run(states, acts) && NeverLapped(states) && i < |states|
    ensures var s := states[i];
            s.tick.prodTail <= u < s.tick.prodHead ==>
              exists tid :: tid in Producers(s) && s.pcs[tid].t == u &&
                            forall other :: other in Producers(s) && s.pcs[other].t == u ==> other == tid
    ensures var s := states[i];
            s.tick.consTail <= u < s.tick.consHead ==>
              exists tid :: tid in Consumers(s) && s.pcs[tid].t == u &&
                            forall other :: other in Consumers(s) && s.pcs[other].t == u ==> other == tid
  {
    RunsKeepInv(states, acts, i);
    RunsCountClaims(states, acts, i);
    TicketsHeld(states[i]);
    var s := states[i];
    if s.tick.prodTail <= u < s.tick.prodHead {
      HolderIsUnique(s, Producers(s), u);
    }
    if s.tick.consTail <= u < s.tick.consHead {
      HolderIsUnique(s, Consumers(s), u);
    }
  }

  lemma HolderIsUnique(s: State, tids: set<Tid>, u: nat)
    requires Apart(s, tids) && u in Held(s, tids)
    ensures exists tid :: tid in tids && s.pcs[tid].t == u && forall other :: other in tids && s.pcs[other].t == u ==> other == tid
  {
    var tid :| tid in tids && Ticket(s, tid) == u;
  }

  lemma TicketsHeld(s: State)
    requires Inv(s) && ClaimsCounted(s)
    ensures Apart(s, Producers(s)) && Held(s, Producers(s)) == Between(s.tick.prodTail, s.tick.prodHead)
    ensures Apart(s, Consumers(s)) && Held(s, Consumers(s)) == Between(s.tick.consTail, s.tick.consHead)
  {
    var p, c := Producers(s), Consumers(s);
    forall tid | tid in p
      ensures s.tick.prodTail <= s.pcs[tid].t < s.tick.prodHead
    {
      assert PcOk(s, s.pcs[tid]);
    }
    forall tid | tid in c
      ensures s.tick.consTail <= s.pcs[tid].t < s.tick.consHead
    {
      assert PcOk(s, s.pcs[tid]);
    }
    HeldCount(s, p);
    HeldCount(s, c);
    AllOfThem(Held(s, p), s.tick.prodTail, s.tick.prodHead);
    AllOfThem(Held(s, c), s.tick.consTail, s.tick.consHead);
  }

  /** With no call in progress the FIFO is every entry that was pushed and not returned. */
  lemma IdleRing(states: seq<State>, acts: seq<Action>, i: nat)
    requires Run(states, acts) && NeverLapped(states) && i < |states| && states[i].pcs == map[]
    ensures Inv(states[i]) && states[i].tick.log == states[i].tick.returned + Queue(states[i])
  {
    RunsKeepInv(states, acts, i);
    RunsCountClaims(states, acts, i);
    assert Producers(states[i]) == {} && Consumers(states[i]) == {};
  }

  // ------------------------------------------------- full and empty answers

  /** However the loop condition is reached, a successful claim had room at that very step. */
  lemma ClaimHasRoom(s: State, tid: Tid)
    requires Inv(s) && tid in s.pcs && Unlapped(s, tid) && s.pcs[tid].PushCas? && s.ring.prodHead == s.pcs[tid].h
    ensures Outstanding(s) < s.ring.mask
    ensures Outstanding(Step(s, tid)) <= s.ring.mask
  {
    assert PcOk(s, s.pcs[tid]);
    SameResidue(s.pcs[tid].t, s.tick.prodHead, Size(s));
  }

  /**
   A NULL answer: either the FIFO is empty at the step that reads prod_tail, or
   another consumer has claimed past this thread's ticket while the producers
   published a whole revolution past it.
   */
  lemma NullAnswer(s: State, tid: Tid)
    requires Inv(s) && tid in s.pcs && s.pcs[tid].PopReadTail? && Step(s, tid).pcs[tid].PopNull?
    ensures Queue(s) == [] ||
            (s.tick.prodTail >= s.pcs[tid].t + Size(s) && s.tick.consHead > s.pcs[tid].t)
  {
    assert PcOk(s, s.pcs[tid]);
    if s.tick.prodTail < s.pcs[tid].t + Size(s) {
      SameResidue(s.pcs[tid].t, s.tick.prodTail, Size(s));
    }
  }

  /** While no other consumer has moved cons_head, NULL is answered exactly when the FIFO is empty. */
  lemma NullExactForLoneConsumer(s: State, tid: Tid)
    requires Inv(s) && tid in s.pcs && s.pcs[tid].PopReadTail? && s.pcs[tid].t == s.tick.consHead
    ensures Step(s, tid).pcs[tid].PopNull? <==> Queue(s) == []
  {
    assert PcOk(s, s.pcs[tid]);
    if Step(s, tid).pcs[tid].PopNull? {
      NullAnswer(s, tid);
    }
  }

  /**
   hg_atomic_queue_is_empty when cons_head was read at ticket `t` and prod_tail
   is read now (lines 254-258): the answer "empty" is right exactly when reading
   cons_head again would give the same value.  As long as the consumers have not
   gone a whole revolution since, that is when the producers have not gone one
   either.
   */
  lemma EmptyAnswerExact(s: State, t: nat)
    requires Inv(s) && s.ring.prodTail == t % Size(s)
    ensures Queue(s) == [] <==> s.ring.consHead == t % Size(s)
    ensures t <= s.tick.consHead < t + Size(s) ==> (Queue(s) == [] <==> s.tick.prodTail < t + Size(s))
    ensures |Queue(s)| == s.tick.prodTail - s.tick.consHead
  {
    if s.ring.consHead == t % Size(s) {
      SameResidue(s.tick.consHead, s.tick.prodTail, Size(s));
    }
    if t <= s.tick.consHead < t + Size(s) && s.tick.prodTail < t + Size(s) {
      SameResidue(t, s.tick.prodTail, Size(s));
    }
  }

  /** A NULL answer is right, at the step that reads prod_tail, exactly when the producers are not a whole revolution ahead. */
  lemma NullRightIff(s: State, tid: Tid)
    requires Inv(s) && tid in s.pcs && Unlapped(s, tid) && s.pcs[tid].PopReadTail? && Step(s, tid).pcs[tid].PopNull?
    ensures Queue(s) == [] <==> s.tick.prodTail < s.pcs[tid].t + Size(s)
  {
    assert PcOk(s, s.pcs[tid]);
    EmptyAnswerExact(s, s.pcs[tid].t);
  }

  /**
   hg_atomic_queue_count (262-268) when prod_tail is loaded at one instant and
   cons_tail at another, in either order: the difference of what was loaded, up
   to whole revolutions, and exactly that difference when it is between zero and
   the size.
   */
  lemma CountIsDifference(s: State, s': State)
    requires Inv(s) && Inv(s') && s.ring.mask == s'.ring.mask
    ensures Size(s) + s.ring.prodTail >= s'.ring.consTail
    ensures var count, diff := BitAnd(Size(s) + s.ring.prodTail - s'.ring.consTail, s.ring.mask), s.tick.prodTail - s'.tick.consTail;
            && count == diff % Size(s)
            && (count == diff <==> 0 <= diff < Size(s))
  {
    MaskedBySize(Size(s) + s.ring.prodTail - s'.ring.consTail, s.ring.mask);
    ResidueOfDifference(s'.tick.consTail, s.tick.prodTail, Size(s));
  }

  /** At one instant: the published entries not yet released. */
  lemma CountIsOccupancy(s: State)
    requires Inv(s)
    ensures Size(s) + s.ring.prodTail >= s.ring.consTail
    ensures BitAnd(Size(s) + s.ring.prodTail - s.ring.consTail, s.ring.mask) == s.tick.prodTail - s.tick.consTail
  {
    CountIsDifference(s, s);
  }

  /** A claim keeps the index order exactly when there is room, whatever the thread read earlier. */
  lemma ClaimKeepsBoundsIff(s: State, tid: Tid)
    requires Inv(s) && tid in s.pcs && s.pcs[tid].PushCas? && s.ring.prodHead == s.pcs[tid].h
    ensures Inv(Step(s, tid)) <==> Outstanding(s) < s.ring.mask
  {
    if Outstanding(s) < s.ring.mask {
      PushClaimKeepsInv(s, tid);
    }
  }
}
