/**
 The two-tier completion queue of src/mercury_core.c on top of the ring:
 hg_core_completion_add (any number of threads), hg_core_trigger (one thread)
 and the waiting part of hg_core_progress (one thread), one atomic action per
 step.  The two mutexes are explicit.
 */
module Completion {
  import opened Sums
  import Masking
  import Q = AtomicQueue

  type Tid = Q.Tid
  type Entry = Q.Entry

  /** The trigger thread's name inside the ring; adders have other names. */
  const TRIGGER: Tid := 0

  datatype Lock = Free | HeldByAdder(tid: Tid) | HeldByTrigger | HeldByProgress

  /** hg_core_completion_add (lines 3628-3672). */
  datatype AddPc =
    | AddPush(e: Entry)      // inside hg_atomic_queue_push
    | AddBackfill(e: Entry)  // lock, push onto the backfill queue
    | AddCount(e: Entry)     // increment the count, unlock
    | AddSignal(e: Entry)    // signal the trigger condition under the lock
    | AddNotify(e: Entry)    // lock the notify mutex
    | AddTest(e: Entry)      // read completion_queue_must_notify
    | AddEvent(e: Entry)     // hg_event_set
    | AddUnlock(e: Entry)

  /** hg_core_trigger (lines 3966-4044). */
  datatype TrigPc =
    | TrigIdle
    | TrigPop                  // inside hg_atomic_queue_pop_mc
    | TrigCheck                // read backfill_queue_count
    | TrigTake                 // lock, take the head of the backfill queue
    | TrigUncount(e: Entry)    // decrement the count, unlock
    | TrigRun(e: Entry)        // run the entry's callback
    | TrigLock                 // lock before waiting
    | TrigFirst                // first load of hg_atomic_queue_is_empty
    | TrigSecond(v: nat, t: nat)
    | TrigRecount              // read backfill_queue_count again
    | TrigWait                 // in hg_thread_cond_timedwait, lock released
    | TrigUnlock

  /** hg_core_progress with a timeout and a poll set (lines 3693-3774, 3944). */
  datatype ProgPc =
    | ProgIdle
    | ProgLock
    | ProgFirst
    | ProgSecond(v: nat, t: nat)
    | ProgCount
    | ProgNa                   // NA_Poll_try_wait
    | ProgArm                  // completion_queue_must_notify := 1
    | ProgUnlock(wait: bool)
    | ProgBlocked              // in hg_poll_wait
    | ProgDisarm               // completion_queue_must_notify := 0
    | ProgGet                  // hg_event_get if the loopback event was reported

  datatype Tier = Tier(queue: seq<Entry>, count: int)

  datatype Mutexes = Mutexes(completion: Lock, notify: Lock)

  /** completion_queue_must_notify, the loopback event's count, and whether a waiting trigger was signalled. */
  datatype Flags = Flags(mustNotify: bool, event: nat, woken: bool)

  /** Who added entry number i; the entries whose adder has signalled, and has returned. */
  datatype History = History(
    owner: seq<Tid>, added: multiset<Entry>, triggered: seq<Entry>,
    signalled: set<Entry>, returned: set<Entry>)

  /**
   `tailFirst` is the order in which the two loads of hg_atomic_queue_is_empty
   are made, which C leaves open.
   */
  datatype Context = Context(
    ring: Q.State, backfill: Tier, locks: Mutexes, flags: Flags,
    adds: map<Tid, AddPc>, trig: TrigPc, prog: ProgPc,
    tailFirst: bool, hist: History)

  datatype Action =
    | DoAdd(tid: Tid, selfNotify: bool)
    | DoAddStep(tid: Tid)
    | DoTrigger(choice: bool)
    | DoProgress(choice: bool)

  // ---------------------------------------------------------------- adders

  function Add(c: Context, tid: Tid, pc: AddPc): Context
  {
    c.(adds := c.adds[tid := pc])
  }

  predicate AddEnabled(c: Context, tid: Tid)
  {
    tid in c.adds &&
    match c.adds[tid]
    case AddPush(_) => tid in c.ring.pcs
    case AddBackfill(_) => c.locks.completion == Free
    case AddSignal(_) => c.locks.completion == Free
    case AddNotify(_) => c.locks.notify == Free
    case _ => true
  }

  /** Lines 3643-3645: one ring step, or the push's return. */
  function PushTurn(c: Context, tid: Tid, e: Entry): Context
    requires tid in c.ring.pcs
  {
    var pc := c.ring.pcs[tid];
    if pc.PushOk? then Add(c.(ring := Q.Return(c.ring, tid)), tid, AddSignal(e))
    else if pc.PushFull? then Add(c.(ring := Q.Return(c.ring, tid)), tid, AddBackfill(e))
    else c.(ring := Q.Step(c.ring, tid))
  }

  function BackfillTurn(c: Context, tid: Tid, e: Entry): Context
  {
    Add(
      c.(locks := c.locks.(completion := HeldByAdder(tid)), backfill := c.backfill.(queue := c.backfill.queue + [e])),
      tid, AddCount(e))
  }

  function CountTurn(c: Context, tid: Tid, e: Entry): Context
  {
    Add(
      c.(locks := c.locks.(completion := Free), backfill := c.backfill.(count := c.backfill.count + 1)),
      tid, AddSignal(e))
  }

  function Leave(c: Context, tid: Tid, e: Entry): Context
  {
    c.(adds := c.adds - {tid}, hist := c.hist.(returned := c.hist.returned + {e}))
  }

  /** Signalling wakes a trigger that waits; it is remembered by nobody else. */
  function SignalTurn(c: Context, tid: Tid, e: Entry): Context
  {
    var c' := c.(
      flags := c.flags.(woken := c.flags.woken || c.trig.TrigWait?),
      hist := c.hist.(signalled := c.hist.signalled + {e}));
    if e.selfNotify then Add(c', tid, AddNotify(e)) else Leave(c', tid, e)
  }

  function NotifyTurn(c: Context, tid: Tid, e: Entry): Context
  {
    Add(c.(locks := c.locks.(notify := HeldByAdder(tid))), tid, AddTest(e))
  }

  function TestTurn(c: Context, tid: Tid, e: Entry): Context
  {
    Add(c, tid, if c.flags.mustNotify then AddEvent(e) else AddUnlock(e))
  }

  function EventTurn(c: Context, tid: Tid, e: Entry): Context
  {
    Add(c.(flags := c.flags.(event := c.flags.event + 1)), tid, AddUnlock(e))
  }

  function UnlockTurn(c: Context, tid: Tid, e: Entry): Context
  {
    Leave(c.(locks := c.locks.(notify := Free)), tid, e)
  }

  function AddStep(c: Context, tid: Tid): Context
    requires AddEnabled(c, tid)
  {
    match c.adds[tid]
    case AddPush(e) => PushTurn(c, tid, e)
    case AddBackfill(e) => BackfillTurn(c, tid, e)
    case AddCount(e) => CountTurn(c, tid, e)
    case AddSignal(e) => SignalTurn(c, tid, e)
    case AddNotify(e) => NotifyTurn(c, tid, e)
    case AddTest(e) => TestTurn(c, tid, e)
    case AddEvent(e) => EventTurn(c, tid, e)
    case AddUnlock(e) => UnlockTurn(c, tid, e)
  }

  function StartAdd(c: Context, tid: Tid, selfNotify: bool): Context
  {
    var e := Q.Entry(|c.hist.owner|, selfNotify);
    Add(
      c.(ring := Q.CallPush(c.ring, tid, e),
      hist := c.hist.(owner := c.hist.owner + [tid], added := c.hist.added + multiset{e})),
      tid, AddPush(e))
  }

  // --------------------------------------------------------------- trigger

  predicate TrigEnabled(c: Context)
  {
    match c.trig
    case TrigIdle => TRIGGER !in c.ring.pcs
    case TrigPop => TRIGGER in c.ring.pcs
    case TrigTake => c.locks.completion == Free
    case TrigLock => c.locks.completion == Free
    case TrigWait => c.locks.completion == Free
    case _ => true
  }

  /** The two loads of hg_atomic_queue_is_empty. */
  function FirstLoad(c: Context): (nat, nat)
  {
    if c.tailFirst then (c.ring.ring.prodTail, c.ring.tick.prodTail)
    else (c.ring.ring.consHead, c.ring.tick.consHead)
  }

  function SecondLoad(c: Context): nat
  {
    if c.tailFirst then c.ring.ring.consHead else c.ring.ring.prodTail
  }

  /** Lines 3969-3970: one ring step, or the pop's return. */
  function PopTurn(c: Context): Context
    requires TRIGGER in c.ring.pcs
  {
    var pc := c.ring.pcs[TRIGGER];
    if pc.PopGot? then c.(ring := Q.Return(c.ring, TRIGGER), trig := TrigRun(pc.e))
    else if pc.PopNull? then c.(ring := Q.Return(c.ring, TRIGGER), trig := TrigCheck)
    else c.(ring := Q.Step(c.ring, TRIGGER))
  }

  /** HG_QUEUE_FIRST and HG_QUEUE_POP_HEAD leave an empty queue alone. */
  function TakeTurn(c: Context): Context
  {
    var q := c.backfill;
    if q.queue == [] then c.(trig := TrigIdle, backfill := q.(count := q.count - 1))
    else
      c.(locks := c.locks.(completion := HeldByTrigger), backfill := q.(queue := q.queue[1..]),
      trig := TrigUncount(q.queue[0]))
  }

  /** `choice` decides between leaving and waiting when nothing was found, and when a wait ends. */
  function TrigStep(c: Context, choice: bool): Context
    requires TrigEnabled(c)
  {
    var q := c.backfill;
    match c.trig
    case TrigIdle => c.(ring := Q.CallPop(c.ring, TRIGGER), trig := TrigPop)
    case TrigPop => PopTurn(c)
    case TrigCheck => c.(trig := if q.count != 0 then TrigTake else if choice then TrigLock else TrigIdle)
    case TrigTake => TakeTurn(c)
    case TrigUncount(e) =>
      c.(locks := c.locks.(completion := Free), backfill := q.(count := q.count - 1), trig := TrigRun(e))
    case TrigRun(e) => c.(hist := c.hist.(triggered := c.hist.triggered + [e]), trig := TrigIdle)
    case TrigLock => c.(locks := c.locks.(completion := HeldByTrigger), trig := TrigFirst)
    case TrigFirst => c.(trig := TrigSecond(FirstLoad(c).0, FirstLoad(c).1))
    case TrigSecond(v, t) => c.(trig := if SecondLoad(c) == v then TrigRecount else TrigUnlock)
    case TrigRecount =>
      if q.count == 0 then
        c.(locks := c.locks.(completion := Free), flags := c.flags.(woken := false), trig := TrigWait)
      else c.(trig := TrigUnlock)
    case TrigWait =>
      // signalled, timed out or woken spuriously: the wait re-takes the lock
      if c.flags.woken || choice then c.(locks := c.locks.(completion := HeldByTrigger), trig := TrigUnlock) else c
    case TrigUnlock => c.(locks := c.locks.(completion := Free), trig := TrigIdle)
  }

  // -------------------------------------------------------------- progress

  predicate ProgEnabled(c: Context)
  {
    c.prog.ProgLock? ==> c.locks.notify == Free
  }

  /** `choice`: the answer of NA_Poll_try_wait, whether hg_poll_wait returns, whether it reported the loopback event. */
  function ProgStep(c: Context, choice: bool): Context
    requires ProgEnabled(c)
  {
    match c.prog
    case ProgIdle => c.(prog := ProgLock)
    case ProgLock => c.(locks := c.locks.(notify := HeldByProgress), prog := ProgFirst)
    case ProgFirst => c.(prog := ProgSecond(FirstLoad(c).0, FirstLoad(c).1))
    case ProgSecond(v, t) => c.(prog := if SecondLoad(c) == v then ProgCount else ProgUnlock(false))
    case ProgCount => c.(prog := if c.backfill.count > 0 then ProgUnlock(false) else ProgNa)
    case ProgNa => c.(prog := if choice then ProgArm else ProgUnlock(false))
    case ProgArm => c.(flags := c.flags.(mustNotify := true), prog := ProgUnlock(true))
    case ProgUnlock(wait) => c.(locks := c.locks.(notify := Free), prog := if wait then ProgBlocked else ProgIdle)
    case ProgBlocked => if choice then c.(prog := ProgDisarm) else c
    case ProgDisarm => c.(flags := c.flags.(mustNotify := false), prog := ProgGet)
    case ProgGet =>
      c.(flags := if choice && c.flags.event > 0 then c.flags.(event := c.flags.event - 1) else c.flags, prog := ProgIdle)
  }

  // ------------------------------------------------------------------ runs

  predicate Enabled(c: Context, a: Action)
  {
    match a
    case DoAdd(tid, _) => tid != TRIGGER && tid !in c.adds && tid !in c.ring.pcs
    case DoAddStep(tid) => AddEnabled(c, tid)
    case DoTrigger(_) => TrigEnabled(c)
    case DoProgress(_) => ProgEnabled(c)
  }

  function Apply(c: Context, a: Action): Context
    requires Enabled(c, a)
  {
    match a
    case DoAdd(tid, selfNotify) => StartAdd(c, tid, selfNotify)
    case DoAddStep(tid) => AddStep(c, tid)
    case DoTrigger(choice) => TrigStep(c, choice)
    case DoProgress(choice) => ProgStep(c, choice)
  }

  ghost predicate Init(c: Context)
  {
    && Q.Init(c.ring)
    && c.backfill.queue == [] && c.backfill.count == 0
    && c.locks.completion == Free && c.locks.notify == Free
    && !c.flags.mustNotify && c.flags.event == 0 && !c.flags.woken
    && c.adds == map[] && c.trig == TrigIdle && c.prog == ProgIdle
    && c.hist.owner == [] && c.hist.added == multiset{} && c.hist.triggered == [] && c.hist.signalled == {} && c.hist.returned == {}
  }

  // -------------------------------------------------- structural invariant

  predicate IsPush(pc: Q.Pc)
  {
    pc.PushReadHead? || Q.HoldsProdHead(pc) || Q.ClaimedPush(pc) || pc.PushOk? || pc.PushFull?
  }

  predicate IsPop(pc: Q.Pc)
  {
    pc.PopReadHead? || Q.HoldsConsHead(pc) || Q.ClaimedPop(pc) || pc.PopGot? || pc.PopNull?
  }

  /** Which threads are inside a ring call, and with which entry. */
  ghost predicate Callers(c: Context)
  {
    && TRIGGER !in c.adds
    && (TRIGGER in c.ring.pcs <==> c.trig.TrigPop?)
    && (TRIGGER in c.ring.pcs ==> IsPop(c.ring.pcs[TRIGGER]))
    && (forall tid :: tid in c.ring.pcs && tid != TRIGGER ==> tid in c.adds && c.adds[tid].AddPush?)
    && (forall tid :: tid in c.adds && c.adds[tid].AddPush? ==>
          tid in c.ring.pcs && IsPush(c.ring.pcs[tid]) && c.ring.pcs[tid].e == c.adds[tid].e)
  }

  /** The trigger is the only consumer, so its view of cons_head is current. */
  ghost predicate LoneConsumer(c: Context)
  {
    var k := c.ring.tick;
    && (TRIGGER in c.ring.pcs && Q.HoldsConsHead(c.ring.pcs[TRIGGER]) ==> c.ring.pcs[TRIGGER].t == k.consHead)
    && (TRIGGER in c.ring.pcs && Q.ClaimedPop(c.ring.pcs[TRIGGER]) ==>
          c.ring.pcs[TRIGGER].t == k.consTail && k.consHead == k.consTail + 1)
    && (!(TRIGGER in c.ring.pcs && Q.ClaimedPop(c.ring.pcs[TRIGGER])) ==> k.consHead == k.consTail)
  }

  predicate BeforeSignal(pc: AddPc)
  {
    pc.AddPush? || pc.AddBackfill? || pc.AddCount? || pc.AddSignal?
  }

  ghost predicate IdOk(c: Context, tid: Tid, pc: AddPc)
  {
    && pc.e.id < |c.hist.owner| && c.hist.owner[pc.e.id] == tid
    && pc.e !in c.hist.returned
    && (BeforeSignal(pc) <==> pc.e !in c.hist.signalled)
  }

  ghost predicate Ids(c: Context)
  {
    && (forall tid :: tid in c.adds ==> IdOk(c, tid, c.adds[tid]))
    && c.hist.returned <= c.hist.signalled
    && (forall e :: e in c.hist.signalled ==> e.id < |c.hist.owner|)
  }

  predicate InNotify(pc: AddPc)
  {
    pc.AddTest? || pc.AddEvent? || pc.AddUnlock?
  }

  predicate TrigHolds(pc: TrigPc)
  {
    pc.TrigUncount? || pc.TrigFirst? || pc.TrigSecond? || pc.TrigRecount? || pc.TrigUnlock?
  }

  predicate ProgHolds(pc: ProgPc)
  {
    pc.ProgFirst? || pc.ProgSecond? || pc.ProgCount? || pc.ProgNa? || pc.ProgArm? || pc.ProgUnlock?
  }

  ghost predicate CompletionMutex(c: Context)
  {
    && (forall tid :: tid in c.adds && c.adds[tid].AddCount? ==> c.locks.completion == HeldByAdder(tid))
    && (c.locks.completion.HeldByAdder? ==> c.locks.completion.tid in c.adds && c.adds[c.locks.completion.tid].AddCount?)
    && (c.locks.completion.HeldByTrigger? <==> TrigHolds(c.trig))
    && !c.locks.completion.HeldByProgress?
  }

  ghost predicate NotifyMutex(c: Context)
  {
    && (forall tid :: tid in c.adds && InNotify(c.adds[tid]) ==> c.locks.notify == HeldByAdder(tid))
    && (c.locks.notify.HeldByAdder? ==> c.locks.notify.tid in c.adds && InNotify(c.adds[c.locks.notify.tid]))
    && (c.locks.notify.HeldByProgress? <==> ProgHolds(c.prog))
    && !c.locks.notify.HeldByTrigger?
  }

  ghost predicate Locks(c: Context)
  {
    CompletionMutex(c) && NotifyMutex(c)
  }

  /** The count is the length, except between the two actions of a critical section. */
  ghost predicate Counted(c: Context)
  {
    && c.backfill.count == |c.backfill.queue| - (if c.locks.completion.HeldByAdder? then 1 else 0) + (if c.trig.TrigUncount? then 1 else 0)
    && (c.locks.completion.HeldByAdder? && c.locks.completion.tid in c.adds ==>
          |c.backfill.queue| > 0 && c.backfill.queue[|c.backfill.queue| - 1] == c.adds[c.locks.completion.tid].e)
    && (c.trig.TrigTake? ==> |c.backfill.queue| > 0)
  }

  ghost predicate Links(c: Context)
  {
    Callers(c) && LoneConsumer(c) && Ids(c) && Locks(c) && Counted(c)
  }

  ghost predicate Structure(c: Context)
  {
    Q.Inv(c.ring) && Links(c)
  }

  /** The ring hypothesis, for producers only. */
  ghost predicate ProducersUnlapped(c: Context)
  {
    forall tid :: tid in c.ring.pcs && Q.HoldsProdHead(c.ring.pcs[tid]) ==>
      c.ring.tick.prodHead < c.ring.pcs[tid].t + Q.Size(c.ring)
  }

  lemma UnlappedRing(c: Context)
    requires Structure(c) && ProducersUnlapped(c)
    ensures Q.NoLap(c.ring)
  {
    forall tid | tid in c.ring.pcs && Q.HoldsConsHead(c.ring.pcs[tid])
      ensures c.ring.tick.consHead < c.ring.pcs[tid].t + Q.Size(c.ring)
    {
      assert tid == TRIGGER;
    }
  }

  /** What one ring step by `tid` does to the program counters ... */
  lemma StepMoves(s: Q.State, tid: Tid)
    requires tid in s.pcs && !Q.Finished(s.pcs[tid])
    ensures var s', pc := Q.Step(s, tid), s.pcs[tid];
            && s'.pcs.Keys == s.pcs.Keys && (forall a :: a in s.pcs && a != tid ==> s'.pcs[a] == s.pcs[a])
            && s'.ring.mask == s.ring.mask
            && (IsPush(pc) ==> IsPush(s'.pcs[tid]) && s'.pcs[tid].e == pc.e)
            && (IsPop(pc) ==> IsPop(s'.pcs[tid]))
  {
  }

  predicate ClaimsSlot(s: Q.State, pc: Q.Pc)
  {
    pc.PushCas? && s.ring.prodHead == pc.h
  }

  predicate ClaimsEntry(s: Q.State, pc: Q.Pc)
  {
    pc.PopCas? && s.ring.consHead == pc.h
  }

  /** ... and to the tickets. */
  lemma StepTicks(s: Q.State, tid: Tid)
    requires tid in s.pcs && !Q.Finished(s.pcs[tid])
    ensures var k, k', pc := s.tick, Q.Step(s, tid).tick, s.pcs[tid];
            && k'.log == (if ClaimsSlot(s, pc) then k.log + [pc.e] else k.log)
            && k'.prodHead == (if ClaimsSlot(s, pc) then k.prodHead + 1 else k.prodHead)
            && k'.prodTail == (if pc.PushPublish? then k.prodTail + 1 else k.prodTail)
            && k'.consHead == (if ClaimsEntry(s, pc) then k.consHead + 1 else k.consHead)
            && k'.consTail == (if pc.PopPublish? then k.consTail + 1 else k.consTail)
  {
  }

  lemma PublishedEntry(s: Q.State, tid: Tid)
    requires Q.Inv(s) && tid in s.pcs && s.pcs[tid].PushPublish?
    ensures s.tick.prodTail < |s.tick.log| && s.tick.log[s.tick.prodTail] == s.pcs[tid].e
  {
    assert Q.PcOk(s, s.pcs[tid]);
  }

  // ------------------------------------------- the structure is preserved

  /** Nothing but `tid`'s own counter differs. */
  ghost predicate Only(m: map<Tid, AddPc>, m': map<Tid, AddPc>, tid: Tid)
  {
    forall a :: a != tid ==> (a in m <==> a in m') && (a in m ==> m'[a] == m[a])
  }

  lemma CallersFrame(c: Context, c': Context, tid: Tid)
    requires Callers(c) && LoneConsumer(c) && tid != TRIGGER && Only(c.adds, c'.adds, tid)
    requires c'.trig == c.trig && c'.ring == Q.Return(c.ring, tid)
    requires tid in c'.adds ==> !c'.adds[tid].AddPush?
    ensures Callers(c') && LoneConsumer(c')
  {
  }

  lemma IdsFrame(c: Context, c': Context, tid: Tid)
    requires Ids(c) && tid in c.adds && Only(c.adds, c'.adds, tid) && c'.hist.owner == c.hist.owner
    requires tid in c'.adds ==> c'.adds[tid].e == c.adds[tid].e && c'.hist.returned == c.hist.returned && !BeforeSignal(c'.adds[tid])
    requires c.hist.returned <= c'.hist.returned <= c.hist.returned + {c.adds[tid].e}
    requires c'.hist.signalled == c.hist.signalled + {c.adds[tid].e}
    ensures Ids(c')
  {
    forall a | a in c'.adds
      ensures IdOk(c', a, c'.adds[a])
    {
      assert IdOk(c, a, c.adds[a]) && IdOk(c, tid, c.adds[tid]);
    }
  }

  lemma SameIds(c: Context, c': Context, tid: Tid)
    requires Ids(c) && tid in c.adds && tid in c'.adds && Only(c.adds, c'.adds, tid) && c'.hist.owner == c.hist.owner
    requires c'.adds[tid].e == c.adds[tid].e && (BeforeSignal(c'.adds[tid]) <==> BeforeSignal(c.adds[tid]))
    requires c'.hist.returned == c.hist.returned && c'.hist.signalled == c.hist.signalled
    ensures Ids(c')
  {
    forall a | a in c'.adds
      ensures IdOk(c', a, c'.adds[a])
    {
      assert IdOk(c, a, c.adds[a]);
    }
  }

  lemma NotInRing(c: Context, tid: Tid)
    requires Callers(c) && tid in c.adds && !c.adds[tid].AddPush?
    ensures Q.Return(c.ring, tid) == c.ring
  {
    assert tid !in c.ring.pcs;
  }

  /** A counter moves outside both critical sections. */
  lemma LocksFrame(c: Context, c': Context, tid: Tid)
    requires Locks(c) && Counted(c) && Only(c.adds, c'.adds, tid)
    requires tid in c.adds ==> !c.adds[tid].AddCount? && !InNotify(c.adds[tid])
    requires tid in c'.adds ==> !c'.adds[tid].AddCount? && !InNotify(c'.adds[tid])
    requires c'.locks.completion == c.locks.completion && c'.locks.notify == c.locks.notify
    requires c'.trig == c.trig && c'.prog == c.prog && c'.backfill.queue == c.backfill.queue && c'.backfill.count == c.backfill.count
    ensures Locks(c') && Counted(c')
  {
  }

  lemma MoveKeepsLinks(c: Context, c': Context, tid: Tid, pc: AddPc)
    requires Links(c) && tid in c.adds && !c.adds[tid].AddCount? && !InNotify(c.adds[tid]) && BeforeSignal(c.adds[tid])
    requires pc.e == c.adds[tid].e && (pc.AddSignal? || pc.AddBackfill?)
    requires c' == c.(ring := Q.Return(c.ring, tid), adds := c.adds[tid := pc])
    ensures Links(c')
  {
    CallersFrame(c, c', tid);
    SameIds(c, c', tid);
    LocksFrame(c, c', tid);
  }

  /** A ring step of an adder that is still pushing. */
  lemma PushStepKeepsLinks(c: Context, tid: Tid, e: Entry)
    requires Links(c) && tid in c.adds && c.adds[tid] == AddPush(e) && tid in c.ring.pcs && !Q.Finished(c.ring.pcs[tid])
    ensures Links(PushTurn(c, tid, e))
  {
    var c' := PushTurn(c, tid, e);
    StepMoves(c.ring, tid);
    StepTicks(c.ring, tid);
    assert c'.ring == Q.Step(c.ring, tid);
    assert TRIGGER in c'.ring.pcs ==> c'.ring.pcs[TRIGGER] == c.ring.pcs[TRIGGER];
    LocksFrame(c, c', tid);
    SameIds(c, c', tid);
  }

  lemma PushDoneKeepsLinks(c: Context, tid: Tid, e: Entry)
    requires Links(c) && tid in c.adds && c.adds[tid] == AddPush(e) && tid in c.ring.pcs && Q.Finished(c.ring.pcs[tid])
    ensures Links(PushTurn(c, tid, e))
  {
    assert Callers(c);
    var pc := if c.ring.pcs[tid].PushOk? then AddSignal(e) else AddBackfill(e);
    var c' := Add(c.(ring := Q.Return(c.ring, tid)), tid, pc);
    assert PushTurn(c, tid, e) == c';
    MoveKeepsLinks(c, c', tid, pc);
  }

  lemma BackfillKeepsLinks(c: Context, tid: Tid, e: Entry)
    requires Links(c) && tid in c.adds && c.adds[tid] == AddBackfill(e) && c.locks.completion == Free
    ensures Links(BackfillTurn(c, tid, e))
  {
    var c' := BackfillTurn(c, tid, e);
    NotInRing(c, tid);
    CallersFrame(c, c', tid);
    SameIds(c, c', tid);
  }

  lemma CountKeepsLinks(c: Context, tid: Tid, e: Entry)
    requires Links(c) && tid in c.adds && c.adds[tid] == AddCount(e)
    ensures Links(CountTurn(c, tid, e))
  {
    var c' := CountTurn(c, tid, e);
    NotInRing(c, tid);
    CallersFrame(c, c', tid);
    SameIds(c, c', tid);
  }

  lemma SignalMoves(c: Context, tid: Tid, e: Entry)
    requires tid in c.adds && c.adds[tid] == AddSignal(e)
    ensures var c' := SignalTurn(c, tid, e);
            && Only(c.adds, c'.adds, tid)
            && (tid in c'.adds ==> c'.adds[tid] == AddNotify(e) && c'.hist.returned == c.hist.returned)
            && c'.ring == c.ring && c'.locks == c.locks && c'.trig == c.trig && c'.prog == c.prog && c'.backfill == c.backfill
            && c'.hist.owner == c.hist.owner && c'.hist.signalled == c.hist.signalled + {e}
            && c.hist.returned <= c'.hist.returned <= c.hist.returned + {e}
  {
  }

  lemma SignalKeepsLinks(c: Context, tid: Tid, e: Entry)
    requires Links(c) && tid in c.adds && c.adds[tid] == AddSignal(e)
    ensures Links(SignalTurn(c, tid, e))
  {
    var c' := SignalTurn(c, tid, e);
    NotInRing(c, tid);
    SignalMoves(c, tid, e);
    CallersFrame(c, c', tid);
    IdsFrame(c, c', tid);
    LocksFrame(c, c', tid);
  }

  lemma NotifyKeepsLinks(c: Context, tid: Tid, e: Entry)
    requires Links(c) && tid in c.adds && c.adds[tid] == AddNotify(e) && c.locks.notify == Free
    ensures Links(NotifyTurn(c, tid, e))
  {
    var c' := NotifyTurn(c, tid, e);
    NotInRing(c, tid);
    CallersFrame(c, c', tid);
    SameIds(c, c', tid);
  }

  lemma TestKeepsLinks(c: Context, tid: Tid, e: Entry)
    requires Links(c) && tid in c.adds && c.adds[tid] == AddTest(e)
    ensures Links(TestTurn(c, tid, e))
  {
    var c' := TestTurn(c, tid, e);
    NotInRing(c, tid);
    CallersFrame(c, c', tid);
    SameIds(c, c', tid);
  }

  lemma EventKeepsLinks(c: Context, tid: Tid, e: Entry)
    requires Links(c) && tid in c.adds && c.adds[tid] == AddEvent(e)
    ensures Links(EventTurn(c, tid, e))
  {
    var c' := EventTurn(c, tid, e);
    NotInRing(c, tid);
    CallersFrame(c, c', tid);
    SameIds(c, c', tid);
  }

  lemma UnlockKeepsLinks(c: Context, tid: Tid, e: Entry)
    requires Links(c) && tid in c.adds && c.adds[tid] == AddUnlock(e)
    ensures Links(UnlockTurn(c, tid, e))
  {
    var c' := UnlockTurn(c, tid, e);
    NotInRing(c, tid);
    CallersFrame(c, c', tid);
    assert IdOk(c, tid, c.adds[tid]);
    IdsFrame(c, c', tid);
  }

  lemma StartAddKeepsLinks(c: Context, tid: Tid, selfNotify: bool)
    requires Links(c) && Enabled(c, DoAdd(tid, selfNotify))
    ensures Links(StartAdd(c, tid, selfNotify))
  {
    var c' := StartAdd(c, tid, selfNotify);
    assert Callers(c') && LoneConsumer(c');
    forall a | a in c'.adds
      ensures IdOk(c', a, c'.adds[a])
    {
      assert a != tid ==> IdOk(c, a, c.adds[a]);
    }
    LocksFrame(c, c', tid);
  }

  /** A ring step of the trigger's pop. */
  lemma PopStepKeepsLinks(c: Context)
    requires Links(c) && c.trig.TrigPop? && TRIGGER in c.ring.pcs && !Q.Finished(c.ring.pcs[TRIGGER])
    ensures Links(TrigStep(c, true)) && TrigStep(c, false) == TrigStep(c, true)
  {
    var c' := TrigStep(c, true);
    StepMoves(c.ring, TRIGGER);
    StepTicks(c.ring, TRIGGER);
    assert c' == c.(ring := Q.Step(c.ring, TRIGGER));
    assert Callers(c');
    assert LoneConsumer(c');
  }

  lemma StartPopKeepsLinks(c: Context)
    requires Links(c) && c.trig.TrigIdle? && TRIGGER !in c.ring.pcs
    ensures Links(c.(ring := Q.CallPop(c.ring, TRIGGER), trig := TrigPop))
  {
    var c' := c.(ring := Q.CallPop(c.ring, TRIGGER), trig := TrigPop);
    assert Callers(c') && LoneConsumer(c');
  }

  lemma PopDoneKeepsLinks(c: Context, pc: TrigPc)
    requires Links(c) && c.trig.TrigPop? && TRIGGER in c.ring.pcs && Q.Finished(c.ring.pcs[TRIGGER])
    requires pc.TrigRun? || pc.TrigCheck?
    ensures Links(c.(ring := Q.Return(c.ring, TRIGGER), trig := pc))
  {
    var c' := c.(ring := Q.Return(c.ring, TRIGGER), trig := pc);
    assert Callers(c') && LoneConsumer(c');
  }

  lemma PopEdgeKeepsLinks(c: Context, choice: bool)
    requires Links(c) && TrigEnabled(c)
    requires c.trig.TrigIdle? || (c.trig.TrigPop? && Q.Finished(c.ring.pcs[TRIGGER]))
    ensures Links(TrigStep(c, choice))
  {
    if c.trig.TrigIdle? {
      StartPopKeepsLinks(c);
    } else {
      PopDoneKeepsLinks(c, TrigStep(c, choice).trig);
    }
  }

  lemma SameAdders(c: Context, c': Context)
    requires Callers(c) && LoneConsumer(c) && Ids(c) && (c.trig.TrigPop? <==> c'.trig.TrigPop?)
    requires c'.ring == c.ring && c'.adds == c.adds && c'.hist.owner == c.hist.owner
    requires c'.hist.returned == c.hist.returned && c'.hist.signalled == c.hist.signalled
    ensures Callers(c') && LoneConsumer(c') && Ids(c')
  {
    forall a | a in c'.adds
      ensures IdOk(c', a, c'.adds[a])
    {
      assert IdOk(c, a, c.adds[a]);
    }
  }

  lemma TrigTakeKeepsMutex(c: Context, choice: bool)
    requires CompletionMutex(c) && Counted(c) && TrigEnabled(c)
    requires c.trig.TrigCheck? || c.trig.TrigTake? || c.trig.TrigUncount? || c.trig.TrigRun?
    ensures CompletionMutex(TrigStep(c, choice)) && Counted(TrigStep(c, choice))
  {
  }

  lemma TrigWaitKeepsMutex(c: Context, choice: bool)
    requires CompletionMutex(c) && Counted(c) && TrigEnabled(c)
    requires c.trig.TrigLock? || c.trig.TrigFirst? || c.trig.TrigSecond? || c.trig.TrigRecount? || c.trig.TrigWait? || c.trig.TrigUnlock?
    ensures CompletionMutex(TrigStep(c, choice)) && Counted(TrigStep(c, choice))
  {
  }

  lemma TrigStepKeepsLinks(c: Context, choice: bool)
    requires Links(c) && TrigEnabled(c) && !c.trig.TrigIdle? && !c.trig.TrigPop?
    ensures Links(TrigStep(c, choice))
  {
    var c' := TrigStep(c, choice);
    SameAdders(c, c');
    if c.trig.TrigCheck? || c.trig.TrigTake? || c.trig.TrigUncount? || c.trig.TrigRun? {
      TrigTakeKeepsMutex(c, choice);
    } else {
      TrigWaitKeepsMutex(c, choice);
    }
    SameNotifyMutex(c, c');
  }

  lemma SameNotifyMutex(c: Context, c': Context)
    requires NotifyMutex(c) && c'.adds == c.adds && c'.locks.notify == c.locks.notify && c'.prog == c.prog
    ensures NotifyMutex(c')
  {
  }

  lemma SameCompletionMutex(c: Context, c': Context)
    requires CompletionMutex(c) && Counted(c) && c'.adds == c.adds && c'.locks.completion == c.locks.completion && c'.trig == c.trig
    requires c'.backfill.queue == c.backfill.queue && c'.backfill.count == c.backfill.count
    ensures CompletionMutex(c') && Counted(c')
  {
  }

  lemma ProgKeepsMutex(c: Context, choice: bool)
    requires NotifyMutex(c) && ProgEnabled(c)
    ensures NotifyMutex(ProgStep(c, choice))
  {
  }

  lemma ProgChanges(c: Context, choice: bool)
    requires ProgEnabled(c)
    ensures var c' := ProgStep(c, choice);
            c' == c.(locks := c'.locks, flags := c'.flags, prog := c'.prog) && c'.locks.completion == c.locks.completion
  {
  }

  lemma ProgStepKeepsLinks(c: Context, choice: bool)
    requires Links(c) && ProgEnabled(c)
    ensures Links(ProgStep(c, choice))
  {
    var c' := ProgStep(c, choice);
    ProgChanges(c, choice);
    SameAdders(c, c');
    ProgKeepsMutex(c, choice);
    SameCompletionMutex(c, c');
  }

  lemma AddStepKeepsLinks(c: Context, tid: Tid)
    requires Links(c) && AddEnabled(c, tid)
    ensures Links(AddStep(c, tid))
  {
    match c.adds[tid]
    case AddPush(e) =>
      if Q.Finished(c.ring.pcs[tid]) {
        PushDoneKeepsLinks(c, tid, e);
      } else {
        PushStepKeepsLinks(c, tid, e);
      }
    case AddBackfill(e) => BackfillKeepsLinks(c, tid, e);
    case AddCount(e) => CountKeepsLinks(c, tid, e);
    case AddSignal(e) => SignalKeepsLinks(c, tid, e);
    case AddNotify(e) => NotifyKeepsLinks(c, tid, e);
    case AddTest(e) => TestKeepsLinks(c, tid, e);
    case AddEvent(e) => EventKeepsLinks(c, tid, e);
    case AddUnlock(e) => UnlockKeepsLinks(c, tid, e);
  }

  lemma TrigKeepsLinks(c: Context, choice: bool)
    requires Links(c) && TrigEnabled(c)
    ensures Links(TrigStep(c, choice))
  {
    if c.trig.TrigIdle? || (c.trig.TrigPop? && Q.Finished(c.ring.pcs[TRIGGER])) {
      PopEdgeKeepsLinks(c, choice);
    } else if c.trig.TrigPop? {
      PopStepKeepsLinks(c);
    } else {
      TrigStepKeepsLinks(c, choice);
    }
  }

  lemma ApplyKeepsLinks(c: Context, a: Action)
    requires Links(c) && Enabled(c, a)
    ensures Links(Apply(c, a))
  {
    match a
    case DoAdd(tid, selfNotify) => StartAddKeepsLinks(c, tid, selfNotify);
    case DoAddStep(tid) => AddStepKeepsLinks(c, tid);
    case DoTrigger(choice) => TrigKeepsLinks(c, choice);
    case DoProgress(choice) => ProgStepKeepsLinks(c, choice);
  }

  /** Every action is at most one action of the ring. */
  lemma ApplyKeepsRing(c: Context, a: Action)
    requires Q.Inv(c.ring) && Q.NoLap(c.ring) && Enabled(c, a)
    ensures Q.Inv(Apply(c, a).ring)
  {
    match a
    case DoAdd(tid, selfNotify) => Q.ApplyKeepsInv(c.ring, Q.DoPush(tid, Q.Entry(|c.hist.owner|, selfNotify)));
    case DoAddStep(tid) =>
      if c.adds[tid].AddPush? {
        Q.ApplyKeepsInv(c.ring, Q.DoStep(tid));
        Q.ReturnKeepsInv(c.ring, tid);
      }
    case DoTrigger(_) =>
      if c.trig.TrigIdle? {
        Q.ApplyKeepsInv(c.ring, Q.DoPop(TRIGGER));
      } else if c.trig.TrigPop? {
        Q.ApplyKeepsInv(c.ring, Q.DoStep(TRIGGER));
        Q.ReturnKeepsInv(c.ring, TRIGGER);
      }
    case DoProgress(_) =>
  }

  lemma ApplyKeepsStructure(c: Context, a: Action)
    requires Structure(c) && ProducersUnlapped(c) && Enabled(c, a)
    ensures Structure(Apply(c, a))
  {
    UnlappedRing(c);
    ApplyKeepsRing(c, a);
    ApplyKeepsLinks(c, a);
  }

  // ------------------------------------------------------------- whole runs

  ghost predicate Run(states: seq<Context>, acts: seq<Action>)
  {
    && |states| == |acts| + 1
    && Init(states[0])
    && (forall i :: 0 <= i < |acts| ==> Enabled(states[i], acts[i]) && states[i + 1] == Apply(states[i], acts[i]))
  }

  ghost predicate NeverLapped(states: seq<Context>)
  {
    forall i :: 0 <= i < |states| ==> ProducersUnlapped(states[i])
  }

  lemma {:induction false} RunsKeepStructure(states: seq<Context>, acts: seq<Action>, i: nat)
    requires Run(states, acts) && NeverLapped(states) && i < |states|
    ensures Structure(states[i])
  {
    if i == 0 {
      Q.InitInv(states[0].ring);
    } else {
      RunsKeepStructure(states, acts, i - 1);
      assert ProducersUnlapped(states[i - 1]);
      ApplyKeepsStructure(states[i - 1], acts[i - 1]);
    }
  }

  /** Outside both critical sections backfill_queue_count is the length of the backfill queue. */
  lemma CountIsLength(states: seq<Context>, acts: seq<Action>, i: nat)
    requires Run(states, acts) && NeverLapped(states) && i < |states|
    ensures states[i].locks.completion == Free ==> states[i].backfill.count == |states[i].backfill.queue|
    ensures -1 <= states[i].backfill.count - |states[i].backfill.queue| <= 1
  {
    RunsKeepStructure(states, acts, i);
  }
}
