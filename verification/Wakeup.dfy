/**
 No lost wake-up: a thread waiting in hg_core_progress or in hg_core_trigger is
 woken for every entry it has to be woken for.
 */
module Wakeup {
  import opened Completion
  import Masking
  import Q = AtomicQueue

  /** Self-notified entries whose hg_core_completion_add has returned. */
  function Stale(c: Context): set<Entry>
  {
    set e | e in c.hist.returned && e.selfNotify
  }

  /** No published, unclaimed entry with a ticket of at least `t` is in `es`. */
  ghost predicate ClearFrom(k: Q.Tickets, t: nat, es: set<Entry>)
  {
    forall u :: t <= u && k.consHead <= u < k.prodTail && u < |k.log| ==> k.log[u] !in es
  }

  ghost predicate RingClear(c: Context, es: set<Entry>)
  {
    ClearFrom(c.ring.tick, 0, es)
  }

  ghost predicate BackfillClear(c: Context, es: set<Entry>)
  {
    forall e :: e in c.backfill.queue ==> e !in es
  }

  /** Between the two loads of hg_atomic_queue_is_empty. */
  ghost predicate FirstLoadOk(c: Context, v: nat, t: nat, es: set<Entry>)
  {
    && v == t % Q.Size(c.ring)
    && (if c.tailFirst then t <= c.ring.tick.prodTail && ClearFrom(c.ring.tick, t, es) else t <= c.ring.tick.consHead)
  }

  /** Hypothesis: where the two loads agree, head first, reading cons_head once more would give the same value. */
  ghost predicate LoadsRight(c: Context)
  {
    c.prog.ProgSecond? && !c.tailFirst && SecondLoad(c) == c.prog.v ==> c.ring.ring.consHead == c.prog.v
  }

  /** That is so when the producers have not gone a whole revolution between the loads. */
  ghost predicate LoadsUnlapped(c: Context)
  {
    c.prog.ProgSecond? && !c.tailFirst ==> c.ring.tick.prodTail < c.prog.t + Q.Size(c.ring)
  }

  ghost predicate ProgressOk(c: Context)
  {
    match c.prog
    case ProgSecond(v, t) => FirstLoadOk(c, v, t, Stale(c))
    case ProgCount => RingClear(c, Stale(c))
    case ProgNa => RingClear(c, Stale(c)) && BackfillClear(c, Stale(c))
    case ProgArm => RingClear(c, Stale(c)) && BackfillClear(c, Stale(c))
    case ProgUnlock(wait) => wait ==> c.flags.mustNotify && RingClear(c, Stale(c)) && BackfillClear(c, Stale(c))
    case ProgBlocked =>
      && c.flags.mustNotify
      && (c.flags.event == 0 ==> RingClear(c, Stale(c)) && BackfillClear(c, Stale(c)))
      && (c.locks.notify.HeldByAdder? && c.locks.notify.tid in c.adds && c.adds[c.locks.notify.tid].AddUnlock? ==> c.flags.event > 0)
    case _ => true
  }

  // ----------------------------------------------------------------- frames

  /** What an adder of `e` can do to the tickets. */
  ghost predicate AdderTicks(k: Q.Tickets, k': Q.Tickets, e: Entry)
  {
    && k'.consHead == k.consHead
    && k.log <= k'.log
    && k.prodTail <= k'.prodTail <= k.prodTail + 1
    && (k'.prodTail == k.prodTail + 1 ==> k.prodTail < |k'.log| && k'.log[k.prodTail] == e)
  }

  lemma AdderKeepsClear(k: Q.Tickets, k': Q.Tickets, e: Entry, t: nat, es: set<Entry>)
    requires ClearFrom(k, t, es) && AdderTicks(k, k', e) && e !in es && k.prodTail <= |k.log|
    ensures ClearFrom(k', t, es)
  {
  }

  lemma AddStepTicks(c: Context, tid: Tid)
    requires Q.Inv(c.ring) && Callers(c) && AddEnabled(c, tid)
    ensures AdderTicks(c.ring.tick, AddStep(c, tid).ring.tick, c.adds[tid].e)
    ensures Q.Size(AddStep(c, tid).ring) == Q.Size(c.ring)
  {
    if c.adds[tid].AddPush? && !Q.Finished(c.ring.pcs[tid]) {
      StepTicks(c.ring, tid);
      StepMoves(c.ring, tid);
      if c.ring.pcs[tid].PushPublish? {
        PublishedEntry(c.ring, tid);
      }
    }
  }

  /** Consuming only removes. */
  lemma TrigStepTicks(c: Context, choice: bool)
    requires Callers(c) && TrigEnabled(c)
    ensures var k, k' := c.ring.tick, TrigStep(c, choice).ring.tick;
            k'.log == k.log && k'.prodTail == k.prodTail && k'.consHead >= k.consHead && (!c.trig.TrigPop? ==> k' == k)
    ensures Q.Size(TrigStep(c, choice).ring) == Q.Size(c.ring)
  {
    if c.trig.TrigPop? && !Q.Finished(c.ring.pcs[TRIGGER]) {
      StepTicks(c.ring, TRIGGER);
      StepMoves(c.ring, TRIGGER);
    }
  }

  lemma AddStepEffects(c: Context, tid: Tid)
    requires AddEnabled(c, tid)
    ensures var c', e := AddStep(c, tid), c.adds[tid].e;
            && c'.prog == c.prog && c'.trig == c.trig && c'.tailFirst == c.tailFirst
            && c'.flags.mustNotify == c.flags.mustNotify && c'.flags.event >= c.flags.event
            && (c'.backfill.queue == c.backfill.queue || c'.backfill.queue == c.backfill.queue + [e])
  {
  }

  lemma AddStepStale(c: Context, tid: Tid)
    requires AddEnabled(c, tid) && !c.adds[tid].AddUnlock?
    ensures Stale(AddStep(c, tid)) == Stale(c)
  {
  }

  /** A thread that is still adding `e` has not returned. */
  lemma AddingNotStale(c: Context, tid: Tid)
    requires Ids(c) && tid in c.adds
    ensures c.adds[tid].e !in Stale(c)
    ensures BeforeSignal(c.adds[tid]) ==> c.adds[tid].e !in c.hist.signalled
  {
    assert IdOk(c, tid, c.adds[tid]);
  }

  // ------------------------------------------- adders against the progress thread

  lemma AddStepKeepsClear(c: Context, tid: Tid)
    requires Structure(c) && AddEnabled(c, tid) && RingClear(c, Stale(c)) && !c.adds[tid].AddUnlock?
    ensures RingClear(AddStep(c, tid), Stale(AddStep(c, tid)))
  {
    AddStepTicks(c, tid);
    AddStepStale(c, tid);
    AddingNotStale(c, tid);
    AdderKeepsClear(c.ring.tick, AddStep(c, tid).ring.tick, c.adds[tid].e, 0, Stale(c));
  }

  lemma AddStepKeepsBackfillClear(c: Context, tid: Tid)
    requires Ids(c) && AddEnabled(c, tid) && BackfillClear(c, Stale(c)) && !c.adds[tid].AddUnlock?
    ensures BackfillClear(AddStep(c, tid), Stale(AddStep(c, tid)))
  {
    AddStepEffects(c, tid);
    AddStepStale(c, tid);
    AddingNotStale(c, tid);
  }

  lemma AddStepKeepsFirstLoad(c: Context, tid: Tid, v: nat, t: nat)
    requires Structure(c) && AddEnabled(c, tid) && FirstLoadOk(c, v, t, Stale(c)) && !c.adds[tid].AddUnlock?
    ensures FirstLoadOk(AddStep(c, tid), v, t, Stale(AddStep(c, tid)))
  {
    AddStepEffects(c, tid);
    AddStepTicks(c, tid);
    AddStepStale(c, tid);
    AddingNotStale(c, tid);
    if c.tailFirst {
      AdderKeepsClear(c.ring.tick, AddStep(c, tid).ring.tick, c.adds[tid].e, t, Stale(c));
    }
  }

  /** The last step under the notify mutex: a blocked progress thread has been sent its event. */
  lemma UnlockSeesEvent(c: Context, tid: Tid)
    requires NotifyMutex(c) && ProgressOk(c) && tid in c.adds && c.adds[tid].AddUnlock?
    ensures !ProgHolds(c.prog) && (c.prog.ProgBlocked? ==> c.flags.event > 0)
  {
    assert c.locks.notify == HeldByAdder(tid);
  }

  /** An adder never leaves the notify mutex behind a blocked progress thread without the event set. */
  lemma AddStepSetsEvent(c: Context, tid: Tid)
    requires NotifyMutex(c) && ProgressOk(c) && c.prog.ProgBlocked? && AddEnabled(c, tid)
    ensures var c' := AddStep(c, tid);
            c'.locks.notify.HeldByAdder? && c'.locks.notify.tid in c'.adds && c'.adds[c'.locks.notify.tid].AddUnlock? ==> c'.flags.event > 0
  {
    assert InNotify(c.adds[tid]) ==> c.locks.notify == HeldByAdder(tid);
  }

  lemma AddStepKeepsHeld(c: Context, tid: Tid)
    requires Structure(c) && ProgressOk(c) && AddEnabled(c, tid) && ProgHolds(c.prog)
    ensures ProgressOk(AddStep(c, tid))
  {
    AddStepEffects(c, tid);
    if c.adds[tid].AddUnlock? {
      UnlockSeesEvent(c, tid);
    }
    match c.prog
    case ProgSecond(v, t) => AddStepKeepsFirstLoad(c, tid, v, t);
    case ProgCount => AddStepKeepsClear(c, tid);
    case ProgFirst =>
    case ProgUnlock(wait) =>
      if wait {
        AddStepKeepsClear(c, tid);
        AddStepKeepsBackfillClear(c, tid);
      }
    case _ =>
      AddStepKeepsClear(c, tid);
      AddStepKeepsBackfillClear(c, tid);
  }

  lemma AddStepKeepsBlocked(c: Context, tid: Tid)
    requires Structure(c) && ProgressOk(c) && AddEnabled(c, tid) && c.prog.ProgBlocked?
    ensures ProgressOk(AddStep(c, tid))
  {
    AddStepEffects(c, tid);
    AddStepSetsEvent(c, tid);
    if c.adds[tid].AddUnlock? {
      UnlockSeesEvent(c, tid);
    } else if c.flags.event == 0 {
      AddStepKeepsClear(c, tid);
      AddStepKeepsBackfillClear(c, tid);
    }
  }

  lemma AddStepKeepsProgress(c: Context, tid: Tid)
    requires Structure(c) && ProgressOk(c) && AddEnabled(c, tid)
    ensures ProgressOk(AddStep(c, tid))
  {
    AddStepEffects(c, tid);
    if ProgHolds(c.prog) {
      AddStepKeepsHeld(c, tid);
    } else if c.prog.ProgBlocked? {
      AddStepKeepsBlocked(c, tid);
    }
  }

  // ---------------------------------- the other threads against the progress thread

  lemma StartAddKeepsProgress(c: Context, tid: Tid, selfNotify: bool)
    requires ProgressOk(c) && NotifyMutex(c) && Enabled(c, DoAdd(tid, selfNotify))
    ensures ProgressOk(StartAdd(c, tid, selfNotify))
  {
    var c' := StartAdd(c, tid, selfNotify);
    assert c'.ring.tick == c.ring.tick && Stale(c') == Stale(c);
  }

  lemma TrigStepEffects(c: Context, choice: bool)
    requires TrigEnabled(c)
    ensures var c' := TrigStep(c, choice);
            && c'.prog == c.prog && c'.tailFirst == c.tailFirst && c'.adds == c.adds
            && c'.flags.mustNotify == c.flags.mustNotify && c'.flags.event == c.flags.event
            && c'.locks.notify == c.locks.notify
            && c'.hist.returned == c.hist.returned && c'.hist.signalled == c.hist.signalled
            && (c'.backfill.queue == c.backfill.queue || (c.backfill.queue != [] && c'.backfill.queue == c.backfill.queue[1..]))
  {
  }

  lemma TrigStepKeepsProgress(c: Context, choice: bool)
    requires Callers(c) && ProgressOk(c) && TrigEnabled(c)
    ensures ProgressOk(TrigStep(c, choice))
  {
    var c' := TrigStep(c, choice);
    TrigStepEffects(c, choice);
    TrigStepTicks(c, choice);
    assert Stale(c') == Stale(c);
  }

  // ------------------------------------------------------- the progress thread

  /** The second load finds the same masked value: nothing of `es` is in the ring. */
  lemma SecondLoadClear(c: Context, v: nat, t: nat, es: set<Entry>)
    requires Q.Inv(c.ring) && FirstLoadOk(c, v, t, es) && SecondLoad(c) == v
    requires !c.tailFirst ==> c.ring.ring.consHead == v
    ensures RingClear(c, es)
  {
    var k := c.ring.tick;
    if c.tailFirst {
      if k.consHead < t {
        Masking.SameResidue(k.consHead, t, Q.Size(c.ring));
      }
    } else {
      Masking.SameResidue(k.consHead, k.prodTail, Q.Size(c.ring));
    }
  }

  /** What a pair of loads that agree is worth, head first: the ring is empty exactly when they are right. */
  lemma LoadsRightIff(c: Context)
    requires Structure(c) && ProgressOk(c) && c.prog.ProgSecond? && !c.tailFirst && SecondLoad(c) == c.prog.v
    ensures LoadsRight(c) <==> Q.Queue(c.ring) == []
    ensures LoadsUnlapped(c) ==> LoadsRight(c)
  {
    Q.EmptyAnswerExact(c.ring, c.prog.t);
    if LoadsUnlapped(c) {
      Masking.SameResidue(c.prog.t, c.ring.tick.prodTail, Q.Size(c.ring));
    }
  }

  lemma UnlappedIsRight(c: Context)
    requires Structure(c) && ProgressOk(c) && LoadsUnlapped(c)
    ensures LoadsRight(c)
  {
    if c.prog.ProgSecond? && !c.tailFirst && SecondLoad(c) == c.prog.v {
      LoadsRightIff(c);
    }
  }

  /** A zero count leaves at most the entry of an adder that has not yet counted it. */
  lemma ZeroCountClear(c: Context, es: set<Entry>)
    requires CompletionMutex(c) && Counted(c) && c.backfill.count <= 0
    requires forall tid :: tid in c.adds && BeforeSignal(c.adds[tid]) ==> c.adds[tid].e !in es
    ensures BackfillClear(c, es)
  {
    assert c.backfill.queue == [] || (c.locks.completion.HeldByAdder? && |c.backfill.queue| == 1);
  }

  lemma ProgCountClears(c: Context)
    requires Links(c) && c.backfill.count <= 0
    ensures BackfillClear(c, Stale(c))
  {
    forall tid | tid in c.adds && BeforeSignal(c.adds[tid])
      ensures c.adds[tid].e !in Stale(c)
    {
      AddingNotStale(c, tid);
    }
    ZeroCountClear(c, Stale(c));
  }

  lemma ProgStepKeepsProgress(c: Context, choice: bool)
    requires Structure(c) && ProgressOk(c) && LoadsRight(c) && ProgEnabled(c)
    ensures ProgressOk(ProgStep(c, choice))
  {
    var c' := ProgStep(c, choice);
    ProgChanges(c, choice);
    assert Stale(c') == Stale(c);
    if c.prog.ProgSecond? && SecondLoad(c) == c.prog.v {
      SecondLoadClear(c, c.prog.v, c.prog.t, Stale(c));
    } else if c.prog.ProgCount? && c.backfill.count <= 0 {
      ProgCountClears(c);
    }
  }

  lemma ApplyKeepsProgress(c: Context, a: Action)
    requires Structure(c) && ProgressOk(c) && LoadsRight(c) && Enabled(c, a)
    ensures ProgressOk(Apply(c, a))
  {
    match a
    case DoAdd(tid, selfNotify) => StartAddKeepsProgress(c, tid, selfNotify);
    case DoAddStep(tid) => AddStepKeepsProgress(c, tid);
    case DoTrigger(choice) => TrigStepKeepsProgress(c, choice);
    case DoProgress(choice) => ProgStepKeepsProgress(c, choice);
  }

  lemma {:induction false} RunsKeepProgress(states: seq<Context>, acts: seq<Action>, i: nat)
    requires Run(states, acts) && NeverLapped(states) && i < |states|
    requires forall j :: 0 <= j < |states| ==> LoadsRight(states[j])
    ensures Structure(states[i]) && ProgressOk(states[i])
  {
    RunsKeepStructure(states, acts, i);
    if i > 0 {
      RunsKeepProgress(states, acts, i - 1);
      assert LoadsRight(states[i - 1]);
      ApplyKeepsProgress(states[i - 1], acts[i - 1]);
    }
  }

  lemma ClearQueue(c: Context, es: set<Entry>)
    requires Q.Inv(c.ring) && RingClear(c, es)
    ensures forall e :: e in es ==> e !in Q.Queue(c.ring)
  {
  }

  /**
   No state of any run has the progress thread blocked in hg_poll_wait with the
   loopback event unset while a self-notified entry whose adder has returned is
   in either queue.
   */
  lemma ProgressNotLost(states: seq<Context>, acts: seq<Action>, i: nat)
    requires Run(states, acts) && NeverLapped(states) && i < |states|
    requires forall j :: 0 <= j < |states| ==> LoadsRight(states[j])
    requires states[i].prog.ProgBlocked? && states[i].flags.event == 0
    ensures Q.Inv(states[i].ring)
    ensures forall e: Entry :: e.selfNotify && e in states[i].hist.returned ==>
      e !in Q.Queue(states[i].ring) && e !in states[i].backfill.queue
  {
    RunsKeepProgress(states, acts, i);
    ClearQueue(states[i], Stale(states[i]));
  }

  /** When prod_tail is loaded first, the same holds of every run, whatever happens between the loads. */
  lemma ProgressNotLostTailFirst(states: seq<Context>, acts: seq<Action>, i: nat)
    requires Run(states, acts) && NeverLapped(states) && states[0].tailFirst && i < |states|
    requires states[i].prog.ProgBlocked? && states[i].flags.event == 0
    ensures Q.Inv(states[i].ring)
    ensures forall e: Entry :: e.selfNotify && e in states[i].hist.returned ==>
      e !in Q.Queue(states[i].ring) && e !in states[i].backfill.queue
  {
    forall j | 0 <= j < |states|
      ensures LoadsRight(states[j])
    {
      OrderFixed(states, acts, j);
    }
    ProgressNotLost(states, acts, i);
  }

  lemma {:induction false} OrderFixed(states: seq<Context>, acts: seq<Action>, i: nat)
    requires Run(states, acts) && i < |states|
    ensures states[i].tailFirst == states[0].tailFirst
  {
    if i > 0 {
      OrderFixed(states, acts, i - 1);
      var c, a := states[i - 1], acts[i - 1];
      match a
      case DoAdd(_, _) =>
      case DoAddStep(tid) => AddStepEffects(c, tid);
      case DoTrigger(choice) => TrigStepEffects(c, choice);
      case DoProgress(choice) => ProgChanges(c, choice);
    }
  }

  // -------------------------------------------------------- the trigger thread

  ghost predicate TriggerOk(c: Context)
  {
    match c.trig
    case TrigSecond(v, t) =>
      FirstLoadOk(c, v, t, c.hist.signalled) && (if c.tailFirst then c.ring.tick.consHead <= t else t == c.ring.tick.consHead)
    case TrigRecount => RingClear(c, c.hist.signalled)
    case TrigWait => c.flags.woken || (RingClear(c, c.hist.signalled) && BackfillClear(c, c.hist.signalled))
    case _ => true
  }

  /** Signalling needs the mutex the trigger holds until it waits, and then wakes it. */
  lemma AddStepSignals(c: Context, tid: Tid)
    requires CompletionMutex(c) && AddEnabled(c, tid)
    ensures var c' := AddStep(c, tid);
            && (TrigHolds(c.trig) ==> c'.hist.signalled == c.hist.signalled)
            && (c.trig.TrigWait? ==> c'.flags.woken || c'.hist.signalled == c.hist.signalled)
            && (c.flags.woken ==> c'.flags.woken)
  {
  }

  /** Entries move into a queue before their adder signals. */
  lemma AddStepPublishes(c: Context, tid: Tid)
    requires Q.Inv(c.ring) && Callers(c) && AddEnabled(c, tid) && !BeforeSignal(c.adds[tid])
    ensures AddStep(c, tid).ring.tick == c.ring.tick && AddStep(c, tid).backfill.queue == c.backfill.queue
  {
  }

  lemma AddStepKeepsUnsignalled(c: Context, tid: Tid, t: nat)
    requires Structure(c) && AddEnabled(c, tid) && ClearFrom(c.ring.tick, t, c.hist.signalled)
    ensures ClearFrom(AddStep(c, tid).ring.tick, t, c.hist.signalled)
  {
    AddStepTicks(c, tid);
    AddingNotStale(c, tid);
    if BeforeSignal(c.adds[tid]) {
      AdderKeepsClear(c.ring.tick, AddStep(c, tid).ring.tick, c.adds[tid].e, t, c.hist.signalled);
    } else {
      AddStepPublishes(c, tid);
    }
  }

  lemma AddStepKeepsBackfillUnsignalled(c: Context, tid: Tid)
    requires Structure(c) && AddEnabled(c, tid) && BackfillClear(c, c.hist.signalled)
    ensures BackfillClear(AddStep(c, tid), c.hist.signalled)
  {
    AddStepEffects(c, tid);
    AddingNotStale(c, tid);
    if !BeforeSignal(c.adds[tid]) {
      AddStepPublishes(c, tid);
    }
  }

  lemma AddStepKeepsTrigger(c: Context, tid: Tid)
    requires Structure(c) && TriggerOk(c) && AddEnabled(c, tid)
    ensures TriggerOk(AddStep(c, tid))
  {
    AddStepEffects(c, tid);
    AddStepTicks(c, tid);
    AddStepSignals(c, tid);
    if c.trig.TrigSecond? && c.tailFirst {
      AddStepKeepsUnsignalled(c, tid, c.trig.t);
    } else if c.trig.TrigRecount? || (c.trig.TrigWait? && !c.flags.woken) {
      AddStepKeepsUnsignalled(c, tid, 0);
      if c.trig.TrigWait? {
        AddStepKeepsBackfillUnsignalled(c, tid);
      }
    }
  }

  lemma StartAddKeepsTrigger(c: Context, tid: Tid, selfNotify: bool)
    requires TriggerOk(c) && Enabled(c, DoAdd(tid, selfNotify))
    ensures TriggerOk(StartAdd(c, tid, selfNotify))
  {
    assert StartAdd(c, tid, selfNotify).ring.tick == c.ring.tick;
  }

  lemma ProgStepKeepsTrigger(c: Context, choice: bool)
    requires TriggerOk(c) && ProgEnabled(c)
    ensures TriggerOk(ProgStep(c, choice))
  {
    assert ProgStep(c, choice).flags.woken == c.flags.woken;
    ProgChanges(c, choice);
  }

  lemma TrigStepKeepsTrigger(c: Context, choice: bool)
    requires Structure(c) && TriggerOk(c) && TrigEnabled(c)
    ensures TriggerOk(TrigStep(c, choice))
  {
    TrigStepEffects(c, choice);
    if c.trig.TrigSecond? && SecondLoad(c) == c.trig.v {
      SecondLoadClear(c, c.trig.v, c.trig.t, c.hist.signalled);
    }
  }

  lemma ApplyKeepsTrigger(c: Context, a: Action)
    requires Structure(c) && TriggerOk(c) && Enabled(c, a)
    ensures TriggerOk(Apply(c, a))
  {
    match a
    case DoAdd(tid, selfNotify) => StartAddKeepsTrigger(c, tid, selfNotify);
    case DoAddStep(tid) => AddStepKeepsTrigger(c, tid);
    case DoTrigger(choice) => TrigStepKeepsTrigger(c, choice);
    case DoProgress(choice) => ProgStepKeepsTrigger(c, choice);
  }

  lemma {:induction false} RunsKeepTrigger(states: seq<Context>, acts: seq<Action>, i: nat)
    requires Run(states, acts) && NeverLapped(states) && i < |states|
    ensures Structure(states[i]) && TriggerOk(states[i])
  {
    RunsKeepStructure(states, acts, i);
    if i > 0 {
      RunsKeepTrigger(states, acts, i - 1);
      ApplyKeepsTrigger(states[i - 1], acts[i - 1]);
    }
  }

  /**
   No state of any run has the trigger waiting unsignalled while an entry whose
   adder has passed its signal is in either queue, whichever load is first.
   */
  lemma TriggerNotLost(states: seq<Context>, acts: seq<Action>, i: nat)
    requires Run(states, acts) && NeverLapped(states) && i < |states|
    requires states[i].trig.TrigWait? && !states[i].flags.woken
    ensures Q.Inv(states[i].ring)
    ensures forall e :: e in states[i].hist.signalled ==> e !in Q.Queue(states[i].ring) && e !in states[i].backfill.queue
  {
    RunsKeepTrigger(states, acts, i);
    ClearQueue(states[i], states[i].hist.signalled);
  }

  // ------------------------------------------------------------ who is notified of what

  /** Only the adder of a self-notified entry goes on to the notify mutex. */
  ghost predicate NotifiersOk(c: Context)
  {
    forall tid :: tid in c.adds && !BeforeSignal(c.adds[tid]) ==> c.adds[tid].e.selfNotify
  }

  lemma AddStepKeepsNotifiers(c: Context, tid: Tid)
    requires NotifiersOk(c) && AddEnabled(c, tid)
    ensures NotifiersOk(AddStep(c, tid))
  {
  }

  lemma ApplyKeepsNotifiers(c: Context, a: Action)
    requires NotifiersOk(c) && Enabled(c, a)
    ensures NotifiersOk(Apply(c, a))
  {
    if a.DoAddStep? {
      AddStepKeepsNotifiers(c, a.tid);
    }
  }

  lemma {:induction false} RunsKeepNotifiers(states: seq<Context>, acts: seq<Action>, i: nat)
    requires Run(states, acts) && i < |states|
    ensures NotifiersOk(states[i])
  {
    if i > 0 {
      RunsKeepNotifiers(states, acts, i - 1);
      ApplyKeepsNotifiers(states[i - 1], acts[i - 1]);
    }
  }

  lemma EventSteps(c: Context, a: Action)
    requires Enabled(c, a) && Apply(c, a).flags.event > c.flags.event
    ensures a.DoAddStep? && c.adds[a.tid].AddEvent? && Apply(c, a).flags.event == c.flags.event + 1
  {
  }

  /** In every run the loopback event is raised only by the adder of a self-notified entry. */
  lemma EventOnlyForSelfNotified(states: seq<Context>, acts: seq<Action>, i: nat)
    requires Run(states, acts) && i < |acts| && states[i + 1].flags.event > states[i].flags.event
    ensures acts[i].DoAddStep? && acts[i].tid in states[i].adds && states[i].adds[acts[i].tid].e.selfNotify
  {
    RunsKeepNotifiers(states, acts, i);
    EventSteps(states[i], acts[i]);
  }
}
