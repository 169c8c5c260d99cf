/**
 What hg_core_trigger finds: it reports nothing only when there is nothing, it
 takes entries in order, from the ring first and then from the backfill queue,
 and when nobody adds it runs all of them.
 */
module Service {
  import opened Completion
  import Conservation
  import Q = AtomicQueue
  import R = RingAnswers

  // ------------------------------------------------------------- nothing found

  /** The trigger's pop has answered NULL, and it has not yet decided what to do. */
  predicate Looked(c: Context)
  {
    c.trig.TrigCheck? || (c.trig.TrigPop? && TRIGGER in c.ring.pcs && c.ring.pcs[TRIGGER].PopNull?)
  }

  lemma OtherStepsAside(s: Q.State, tid: Tid)
    requires tid in s.pcs && tid != TRIGGER
    ensures TRIGGER in Q.Step(s, tid).pcs <==> TRIGGER in s.pcs
    ensures TRIGGER in s.pcs ==> Q.Step(s, tid).pcs[TRIGGER] == s.pcs[TRIGGER]
  {
    Q.StepHolds(s, tid);
  }

  /** The trigger is about to read prod_tail, and the ring is empty. */
  ghost predicate ReadsEmpty(c: Context)
  {
    c.trig.TrigPop? && TRIGGER in c.ring.pcs && c.ring.pcs[TRIGGER].PopReadTail? && Q.Inv(c.ring) && Q.Queue(c.ring) == []
  }

  lemma AddersAside(c: Context, tid: Tid)
    requires Structure(c) && AddEnabled(c, tid) && Looked(AddStep(c, tid))
    ensures Looked(c)
  {
    if c.adds[tid].AddPush? {
      OtherStepsAside(c.ring, tid);
    }
  }

  lemma TriggerLooks(c: Context, choice: bool)
    requires Structure(c) && TrigEnabled(c) && Looked(TrigStep(c, choice)) && !Looked(c)
    ensures ReadsEmpty(c)
  {
    if c.trig.TrigPop? {
      R.AnswerSteps(c.ring, Q.DoStep(TRIGGER), TRIGGER);
      Q.NullExactForLoneConsumer(c.ring, TRIGGER);
    }
  }

  lemma LookBegins(c: Context, a: Action)
    requires Structure(c) && Enabled(c, a) && Looked(Apply(c, a)) && !Looked(c)
    ensures a.DoTrigger? && ReadsEmpty(c)
  {
    if a.DoAddStep? {
      AddersAside(c, a.tid);
    } else if a.DoTrigger? {
      TriggerLooks(c, a.choice);
    }
  }

  lemma {:induction false} LookedAt(states: seq<Context>, acts: seq<Action>, i: nat) returns (j: nat)
    requires Run(states, acts) && NeverLapped(states) && i < |states| && Looked(states[i])
    ensures j < i && acts[j].DoTrigger? && ReadsEmpty(states[j])
    ensures forall k :: j < k <= i ==> Looked(states[k])
  {
    assert !Looked(states[0]);
    RunsKeepStructure(states, acts, i - 1);
    assert states[i] == Apply(states[i - 1], acts[i - 1]);
    if Looked(states[i - 1]) {
      j := LookedAt(states, acts, i - 1);
    } else {
      LookBegins(states[i - 1], acts[i - 1]);
      j := i - 1;
    }
  }

  /**
   A trigger that goes on without taking an entry found the ring empty when it
   read prod_tail in that turn, and finds in the backfill queue at most the entry
   of an adder that has not counted it yet.
   */
  lemma NothingFound(states: seq<Context>, acts: seq<Action>, i: nat) returns (j: nat)
    requires Run(states, acts) && NeverLapped(states) && i < |acts|
    requires acts[i].DoTrigger? && states[i].trig.TrigCheck? && !states[i + 1].trig.TrigTake?
    ensures j < i && ReadsEmpty(states[j]) && forall k :: j < k <= i ==> Looked(states[k])
    ensures var c := states[i];
            c.backfill.queue == [] ||
            (c.locks.completion.HeldByAdder? && c.locks.completion.tid in c.adds
             && c.adds[c.locks.completion.tid].AddCount? && c.backfill.queue == [c.adds[c.locks.completion.tid].e])
  {
    RunsKeepStructure(states, acts, i);
    j := LookedAt(states, acts, i);
    var q := states[i].backfill.queue;
    assert |q| == 1 ==> q == [q[|q| - 1]];
  }

  /** Having found a count, it takes the head of the backfill queue, which is there. */
  lemma TakesTheHead(states: seq<Context>, acts: seq<Action>, i: nat)
    requires Run(states, acts) && NeverLapped(states) && i < |acts| && acts[i].DoTrigger? && states[i].trig.TrigTake?
    ensures states[i].backfill.queue != [] && states[i + 1].trig == TrigUncount(states[i].backfill.queue[0])
    ensures states[i + 1].backfill.queue == states[i].backfill.queue[1..]
  {
    RunsKeepStructure(states, acts, i);
  }

  // -------------------------------------------------------------- when nobody adds

  /** `n` steps of the trigger, as far as it is not blocked; `choice` is whether it would rather wait than leave. */
  function Triggers(c: Context, choice: bool, n: nat): Context
    decreases n
  {
    if n == 0 then c else Triggers(if TrigEnabled(c) then TrigStep(c, choice) else c, choice, n - 1)
  }

  lemma {:induction false} TriggersAdd(c: Context, choice: bool, m: nat, n: nat)
    ensures Triggers(Triggers(c, choice, m), choice, n) == Triggers(c, choice, m + n)
    decreases m
  {
    if m > 0 {
      TriggersAdd(if TrigEnabled(c) then TrigStep(c, choice) else c, choice, m - 1, n);
    }
  }

  lemma TriggersOne(c: Context, choice: bool)
    requires TrigEnabled(c)
    ensures Triggers(c, choice, 1) == TrigStep(c, choice)
  {
    assert Triggers(TrigStep(c, choice), choice, 0) == TrigStep(c, choice);
  }

  /** Nobody adds, and the trigger is between two turns. */
  ghost predicate Resting(c: Context)
  {
    Structure(c) && Q.ClaimsCounted(c.ring) && c.adds == map[] && c.trig.TrigIdle?
  }

  /** What is there to be run, in the order in which it will be. */
  ghost function Work(c: Context): seq<Entry>
    requires Q.Inv(c.ring)
  {
    Q.Queue(c.ring) + c.backfill.queue
  }

  /** The trigger's pop in progress, nobody adding. */
  ghost predicate Popping(c: Context)
  {
    && Structure(c) && Q.ClaimsCounted(c.ring) && c.adds == map[] && c.trig.TrigPop?
  }

  lemma PoppingIsLone(c: Context)
    requires Popping(c)
    ensures R.Lone(c.ring, TRIGGER) && R.Fresh(c.ring, TRIGGER) && !R.IsPush(c.ring.pcs[TRIGGER])
  {
  }

  lemma RestBegins(c: Context, choice: bool)
    requires Resting(c)
    ensures TrigEnabled(c) && Popping(TrigStep(c, choice)) && !Q.Finished(TrigStep(c, choice).ring.pcs[TRIGGER])
    ensures Q.Queue(TrigStep(c, choice).ring) == Q.Queue(c.ring)
    ensures TrigStep(c, choice) == c.(ring := Q.CallPop(c.ring, TRIGGER), trig := TrigPop)
    ensures !Q.ClaimedPop(TrigStep(c, choice).ring.pcs[TRIGGER])
  {
    assert ProducersUnlapped(c);
    ApplyKeepsStructure(c, DoTrigger(choice));
    Conservation.TrigStepKeepsClaims(c, choice);
  }

  /** The trigger's steps are those of its pop until that has an answer. */
  lemma {:induction false} PopIsSolo(c: Context, choice: bool, n: nat)
    requires c.trig.TrigPop? && TRIGGER in c.ring.pcs
    requires forall k :: 0 <= k < n ==> !Q.Finished(R.Solo(c.ring, TRIGGER, k).pcs[TRIGGER])
    ensures Triggers(c, choice, n) == c.(ring := R.Solo(c.ring, TRIGGER, n))
    decreases n
  {
    if n > 0 {
      var c' := c.(ring := Q.Step(c.ring, TRIGGER));
      assert !Q.Finished(R.Solo(c.ring, TRIGGER, 0).pcs[TRIGGER]);
      assert TrigStep(c, choice) == c';
      R.SoloFirst(c.ring, TRIGGER, n - 1);
      forall k | 0 <= k < n - 1
        ensures !Q.Finished(R.Solo(c'.ring, TRIGGER, k).pcs[TRIGGER])
      {
        R.SoloFirst(c.ring, TRIGGER, k);
        assert !Q.Finished(R.Solo(c.ring, TRIGGER, k + 1).pcs[TRIGGER]);
      }
      PopIsSolo(c', choice, n - 1);
    }
  }

  lemma TriggersThen(c: Context, choice: bool, n: nat)
    requires TrigEnabled(Triggers(c, choice, n))
    ensures Triggers(c, choice, n + 1) == TrigStep(Triggers(c, choice, n), choice)
  {
    TriggersAdd(c, choice, n, 1);
    TriggersOne(Triggers(c, choice, n), choice);
  }

  /** Nobody adds; whatever the trigger is doing, its steps keep that and the structure. */
  ghost predicate Quiet(c: Context)
  {
    Structure(c) && Q.ClaimsCounted(c.ring) && c.adds == map[]
  }

  lemma QuietStep(c: Context, choice: bool)
    requires Quiet(c) && TrigEnabled(c)
    ensures Quiet(TrigStep(c, choice))
  {
    assert ProducersUnlapped(c);
    ApplyKeepsStructure(c, DoTrigger(choice));
    Conservation.TrigStepKeepsClaims(c, choice);
  }

  /** Without adders nothing blocks the trigger. */
  lemma QuietEnabled(c: Context)
    requires Quiet(c)
    ensures TrigEnabled(c)
  {
  }

  lemma {:induction false} TriggersKeepQuiet(c: Context, choice: bool, n: nat)
    requires Quiet(c)
    ensures Quiet(Triggers(c, choice, n))
    decreases n
  {
    if n > 0 {
      QuietEnabled(c);
      QuietStep(c, choice);
      TriggersKeepQuiet(TrigStep(c, choice), choice, n - 1);
    }
  }

  /** Without adders the mutex is free unless the trigger has it, and the count is exact. */
  lemma QuietMutex(c: Context)
    requires Quiet(c) && !TrigHolds(c.trig)
    ensures c.locks.completion == Free && c.backfill.count == |c.backfill.queue|
  {
  }

  /** One turn of the trigger's loop, as far as its pop. */
  lemma Pops(c: Context, choice: bool) returns (n: nat, r: Q.State)
    requires Resting(c)
    ensures n <= 7 && Triggers(c, choice, n) == c.(ring := r, trig := TrigPop)
    ensures TRIGGER in r.pcs && Q.Inv(r)
    ensures if Q.Queue(c.ring) == [] then r.pcs[TRIGGER].PopNull? && Q.Queue(r) == []
            else r.pcs[TRIGGER].PopGot? && r.pcs[TRIGGER].e == Q.Queue(c.ring)[0] && Q.Queue(r) == Q.Queue(c.ring)[1..]
  {
    RestBegins(c, choice);
    var c1 := TrigStep(c, choice);
    PoppingIsLone(c1);
    var m := R.PopRuns(c1.ring, TRIGGER);
    PopIsSolo(c1, choice, m);
    TriggersOne(c, choice);
    TriggersAdd(c, choice, 1, m);
    n, r := m + 1, R.Solo(c1.ring, TRIGGER, m);
  }

  /** The ring's part of a turn: the oldest entry is run. */
  lemma ServesRing(c: Context, choice: bool) returns (n: nat)
    requires Resting(c) && Q.Queue(c.ring) != []
    ensures n <= 9 && var c' := Triggers(c, choice, n);
            && Resting(c') && c'.hist.triggered == c.hist.triggered + [Work(c)[0]] && Work(c') == Work(c)[1..]
  {
    var m, r := Pops(c, choice);
    var c2 := c.(ring := r, trig := TrigPop);
    TriggersThen(c, choice, m);
    assert TrigStep(c2, choice) == c.(ring := Q.Return(r, TRIGGER), trig := TrigRun(r.pcs[TRIGGER].e));
    RunsIt(c, choice, m + 1, Q.Return(r, TRIGGER), c.backfill, r.pcs[TRIGGER].e);
    ReturnKeepsQueue(r, TRIGGER);
    n := m + 2;
    TriggersKeepQuiet(c, choice, n);
    RestOfWork(Q.Queue(c.ring), c.backfill.queue);
  }

  lemma RestOfWork(q: seq<Entry>, b: seq<Entry>)
    requires q != []
    ensures (q + b)[0] == q[0] && (q + b)[1..] == q[1..] + b
  {
  }

  lemma NullReturns(c: Context, choice: bool, m: nat, r: Q.State)
    requires Triggers(c, choice, m) == c.(ring := r, trig := TrigPop) && TRIGGER in r.pcs && r.pcs[TRIGGER].PopNull?
    ensures Triggers(c, choice, m + 1) == c.(ring := Q.Return(r, TRIGGER), trig := TrigCheck)
  {
    TriggersThen(c, choice, m);
  }

  lemma ReturnKeepsQueue(r: Q.State, tid: Tid)
    requires Q.Inv(r)
    ensures Q.Inv(Q.Return(r, tid)) && Q.Queue(Q.Return(r, tid)) == Q.Queue(r) && tid !in Q.Return(r, tid).pcs
  {
    Q.ReturnKeepsInv(r, tid);
  }

  /** The ring being empty, the turn goes on to the backfill queue. */
  lemma LooksFurther(c: Context, choice: bool) returns (n: nat, r: Q.State)
    requires Resting(c) && Q.Queue(c.ring) == []
    ensures n <= 8 && Triggers(c, choice, n) == c.(ring := r, trig := TrigCheck)
    ensures TRIGGER !in r.pcs && Q.Inv(r) && Q.Queue(r) == []
    ensures c.locks.completion == Free && c.backfill.count == |c.backfill.queue|
  {
    QuietMutex(c);
    var m, r' := Pops(c, choice);
    NullReturns(c, choice, m, r');
    ReturnKeepsQueue(r', TRIGGER);
    n, r := m + 1, Q.Return(r', TRIGGER);
  }

  /** From the check of a count that is not zero to the callback of the head. */
  lemma TakesBackfill(c: Context, choice: bool, m: nat, r: Q.State)
    requires Triggers(c, choice, m) == c.(ring := r, trig := TrigCheck)
    requires c.locks.completion == Free && c.backfill.count == |c.backfill.queue| > 0
    ensures var q := c.backfill;
            Triggers(c, choice, m + 3) ==
            c.(ring := r, backfill := Tier(q.queue[1..], q.count - 1), trig := TrigRun(q.queue[0]))
  {
    var q, c0 := c.backfill, c.(ring := r, trig := TrigCheck);
    var c1 := c0.(trig := TrigTake);
    TriggersThen(c, choice, m);
    assert TrigStep(c0, choice) == c1;
    var c2 := c1.(locks := c.locks.(completion := HeldByTrigger), backfill := q.(queue := q.queue[1..]), trig := TrigUncount(q.queue[0]));
    TriggersThen(c, choice, m + 1);
    assert TrigStep(c1, choice) == c2;
    TriggersThen(c, choice, m + 2);
    assert c.locks.(completion := Free) == c.locks;
  }

  /** The callback is run, and the turn is over. */
  lemma RunsIt(c: Context, choice: bool, m: nat, r: Q.State, q: Tier, e: Entry)
    requires Triggers(c, choice, m) == c.(ring := r, backfill := q, trig := TrigRun(e))
    ensures Triggers(c, choice, m + 1) ==
            c.(ring := r, backfill := q, hist := c.hist.(triggered := c.hist.triggered + [e]), trig := TrigIdle)
  {
    TriggersThen(c, choice, m);
  }

  /** The backfill queue's part: its head is run. */
  lemma ServesBackfill(c: Context, choice: bool) returns (n: nat)
    requires Resting(c) && Q.Queue(c.ring) == [] && c.backfill.queue != []
    ensures n <= 12 && var c' := Triggers(c, choice, n);
            && Resting(c') && c'.hist.triggered == c.hist.triggered + [Work(c)[0]] && Work(c') == Work(c)[1..]
  {
    var m, r := LooksFurther(c, choice);
    var q := c.backfill;
    TakesBackfill(c, choice, m, r);
    RunsIt(c, choice, m + 3, r, Tier(q.queue[1..], q.count - 1), q.queue[0]);
    n := m + 4;
    TriggersKeepQuiet(c, choice, n);
    NoRing(q.queue);
  }

  lemma NoRing(b: seq<Entry>)
    requires b != []
    ensures [] + b == b && [] + b[1..] == b[1..]
  {
  }

  /** As long as there is work and nobody adds, twelve steps of the trigger at most run the first entry of it. */
  lemma Serves(c: Context, choice: bool) returns (n: nat)
    requires Resting(c) && Work(c) != []
    ensures n <= 12 && var c' := Triggers(c, choice, n);
            && Resting(c') && c'.hist.triggered == c.hist.triggered + [Work(c)[0]] && Work(c') == Work(c)[1..]
  {
    if Q.Queue(c.ring) != [] {
      n := ServesRing(c, choice);
    } else {
      n := ServesBackfill(c, choice);
    }
  }

  lemma FirstAndRest(done: seq<Entry>, work: seq<Entry>)
    requires work != []
    ensures (done + [work[0]]) + work[1..] == done + work
  {
  }

  /** The first entry of the work has been run, and the rest is left. */
  ghost predicate ServedOne(c: Context, c': Context)
    requires Resting(c) && Work(c) != []
  {
    Resting(c') && c'.hist.triggered == c.hist.triggered + [Work(c)[0]] && Work(c') == Work(c)[1..]
  }

  ghost predicate ServedAll(c: Context, c': Context)
    requires Resting(c)
  {
    Resting(c') && Work(c') == [] && c'.hist.triggered == c.hist.triggered + Work(c)
  }

  lemma OneThenAll(c: Context, c1: Context, c2: Context)
    requires Resting(c) && Work(c) != [] && ServedOne(c, c1) && ServedAll(c1, c2)
    ensures ServedAll(c, c2)
  {
    FirstAndRest(c.hist.triggered, Work(c));
  }

  lemma AlreadyAll(c: Context)
    requires Resting(c) && Work(c) == []
    ensures ServedAll(c, c)
  {
    assert c.hist.triggered + Work(c) == c.hist.triggered;
  }

  /** All of it is run, the ring's entries and then the backfill queue's, in order. */
  lemma {:induction false} ServesAll(c: Context, choice: bool) returns (n: nat)
    requires Resting(c)
    ensures n <= 12 * |Work(c)| && ServedAll(c, Triggers(c, choice, n))
    decreases |Work(c)|
  {
    if Work(c) == [] {
      n := 0;
      AlreadyAll(c);
    } else {
      var m := Serves(c, choice);
      var c1 := Triggers(c, choice, m);
      assert ServedOne(c, c1);
      var k := ServesAll(c1, choice);
      TriggersAdd(c, choice, m, k);
      OneThenAll(c, c1, Triggers(c1, choice, k));
      n := m + k;
    }
  }

  /** In every run: once additions are over and the trigger is between turns, it can run everything added and not yet run. */
  lemma EverythingIsRun(states: seq<Context>, acts: seq<Action>, i: nat, choice: bool) returns (n: nat)
    requires Run(states, acts) && NeverLapped(states) && i < |states| && states[i].adds == map[] && states[i].trig.TrigIdle?
    ensures multiset(Triggers(states[i], choice, n).hist.triggered) == states[i].hist.added
  {
    RunsKeepStructure(states, acts, i);
    Conservation.RunsCountClaims(states, acts, i);
    Conservation.NothingLost(states, acts, i);
    n := ServesAll(states[i], choice);
  }

  /** With nothing to be run, the trigger leaves everything as it is, or waits if it would rather. */
  lemma IdleTurn(c: Context, choice: bool) returns (n: nat)
    requires Resting(c) && Work(c) == []
    ensures n <= 13 && var c' := Triggers(c, choice, n);
            && c'.trig == (if choice then TrigWait else TrigIdle)
            && c'.hist == c.hist && c'.backfill == c.backfill && c'.locks == c.locks && Q.Inv(c'.ring) && Q.Queue(c'.ring) == []
  {
    var m, r := LooksFurther(c, choice);
    TriggersThen(c, choice, m);
    n := m + 1;
    if choice {
      n := WaitsForSignal(c, m + 1, r);
    }
  }

  lemma WaitsForSignal(c: Context, m: nat, r: Q.State) returns (n: nat)
    requires Triggers(c, true, m) == c.(ring := r, trig := TrigLock) && Q.Inv(r) && Q.Queue(r) == []
    requires c.locks.completion == Free && c.backfill.count == 0
    ensures n == m + 4 && Triggers(c, true, n) == c.(ring := r, flags := c.flags.(woken := false), trig := TrigWait)
  {
    var held := c.locks.(completion := HeldByTrigger);
    var c1 := c.(ring := r, locks := held, trig := TrigFirst);
    TriggersThen(c, true, m);
    assert TrigStep(c.(ring := r, trig := TrigLock), true) == c1;
    var c2 := c1.(trig := TrigSecond(FirstLoad(c1).0, FirstLoad(c1).1));
    TriggersThen(c, true, m + 1);
    var c3 := c1.(trig := TrigRecount);
    TriggersThen(c, true, m + 2);
    assert r.tick.consHead == r.tick.prodTail;
    assert TrigStep(c2, true) == c3;
    TriggersThen(c, true, m + 3);
    n := m + 4;
  }

  /** A trigger that was signalled while it waited is at its next turn after two steps, whether or not it timed out as well. */
  lemma SignalEndsWait(c: Context, choice: bool)
    requires Quiet(c) && c.trig.TrigWait? && c.flags.woken
    ensures Triggers(c, choice, 2) == c.(trig := TrigIdle) && Resting(c.(trig := TrigIdle))
  {
    QuietMutex(c);
    var c1 := c.(locks := c.locks.(completion := HeldByTrigger), trig := TrigUnlock);
    TriggersOne(c, choice);
    TriggersOne(c1, choice);
    TriggersAdd(c, choice, 1, 1);
    TriggersKeepQuiet(c, choice, 2);
    assert c.locks.(completion := Free) == c.locks;
  }

  // --------------------------------------------------------- the progress thread's turn

  /** `n` steps of the progress thread, as far as it is not blocked. */
  function Progresses(c: Context, choice: bool, n: nat): Context
    decreases n
  {
    if n == 0 then c else Progresses(if ProgEnabled(c) then ProgStep(c, choice) else c, choice, n - 1)
  }

  lemma ProgressesFirst(c: Context, choice: bool, n: nat)
    requires ProgEnabled(c)
    ensures Progresses(c, choice, n + 1) == Progresses(ProgStep(c, choice), choice, n)
    ensures n == 0 ==> Progresses(c, choice, 1) == ProgStep(c, choice)
  {
  }

  /** Both loads of hg_atomic_queue_is_empty with nothing in between agree exactly on an empty ring. */
  lemma LoadsAgreeIff(c: Context)
    requires Q.Inv(c.ring)
    ensures SecondLoad(c) == FirstLoad(c).0 <==> Q.Queue(c.ring) == []
  {
    if SecondLoad(c) == FirstLoad(c).0 {
      Q.EmptyAnswerExact(c.ring, c.ring.tick.consHead);
    }
  }

  /** The notify mutex held by the progress thread, which stands at `pc`. */
  function Checking(c: Context, pc: ProgPc): Context
  {
    c.(locks := c.locks.(notify := HeldByProgress), prog := pc)
  }

  lemma ChecksRing(c: Context, choice: bool)
    requires Q.Inv(c.ring) && c.prog.ProgIdle? && c.locks.notify == Free
    ensures Progresses(c, choice, 4) == Checking(c, if Q.Queue(c.ring) == [] then ProgCount else ProgUnlock(false))
  {
    var c1 := c.(prog := ProgLock);
    var c2 := Checking(c, ProgFirst);
    var c3 := Checking(c, ProgSecond(FirstLoad(c).0, FirstLoad(c).1));
    LoadsAgreeIff(c);
    ProgressesFirst(c, choice, 3);
    ProgressesFirst(c1, choice, 2);
    ProgressesFirst(c2, choice, 1);
    ProgressesFirst(c3, choice, 0);
  }

  lemma {:induction false} ProgressesAdd(c: Context, choice: bool, m: nat, n: nat)
    ensures Progresses(Progresses(c, choice, m), choice, n) == Progresses(c, choice, m + n)
    decreases m
  {
    if m > 0 {
      ProgressesAdd(if ProgEnabled(c) then ProgStep(c, choice) else c, choice, m - 1, n);
    }
  }

  lemma LeavesMutex(c: Context, choice: bool)
    requires c.prog.ProgIdle? && c.locks.notify == Free
    ensures Progresses(Checking(c, ProgUnlock(false)), choice, 1) == c
  {
    ProgressesFirst(Checking(c, ProgUnlock(false)), choice, 0);
  }

  lemma GoesToSleep(c: Context)
    requires c.prog.ProgIdle? && c.locks.notify == Free && c.backfill.count <= 0
    ensures Progresses(Checking(c, ProgCount), true, 4) == c.(flags := c.flags.(mustNotify := true), prog := ProgBlocked)
  {
    ProgressesFirst(Checking(c, ProgCount), true, 3);
    ProgressesFirst(Checking(c, ProgNa), true, 2);
    ProgressesFirst(Checking(c, ProgArm), true, 1);
    ProgressesFirst(Checking(c.(flags := c.flags.(mustNotify := true)), ProgUnlock(true)), true, 0);
  }

  lemma StaysAwake(c: Context, choice: bool) returns (n: nat)
    requires c.prog.ProgIdle? && c.locks.notify == Free && (c.backfill.count > 0 || !choice)
    ensures n <= 3 && Progresses(Checking(c, ProgCount), choice, n) == c
  {
    ProgressesFirst(Checking(c, ProgCount), choice, 1);
    if c.backfill.count > 0 {
      n := 2;
      LeavesMutex(c, choice);
    } else {
      ProgressesFirst(Checking(c, ProgCount), choice, 2);
      ProgressesFirst(Checking(c, ProgNa), choice, 1);
      LeavesMutex(c, choice);
      n := 3;
    }
  }

  /**
   A turn of the progress thread that nobody interferes with: it goes to sleep,
   having asked to be notified, exactly when the ring is empty, the backfill
   count is zero and NA agrees to wait; otherwise it leaves everything as it was.
   */
  lemma ProgressTurn(c: Context, choice: bool) returns (n: nat)
    requires Structure(c) && c.prog.ProgIdle? && c.locks.notify == Free
    ensures 0 < n <= 8
    ensures Progresses(c, choice, n) ==
      if choice && Q.Queue(c.ring) == [] && c.backfill.count <= 0
      then c.(flags := c.flags.(mustNotify := true), prog := ProgBlocked) else c
  {
    ChecksRing(c, choice);
    var m := 1;
    if Q.Queue(c.ring) != [] {
      LeavesMutex(c, choice);
    } else if choice && c.backfill.count <= 0 {
      GoesToSleep(c);
      m := 4;
    } else {
      m := StaysAwake(c, choice);
    }
    ProgressesAdd(c, choice, 4, m);
    n := 4 + m;
  }

  /** Once hg_poll_wait returns, the request to be notified is withdrawn and one event is consumed, if there is one. */
  lemma WakesUp(c: Context)
    requires c.prog.ProgBlocked?
    ensures var f := c.flags;
            Progresses(c, true, 3) ==
            c.(flags := Flags(false, if f.event > 0 then f.event - 1 else 0, f.woken), prog := ProgIdle)
  {
    var c1 := c.(prog := ProgDisarm);
    var c2 := c.(flags := c.flags.(mustNotify := false), prog := ProgGet);
    ProgressesFirst(c, true, 2);
    ProgressesFirst(c1, true, 1);
    ProgressesFirst(c2, true, 0);
  }

  /** Between arming and disarming, and only then, adders are asked to notify. */
  predicate Armed(pc: ProgPc)
  {
    pc == ProgUnlock(true) || pc.ProgBlocked? || pc.ProgDisarm?
  }

  lemma AddersKeepArmed(c: Context, tid: Tid)
    requires AddEnabled(c, tid)
    ensures AddStep(c, tid).flags.mustNotify == c.flags.mustNotify && AddStep(c, tid).prog == c.prog
  {
  }

  lemma TriggerKeepsArmed(c: Context, choice: bool)
    requires TrigEnabled(c)
    ensures TrigStep(c, choice).flags.mustNotify == c.flags.mustNotify && TrigStep(c, choice).prog == c.prog
  {
  }

  lemma ArmedStep(c: Context, a: Action)
    requires Enabled(c, a) && (c.flags.mustNotify <==> Armed(c.prog))
    ensures Apply(c, a).flags.mustNotify <==> Armed(Apply(c, a).prog)
  {
    if a.DoAddStep? {
      AddersKeepArmed(c, a.tid);
    } else if a.DoTrigger? {
      TriggerKeepsArmed(c, a.choice);
    }
  }

  /** In every run must_notify is set exactly while the progress thread is about to sleep, sleeps, or has just woken up. */
  lemma {:induction false} MustNotifyIff(states: seq<Context>, acts: seq<Action>, i: nat)
    requires Run(states, acts) && i < |states|
    ensures states[i].flags.mustNotify <==> Armed(states[i].prog)
  {
    if i > 0 {
      MustNotifyIff(states, acts, i - 1);
      ArmedStep(states[i - 1], acts[i - 1]);
    }
  }
}
