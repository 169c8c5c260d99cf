/**
 Conservation: what was added is what was run, plus what is in a queue or in a
 thread's hands.  Nothing is lost and nothing is run twice.
 */
module Conservation {
  import opened Sums
  import opened Completion
  import Masking
  import Q = AtomicQueue

  /** The entry a thread is carrying: added, but in neither queue. */
  function Carried(pc: AddPc, ringPc: Q.Pc): multiset<Entry>
  {
    match pc
    case AddPush(e) => if ringPc.PushReadHead? || Q.HoldsProdHead(ringPc) || ringPc.PushFull? then multiset{e} else multiset{}
    case AddBackfill(e) => multiset{e}
    case _ => multiset{}
  }

  function RingPc(c: Context, tid: Tid): Q.Pc
  {
    if tid in c.ring.pcs then c.ring.pcs[tid] else Q.PopNull
  }

  function CarriedByAdders(c: Context): map<Tid, multiset<Entry>>
  {
    map tid | tid in c.adds :: Carried(c.adds[tid], RingPc(c, tid))
  }

  /** The entry the trigger has taken and not yet run. */
  function InHand(trig: TrigPc, pc: Q.Pc, log: seq<Entry>): seq<Entry>
  {
    match trig
    case TrigPop =>
      if Q.ClaimedPop(pc) && pc.t < |log| then [log[pc.t]]
      else if pc.PopGot? then [pc.e]
      else []
    case TrigUncount(e) => [e]
    case TrigRun(e) => [e]
    case _ => []
  }

  /** Entries whose ring slot is claimed by their producer and by no consumer. */
  function InRing(k: Q.Tickets): seq<Entry>
  {
    if k.consHead <= |k.log| then k.log[k.consHead..] else []
  }

  /** Everything added that no adder is carrying: run, taken, in the ring, in the backfill queue. */
  function Whereabouts(hand: seq<Entry>, ring: seq<Entry>, queue: seq<Entry>, done: seq<Entry>): multiset<Entry>
  {
    multiset(done) + multiset(hand) + multiset(ring) + multiset(queue)
  }

  function Hand(c: Context): seq<Entry>
  {
    InHand(c.trig, RingPc(c, TRIGGER), c.ring.tick.log)
  }

  function Elsewhere(c: Context): multiset<Entry>
  {
    Whereabouts(Hand(c), InRing(c.ring.tick), c.backfill.queue, c.hist.triggered)
  }

  ghost predicate Conserved(c: Context)
  {
    c.hist.added == Total(CarriedByAdders(c)) + Elsewhere(c)
  }

  /** No entry is added twice: each addition has its own number. */
  ghost predicate Numbered(c: Context)
  {
    forall e :: e in c.hist.added ==> e.id < |c.hist.owner| && c.hist.added[e] == 1
  }

  /** What `tid` is carrying. */
  function Burden(c: Context, tid: Tid): multiset<Entry>
  {
    if tid in c.adds then Carried(c.adds[tid], RingPc(c, tid)) else multiset{}
  }

  lemma OthersCarryTheSame(c: Context, c': Context, tid: Tid)
    requires Only(c.adds, c'.adds, tid)
    requires forall a :: a in c.adds && a != tid ==> RingPc(c', a) == RingPc(c, a)
    ensures CarriedByAdders(c) - {tid} == CarriedByAdders(c') - {tid}
  {
    var m, m' := CarriedByAdders(c) - {tid}, CarriedByAdders(c') - {tid};
    forall a
      ensures (a in m <==> a in m') && (a in m ==> m[a] == m'[a])
    {
    }
  }

  lemma CarriedIsBurden(c: Context, tid: Tid)
    ensures At(CarriedByAdders(c), tid) == Burden(c, tid)
  {
  }

  /** Only `tid`'s burden changed. */
  lemma Rebalanced(c: Context, c': Context, tid: Tid)
    requires Only(c.adds, c'.adds, tid)
    requires forall a :: a in c.adds && a != tid ==> RingPc(c', a) == RingPc(c, a)
    ensures Total(CarriedByAdders(c')) + Burden(c, tid) == Total(CarriedByAdders(c)) + Burden(c', tid)
  {
    OthersCarryTheSame(c, c', tid);
    CarriedIsBurden(c, tid);
    CarriedIsBurden(c', tid);
    TotalChange(CarriedByAdders(c), CarriedByAdders(c'), tid);
  }

  /** What the adders put down is found elsewhere. */
  lemma PutDown(c: Context, c': Context, tid: Tid, e: Entry)
    requires Conserved(c) && c'.hist.added == c.hist.added
    requires Total(CarriedByAdders(c')) + Burden(c, tid) == Total(CarriedByAdders(c)) + Burden(c', tid)
    requires || (Burden(c, tid) == multiset{e} && Burden(c', tid) == multiset{} && Elsewhere(c') == Elsewhere(c) + multiset{e})
             || (Burden(c, tid) == Burden(c', tid) && Elsewhere(c') == Elsewhere(c))
    ensures Conserved(c')
  {
    Balance(
      c.hist.added, Total(CarriedByAdders(c)), Total(CarriedByAdders(c')), Elsewhere(c), Elsewhere(c'),
      Burden(c, tid), Burden(c', tid));
  }

  lemma StartAddConserves(c: Context, tid: Tid, selfNotify: bool)
    requires Conserved(c) && tid !in c.adds && tid !in c.ring.pcs && tid != TRIGGER
    ensures Conserved(StartAdd(c, tid, selfNotify))
  {
    var c', e := StartAdd(c, tid, selfNotify), Q.Entry(|c.hist.owner|, selfNotify);
    Rebalanced(c, c', tid);
    assert Burden(c', tid) == multiset{e} && Burden(c, tid) == multiset{};
    assert RingPc(c', TRIGGER) == RingPc(c, TRIGGER);
    assert Elsewhere(c') == Elsewhere(c);
    BalancePlus(c.hist.added, Total(CarriedByAdders(c)), Total(CarriedByAdders(c')), Elsewhere(c), multiset{e});
  }

  lemma StartAddNumbers(c: Context, tid: Tid, selfNotify: bool)
    requires Numbered(c)
    ensures Numbered(StartAdd(c, tid, selfNotify))
  {
  }

  lemma OneMore(hand: seq<Entry>, ring: seq<Entry>, queue: seq<Entry>, done: seq<Entry>, e: Entry)
    ensures Whereabouts(hand, ring + [e], queue, done) == Whereabouts(hand, ring, queue, done) + multiset{e}
    ensures Whereabouts(hand, ring, queue + [e], done) == Whereabouts(hand, ring, queue, done) + multiset{e}
  {
  }

  /** The producer's compare-and-swap puts its entry down; its other steps do not. */
  lemma CarriedAfterStep(s: Q.State, tid: Tid, e: Entry)
    requires tid in s.pcs && IsPush(s.pcs[tid]) && !Q.Finished(s.pcs[tid])
    ensures ClaimsSlot(s, s.pcs[tid]) ==>
      Carried(AddPush(e), s.pcs[tid]) == multiset{e} && Carried(AddPush(e), Q.Step(s, tid).pcs[tid]) == multiset{}
    ensures !ClaimsSlot(s, s.pcs[tid]) ==>
      Carried(AddPush(e), Q.Step(s, tid).pcs[tid]) == Carried(AddPush(e), s.pcs[tid])
  {
  }

  lemma PushStepElsewhere(c: Context, c': Context, tid: Tid, e: Entry)
    requires Callers(c) && |c.ring.tick.log| >= c.ring.tick.consHead
    requires TRIGGER in c.ring.pcs && Q.ClaimedPop(c.ring.pcs[TRIGGER]) ==> c.ring.pcs[TRIGGER].t < |c.ring.tick.log|
    requires tid in c.adds && c.adds[tid] == AddPush(e) && tid in c.ring.pcs && !Q.Finished(c.ring.pcs[tid])
    requires c' == c.(ring := Q.Step(c.ring, tid))
    ensures ClaimsSlot(c.ring, c.ring.pcs[tid]) ==> Elsewhere(c') == Elsewhere(c) + multiset{e}
    ensures !ClaimsSlot(c.ring, c.ring.pcs[tid]) ==> Elsewhere(c') == Elsewhere(c)
  {
    StepMoves(c.ring, tid);
    StepTicks(c.ring, tid);
    assert RingPc(c', TRIGGER) == RingPc(c, TRIGGER);
    assert Hand(c') == Hand(c);
    if ClaimsSlot(c.ring, c.ring.pcs[tid]) {
      assert InRing(c'.ring.tick) == InRing(c.ring.tick) + [e];
      OneMore(Hand(c), InRing(c.ring.tick), c.backfill.queue, c.hist.triggered, e);
    }
  }

  lemma PushStepConserves(c: Context, tid: Tid, e: Entry)
    requires Conserved(c) && Callers(c) && |c.ring.tick.log| >= c.ring.tick.consHead
    requires TRIGGER in c.ring.pcs && Q.ClaimedPop(c.ring.pcs[TRIGGER]) ==> c.ring.pcs[TRIGGER].t < |c.ring.tick.log|
    requires tid in c.adds && c.adds[tid] == AddPush(e) && tid in c.ring.pcs && !Q.Finished(c.ring.pcs[tid])
    ensures Conserved(PushTurn(c, tid, e))
  {
    var c' := PushTurn(c, tid, e);
    PushStepElsewhere(c, c', tid, e);
    CarriedAfterStep(c.ring, tid, e);
    StepMoves(c.ring, tid);
    Rebalanced(c, c', tid);
    PutDown(c, c', tid, e);
  }

  /** An adder's steps outside the ring: only the push onto the backfill queue moves its entry. */
  lemma AddStepElsewhere(c: Context, tid: Tid)
    requires AddEnabled(c, tid) && tid != TRIGGER && (c.adds[tid].AddPush? ==> Q.Finished(c.ring.pcs[tid]))
    ensures var c' := AddStep(c, tid);
            if c.adds[tid].AddBackfill? then Elsewhere(c') == Elsewhere(c) + multiset{c.adds[tid].e}
            else Elsewhere(c') == Elsewhere(c)
  {
    var c', e := AddStep(c, tid), c.adds[tid].e;
    assert RingPc(c', TRIGGER) == RingPc(c, TRIGGER);
    assert Hand(c') == Hand(c);
    OneMore(Hand(c), InRing(c.ring.tick), c.backfill.queue, c.hist.triggered, e);
  }

  lemma AddStepBurden(c: Context, tid: Tid)
    requires Callers(c) && AddEnabled(c, tid) && (c.adds[tid].AddPush? ==> Q.Finished(c.ring.pcs[tid]))
    ensures if c.adds[tid].AddBackfill? then Burden(c, tid) == multiset{c.adds[tid].e} && Burden(AddStep(c, tid), tid) == multiset{}
            else Burden(AddStep(c, tid), tid) == Burden(c, tid)
  {
  }

  lemma AddStepOthers(c: Context, tid: Tid)
    requires AddEnabled(c, tid) && (c.adds[tid].AddPush? ==> Q.Finished(c.ring.pcs[tid]))
    ensures Only(c.adds, AddStep(c, tid).adds, tid) && AddStep(c, tid).hist.added == c.hist.added
    ensures forall a :: a in c.adds && a != tid ==> RingPc(AddStep(c, tid), a) == RingPc(c, a)
  {
  }

  lemma AddStepConserves(c: Context, tid: Tid)
    requires Conserved(c) && Callers(c) && AddEnabled(c, tid) && (c.adds[tid].AddPush? ==> Q.Finished(c.ring.pcs[tid]))
    ensures Conserved(AddStep(c, tid))
  {
    var c' := AddStep(c, tid);
    AddStepElsewhere(c, tid);
    AddStepBurden(c, tid);
    AddStepOthers(c, tid);
    Rebalanced(c, c', tid);
    PutDown(c, c', tid, c.adds[tid].e);
  }

  /** The trigger's compare-and-swap takes the oldest entry of the ring into its hand. */
  lemma PopClaimElsewhere(k: Q.Tickets, k': Q.Tickets, pc: Q.Pc, queue: seq<Entry>, done: seq<Entry>)
    requires k.consHead < |k.log| && k' == k.(consHead := k.consHead + 1)
    requires Q.ClaimedPop(pc) && pc.t == k.consHead
    ensures Whereabouts(InHand(TrigPop, pc, k'.log), InRing(k'), queue, done) == Whereabouts([], InRing(k), queue, done)
  {
    assert InRing(k) == [k.log[k.consHead]] + InRing(k');
  }

  /** Its other steps keep what it holds. */
  lemma HandAfterStep(s: Q.State)
    requires Q.Inv(s) && TRIGGER in s.pcs && IsPop(s.pcs[TRIGGER]) && !Q.Finished(s.pcs[TRIGGER]) && !ClaimsEntry(s, s.pcs[TRIGGER])
    ensures InHand(TrigPop, Q.Step(s, TRIGGER).pcs[TRIGGER], s.tick.log) == InHand(TrigPop, s.pcs[TRIGGER], s.tick.log)
  {
    var pc := s.pcs[TRIGGER];
    assert Q.PcOk(s, pc);
    if pc.PopLoad? {
      assert s.ring.slots[pc.t % Q.Size(s)] == s.tick.log[pc.t];
    }
  }

  lemma PopClaims(s: Q.State)
    requires Q.Inv(s) && Q.NoLap(s) && TRIGGER in s.pcs && ClaimsEntry(s, s.pcs[TRIGGER])
    ensures s.tick.consHead < |s.tick.log|
    ensures Q.Step(s, TRIGGER).tick == s.tick.(consHead := s.tick.consHead + 1)
    ensures Q.Step(s, TRIGGER).pcs[TRIGGER] == Q.PopLoad(s.pcs[TRIGGER].h, s.tick.consHead)
  {
    assert Q.PcOk(s, s.pcs[TRIGGER]);
    Masking.SameResidue(s.pcs[TRIGGER].t, s.tick.consHead, Q.Size(s));
  }

  lemma PopClaimTurn(c: Context)
    requires Q.Inv(c.ring) && Q.NoLap(c.ring) && TRIGGER in c.ring.pcs && c.trig.TrigPop? && ClaimsEntry(c.ring, c.ring.pcs[TRIGGER])
    ensures Elsewhere(PopTurn(c)) == Elsewhere(c)
  {
    var c' := PopTurn(c);
    PopClaims(c.ring);
    assert Hand(c) == [];
    PopClaimElsewhere(c.ring.tick, c'.ring.tick, c'.ring.pcs[TRIGGER], c.backfill.queue, c.hist.triggered);
  }

  lemma PopWalkTurn(c: Context)
    requires Q.Inv(c.ring) && Callers(c) && c.trig.TrigPop? && !Q.Finished(c.ring.pcs[TRIGGER]) && !ClaimsEntry(c.ring, c.ring.pcs[TRIGGER])
    ensures Elsewhere(PopTurn(c)) == Elsewhere(c)
  {
    var c' := PopTurn(c);
    StepTicks(c.ring, TRIGGER);
    HandAfterStep(c.ring);
    assert Hand(c') == Hand(c);
    assert InRing(c'.ring.tick) == InRing(c.ring.tick);
  }

  lemma HeadTaken(ring: seq<Entry>, queue: seq<Entry>, done: seq<Entry>)
    requires queue != []
    ensures Whereabouts([queue[0]], ring, queue[1..], done) == Whereabouts([], ring, queue, done)
  {
    assert queue == [queue[0]] + queue[1..];
  }

  /** The trigger's steps outside the ring. */
  lemma TakeElsewhere(c: Context)
    requires c.trig.TrigTake?
    ensures Elsewhere(TakeTurn(c)) == Elsewhere(c)
  {
    if c.backfill.queue != [] {
      assert Hand(TakeTurn(c)) == [c.backfill.queue[0]] && Hand(c) == [];
      HeadTaken(InRing(c.ring.tick), c.backfill.queue, c.hist.triggered);
    }
  }

  lemma RunElsewhere(c: Context, e: Entry)
    requires c.trig == TrigRun(e)
    ensures Elsewhere(TrigStep(c, true)) == Elsewhere(c)
    ensures TrigStep(c, false) == TrigStep(c, true)
  {
    assert Hand(c) == [e] && Hand(TrigStep(c, true)) == [];
  }

  lemma TrigRestElsewhere(c: Context, choice: bool)
    requires TrigEnabled(c) && !c.trig.TrigTake? && !c.trig.TrigRun? && (c.trig.TrigPop? ==> Callers(c) && Q.Finished(c.ring.pcs[TRIGGER]))
    ensures Elsewhere(TrigStep(c, choice)) == Elsewhere(c)
  {
    var c' := TrigStep(c, choice);
    assert Hand(c') == Hand(c);
    assert c'.ring.tick == c.ring.tick && c'.backfill.queue == c.backfill.queue && c'.hist.triggered == c.hist.triggered;
  }

  lemma TrigStepElsewhere(c: Context, choice: bool)
    requires Q.Inv(c.ring) && Q.NoLap(c.ring) && Callers(c) && TrigEnabled(c)
    ensures Elsewhere(TrigStep(c, choice)) == Elsewhere(c)
  {
    if c.trig.TrigTake? {
      TakeElsewhere(c);
    } else if c.trig.TrigRun? {
      RunElsewhere(c, c.trig.e);
    } else if c.trig.TrigPop? && !Q.Finished(c.ring.pcs[TRIGGER]) {
      if ClaimsEntry(c.ring, c.ring.pcs[TRIGGER]) {
        PopClaimTurn(c);
      } else {
        PopWalkTurn(c);
      }
    } else {
      TrigRestElsewhere(c, choice);
    }
  }

  // -------------------------------------------------------------- every step

  /** What a step outside the adders leaves alone. */
  ghost predicate SameAdding(c: Context, c': Context)
  {
    && c'.adds == c.adds && c'.hist.added == c.hist.added && |c'.hist.owner| == |c.hist.owner|
    && (forall a :: a in c.adds ==> RingPc(c', a) == RingPc(c, a))
  }

  lemma SameAddingConserves(c: Context, c': Context)
    requires Conserved(c) && TRIGGER !in c.adds && SameAdding(c, c') && Elsewhere(c') == Elsewhere(c)
    ensures Conserved(c')
  {
    assert CarriedByAdders(c') == CarriedByAdders(c);
  }

  lemma TrigStepSameAdding(c: Context, choice: bool)
    requires TrigEnabled(c) && TRIGGER !in c.adds
    ensures SameAdding(c, TrigStep(c, choice))
  {
    if c.trig.TrigPop? && !Q.Finished(c.ring.pcs[TRIGGER]) {
      StepMoves(c.ring, TRIGGER);
    }
  }

  lemma ProgStepSameAdding(c: Context, choice: bool)
    requires ProgEnabled(c)
    ensures SameAdding(c, ProgStep(c, choice)) && Elsewhere(ProgStep(c, choice)) == Elsewhere(c)
  {
    ProgChanges(c, choice);
  }

  lemma PushingBounds(c: Context)
    requires Q.Inv(c.ring)
    ensures |c.ring.tick.log| >= c.ring.tick.consHead
    ensures TRIGGER in c.ring.pcs && Q.ClaimedPop(c.ring.pcs[TRIGGER]) ==> c.ring.pcs[TRIGGER].t < |c.ring.tick.log|
  {
    if TRIGGER in c.ring.pcs {
      assert Q.PcOk(c.ring, c.ring.pcs[TRIGGER]);
    }
  }

  lemma AddingConserves(c: Context, tid: Tid)
    requires Q.Inv(c.ring) && Callers(c) && Conserved(c) && AddEnabled(c, tid)
    ensures Conserved(AddStep(c, tid))
  {
    if c.adds[tid].AddPush? && !Q.Finished(c.ring.pcs[tid]) {
      PushingBounds(c);
      PushStepConserves(c, tid, c.adds[tid].e);
    } else {
      AddStepConserves(c, tid);
    }
  }

  lemma ApplyConserves(c: Context, a: Action)
    requires Structure(c) && ProducersUnlapped(c) && Conserved(c) && Enabled(c, a)
    ensures Conserved(Apply(c, a))
  {
    UnlappedRing(c);
    match a
    case DoAdd(tid, selfNotify) => StartAddConserves(c, tid, selfNotify);
    case DoAddStep(tid) => AddingConserves(c, tid);
    case DoTrigger(choice) =>
      TrigStepElsewhere(c, choice);
      TrigStepSameAdding(c, choice);
      SameAddingConserves(c, TrigStep(c, choice));
    case DoProgress(choice) =>
      ProgStepSameAdding(c, choice);
      SameAddingConserves(c, ProgStep(c, choice));
  }

  lemma AddStepNumbers(c: Context, tid: Tid)
    requires Numbered(c) && AddEnabled(c, tid)
    ensures Numbered(AddStep(c, tid))
  {
    assert AddStep(c, tid).hist.added == c.hist.added && AddStep(c, tid).hist.owner == c.hist.owner;
  }

  lemma ApplyNumbers(c: Context, a: Action)
    requires Callers(c) && Numbered(c) && Enabled(c, a)
    ensures Numbered(Apply(c, a))
  {
    match a
    case DoAdd(tid, selfNotify) => StartAddNumbers(c, tid, selfNotify);
    case DoAddStep(tid) => AddStepNumbers(c, tid);
    case DoTrigger(choice) => TrigStepSameAdding(c, choice);
    case DoProgress(choice) => ProgStepSameAdding(c, choice);
  }

  // -------------------------------------------------------------- whole runs

  lemma InitConserved(c: Context)
    requires Init(c)
    ensures Conserved(c) && Numbered(c)
  {
    assert CarriedByAdders(c) == map[];
  }

  lemma {:induction false} RunsConserve(states: seq<Context>, acts: seq<Action>, i: nat)
    requires Run(states, acts) && NeverLapped(states) && i < |states|
    ensures Structure(states[i]) && Conserved(states[i]) && Numbered(states[i])
  {
    RunsKeepStructure(states, acts, i);
    if i == 0 {
      InitConserved(states[0]);
    } else {
      RunsConserve(states, acts, i - 1);
      assert ProducersUnlapped(states[i - 1]);
      ApplyConserves(states[i - 1], acts[i - 1]);
      ApplyNumbers(states[i - 1], acts[i - 1]);
    }
  }

  /** In every run, only added entries are run, and each at most once. */
  lemma TriggeredAtMostOnce(states: seq<Context>, acts: seq<Action>, i: nat, e: Entry)
    requires Run(states, acts) && NeverLapped(states) && i < |states|
    ensures multiset(states[i].hist.triggered)[e] <= states[i].hist.added[e] <= 1
  {
    RunsConserve(states, acts, i);
    var c := states[i];
    assert Elsewhere(c)[e] >= multiset(c.hist.triggered)[e];
  }

  /** The claimed tickets of producers are held by threads that are inside a push. */
  lemma NoAdderNoClaim(c: Context)
    requires Structure(c) && Q.ClaimsCounted(c.ring) && c.adds == map[]
    ensures c.ring.tick.prodTail == c.ring.tick.prodHead
  {
    assert Q.Producers(c.ring) == {};
  }

  lemma AddStepKeepsClaims(c: Context, tid: Tid)
    requires Q.ClaimsCounted(c.ring) && Callers(c) && AddEnabled(c, tid)
    ensures Q.ClaimsCounted(AddStep(c, tid).ring)
  {
    if c.adds[tid].AddPush? {
      Q.ApplyKeepsClaims(c.ring, if Q.Finished(c.ring.pcs[tid]) then Q.DoReturn(tid) else Q.DoStep(tid));
    }
  }

  lemma TrigStepKeepsClaims(c: Context, choice: bool)
    requires Q.ClaimsCounted(c.ring) && Callers(c) && TrigEnabled(c)
    ensures Q.ClaimsCounted(TrigStep(c, choice).ring)
  {
    if c.trig.TrigIdle? {
      Q.ApplyKeepsClaims(c.ring, Q.DoPop(TRIGGER));
    } else if c.trig.TrigPop? {
      Q.ApplyKeepsClaims(c.ring, if Q.Finished(c.ring.pcs[TRIGGER]) then Q.DoReturn(TRIGGER) else Q.DoStep(TRIGGER));
    }
  }

  lemma ApplyKeepsClaims(c: Context, a: Action)
    requires Q.ClaimsCounted(c.ring) && Callers(c) && Enabled(c, a)
    ensures Q.ClaimsCounted(Apply(c, a).ring)
  {
    match a
    case DoAdd(tid, selfNotify) => Q.ApplyKeepsClaims(c.ring, Q.DoPush(tid, Q.Entry(|c.hist.owner|, selfNotify)));
    case DoAddStep(tid) => AddStepKeepsClaims(c, tid);
    case DoTrigger(choice) => TrigStepKeepsClaims(c, choice);
    case DoProgress(_) =>
  }

  lemma {:induction false} RunsCountClaims(states: seq<Context>, acts: seq<Action>, i: nat)
    requires Run(states, acts) && NeverLapped(states) && i < |states|
    ensures Q.ClaimsCounted(states[i].ring)
  {
    if i > 0 {
      RunsCountClaims(states, acts, i - 1);
      RunsKeepStructure(states, acts, i - 1);
      ApplyKeepsClaims(states[i - 1], acts[i - 1]);
    }
  }

  /**
   Whenever no addition is in progress and the trigger is between calls,
   everything that was added has been run, is in the ring's FIFO or is in the
   backfill queue, whose count is its length.
   */
  lemma NothingLost(states: seq<Context>, acts: seq<Action>, i: nat)
    requires Run(states, acts) && NeverLapped(states) && i < |states|
    requires states[i].adds == map[] && states[i].trig.TrigIdle?
    ensures Q.Inv(states[i].ring)
    ensures states[i].hist.added ==
      multiset(states[i].hist.triggered) + multiset(Q.Queue(states[i].ring)) + multiset(states[i].backfill.queue)
    ensures states[i].backfill.count == |states[i].backfill.queue|
  {
    var c := states[i];
    RunsConserve(states, acts, i);
    RunsCountClaims(states, acts, i);
    NoAdderNoClaim(c);
    assert CarriedByAdders(c) == map[];
    assert InRing(c.ring.tick) == Q.Queue(c.ring);
  }
}
