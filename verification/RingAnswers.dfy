/**
 What the answers of the ring's calls mean: every answer has an instant inside
 its own call at which it was right, whatever the other threads do, and a call
 that is left alone answers within a fixed number of steps.
 */
module RingAnswers {
  import opened AtomicQueue
  import opened Masking

  predicate IsPush(pc: Pc)
  {
    pc.PushReadHead? || HoldsProdHead(pc) || ClaimedPush(pc) || pc.PushOk? || pc.PushFull?
  }

  // ------------------------------------------------------------------ one call

  lemma CallBegins(s: State, a: Action, tid: Tid)
    requires Enabled(s, a) && tid in Apply(s, a).pcs
    ensures tid !in s.pcs ==> a == if IsPush(Apply(s, a).pcs[tid]) then DoPush(tid, Apply(s, a).pcs[tid].e) else DoPop(tid)
    ensures tid in s.pcs ==> IsPush(s.pcs[tid]) == IsPush(Apply(s, a).pcs[tid])
    ensures tid in s.pcs && IsPush(s.pcs[tid]) ==> s.pcs[tid].e == Apply(s, a).pcs[tid].e
  {
  }

  /** The thread has been inside one call since the action `j`, with the entry it was called with. */
  ghost predicate SameCall(states: seq<State>, acts: seq<Action>, j: nat, i: nat, tid: Tid)
    requires Run(states, acts) && j < i < |states|
  {
    && (forall k :: j < k <= i ==> tid in states[k].pcs && IsPush(states[k].pcs[tid]) == acts[j].DoPush?)
    && (if acts[j].DoPush?
        then acts[j].tid == tid && forall k :: j < k <= i ==> states[k].pcs[tid].e == acts[j].e
        else acts[j] == DoPop(tid))
  }

  lemma {:induction false} CalledAt(states: seq<State>, acts: seq<Action>, i: nat, tid: Tid) returns (j: nat)
    requires Run(states, acts) && i < |states| && tid in states[i].pcs
    ensures j < i && SameCall(states, acts, j, i, tid)
  {
    assert i > 0 && states[i] == Apply(states[i - 1], acts[i - 1]);
    CallBegins(states[i - 1], acts[i - 1], tid);
    if tid in states[i - 1].pcs {
      j := CalledAt(states, acts, i - 1, tid);
    } else {
      j := i - 1;
    }
  }

  /** The step after which the thread has an answer that it did not have before. */
  ghost predicate Answers(s: State, a: Action, tid: Tid)
  {
    Enabled(s, a) && tid in Apply(s, a).pcs && Finished(Apply(s, a).pcs[tid]) && !(tid in s.pcs && Finished(s.pcs[tid]))
  }

  /** Where answers come from. */
  lemma AnswerSteps(s: State, a: Action, tid: Tid)
    requires Answers(s, a, tid)
    ensures a == DoStep(tid) && tid in s.pcs
    ensures var pc, pc' := s.pcs[tid], Apply(s, a).pcs[tid];
            && (pc'.PushFull? ==> pc.PushRecheckTail? && pc.e == pc'.e)
            && (pc'.PushOk? ==> pc.PushPublish? && pc.e == pc'.e)
            && (pc'.PopNull? ==> pc.PopReadTail?)
            && (pc'.PopGot? ==> pc.PopPublish? && pc.e == pc'.e && pc.t == pc'.t)
  {
  }

  // ---------------------------------------------------------------------- full

  /** The thread is past its read of cons_tail in the current push attempt. */
  predicate Rechecking(s: State, tid: Tid)
  {
    tid in s.pcs && (s.pcs[tid].PushRecheckHead? || s.pcs[tid].PushRecheckTail?)
  }

  lemma RecheckBegins(s: State, a: Action, tid: Tid)
    requires Enabled(s, a) && Rechecking(Apply(s, a), tid)
    ensures tid in s.pcs && s.pcs[tid].e == Apply(s, a).pcs[tid].e
    ensures var pc, pc' := s.pcs[tid], Apply(s, a).pcs[tid];
            if Rechecking(s, tid)
            then pc.t == pc'.t && pc.u == pc'.u && (pc'.PushRecheckTail? && !pc.PushRecheckTail? ==> s.ring.prodHead == pc.h)
            else pc.PushReadTail? && pc'.PushRecheckHead? && pc.t == pc'.t && s.tick.consTail == pc'.u
  {
  }

  /** Where it read cons_tail. */
  lemma {:induction false} ReadTailAt(states: seq<State>, acts: seq<Action>, i: nat, tid: Tid) returns (j: nat)
    requires Run(states, acts) && i < |states| && Rechecking(states[i], tid)
    ensures j < i && tid in states[j].pcs && states[j].pcs[tid].PushReadTail?
    ensures states[j].tick.consTail == states[i].pcs[tid].u && states[j].pcs[tid].t == states[i].pcs[tid].t
    ensures forall k :: j < k <= i ==> Rechecking(states[k], tid)
  {
    assert i > 0 && states[i] == Apply(states[i - 1], acts[i - 1]);
    RecheckBegins(states[i - 1], acts[i - 1], tid);
    if Rechecking(states[i - 1], tid) {
      j := ReadTailAt(states, acts, i - 1, tid);
    } else {
      j := i - 1;
    }
  }

  lemma HeadGrowsOnce(s: State, a: Action)
    requires Enabled(s, a)
    ensures s.tick.prodHead <= Apply(s, a).tick.prodHead && s.ring.mask == Apply(s, a).ring.mask
  {
    if a.DoStep? {
      StepTickets(s, a.tid);
    }
  }

  lemma {:induction false} HeadGrows(states: seq<State>, acts: seq<Action>, i: nat, j: nat)
    requires Run(states, acts) && i <= j < |states|
    ensures states[i].tick.prodHead <= states[j].tick.prodHead && states[i].ring.mask == states[j].ring.mask
    decreases j
  {
    if i < j {
      HeadGrows(states, acts, i, j - 1);
      HeadGrowsOnce(states[j - 1], acts[j - 1]);
    }
  }

  /** Once it has found prod_head unmoved, no ticket was claimed since it read it, so the ring was full when it read cons_tail. */
  lemma {:induction false} FullAt(states: seq<State>, acts: seq<Action>, i: nat, tid: Tid) returns (j: nat)
    requires Run(states, acts) && NeverLapped(states) && i < |states| && tid in states[i].pcs && states[i].pcs[tid].PushRecheckTail?
    ensures j < i && Outstanding(states[j]) == states[j].ring.mask
    ensures tid in states[j].pcs && states[j].pcs[tid].PushReadTail?
    ensures forall k :: j < k <= i ==> Rechecking(states[k], tid)
  {
    assert i > 0 && states[i] == Apply(states[i - 1], acts[i - 1]);
    RecheckBegins(states[i - 1], acts[i - 1], tid);
    if states[i - 1].pcs[tid].PushRecheckTail? {
      j := FullAt(states, acts, i - 1, tid);
    } else {
      j := ReadTailAt(states, acts, i - 1, tid);
      FullThere(states, acts, j, i - 1, tid);
    }
  }

  lemma FullThere(states: seq<State>, acts: seq<Action>, j: nat, i: nat, tid: Tid)
    requires Run(states, acts) && NeverLapped(states) && j < i < |states|
    requires tid in states[j].pcs && states[j].pcs[tid].PushReadTail?
    requires tid in states[i].pcs && states[i].pcs[tid].PushRecheckHead? && states[i].ring.prodHead == states[i].pcs[tid].h
    requires states[j].tick.consTail == states[i].pcs[tid].u && states[j].pcs[tid].t == states[i].pcs[tid].t
    ensures Outstanding(states[j]) == states[j].ring.mask
  {
    RunsKeepInv(states, acts, i);
    RunsKeepInv(states, acts, j);
    HeadGrows(states, acts, j, i);
    assert PcOk(states[j], states[j].pcs[tid]) && PcOk(states[i], states[i].pcs[tid]);
    assert Unlapped(states[i], tid);
    SameResidue(states[i].pcs[tid].t, states[i].tick.prodHead, Size(states[i]));
  }

  /**
   However a push comes to answer "full", size - 1 tickets were outstanding at
   an instant `j` inside that very call, and the answer is counted as a drop.
   */
  lemma FullIsLinearizable(states: seq<State>, acts: seq<Action>, i: nat, tid: Tid) returns (call: nat, j: nat)
    requires Run(states, acts) && NeverLapped(states) && i < |acts|
    requires Answers(states[i], acts[i], tid) && states[i + 1].pcs[tid].PushFull?
    ensures call < j <= i && SameCall(states, acts, call, i + 1, tid)
    ensures Outstanding(states[j]) == states[j].ring.mask
    ensures states[i + 1].ring.drops == states[i].ring.drops + 1
  {
    AnswerSteps(states[i], acts[i], tid);
    call := CalledAt(states, acts, i + 1, tid);
    j := FullAt(states, acts, i, tid);
    InsideCall(states, acts, call, i + 1, j, tid);
  }

  /** A call that began at `call` and is still going on at `i` has the thread inside at every instant back to any `j` it was inside since. */
  lemma InsideCall(states: seq<State>, acts: seq<Action>, call: nat, i: nat, j: nat, tid: Tid)
    requires Run(states, acts) && call < i < |states| && j < i && SameCall(states, acts, call, i, tid)
    requires forall k :: j <= k < i ==> tid in states[k].pcs
    ensures call < j
  {
    assert states[call + 1] == Apply(states[call], acts[call]) && Enabled(states[call], acts[call]);
    assert tid !in states[call].pcs;
  }

  /** Nothing else is counted as a drop. */
  lemma OnlyFullDrops(s: State, a: Action)
    requires Enabled(s, a) && Apply(s, a).ring.drops != s.ring.drops
    ensures a.DoStep? && Answers(s, a, a.tid) && Apply(s, a).pcs[a.tid].PushFull? && Apply(s, a).ring.drops == s.ring.drops + 1
  {
  }

  // ------------------------------------------------------------------------ ok

  /** However a push comes to answer "ok", that step appends the entry of its call to the FIFO. */
  lemma OkIsLinearizable(states: seq<State>, acts: seq<Action>, i: nat, tid: Tid) returns (call: nat)
    requires Run(states, acts) && NeverLapped(states) && i < |acts|
    requires Answers(states[i], acts[i], tid) && states[i + 1].pcs[tid].PushOk?
    ensures call < i && SameCall(states, acts, call, i + 1, tid) && acts[call].DoPush?
    ensures Inv(states[i]) && Inv(states[i + 1]) && Queue(states[i + 1]) == Queue(states[i]) + [acts[call].e]
  {
    AnswerSteps(states[i], acts[i], tid);
    call := CalledAt(states, acts, i + 1, tid);
    RunsKeepInv(states, acts, i);
    assert NoLap(states[i]);
    StepRefinesFifo(states[i], acts[i]);
  }

  // ---------------------------------------------------------------------- null

  lemma AttemptBegins(s: State, a: Action, tid: Tid)
    requires Enabled(s, a) && tid in Apply(s, a).pcs && Apply(s, a).pcs[tid].PopReadTail?
    ensures tid in s.pcs
    ensures if s.pcs[tid].PopReadTail? then s.pcs[tid] == Apply(s, a).pcs[tid]
            else s.pcs[tid].PopReadHead? && s.tick.consHead == Apply(s, a).pcs[tid].t
  {
  }

  lemma {:induction false} NullAttempt(states: seq<State>, acts: seq<Action>, i: nat, tid: Tid) returns (j: nat)
    requires Run(states, acts) && i < |states| && tid in states[i].pcs && states[i].pcs[tid].PopReadTail?
    ensures j < i && tid in states[j].pcs && states[j].pcs[tid].PopReadHead?
    ensures states[j].tick.consHead == states[i].pcs[tid].t
    ensures forall k :: j < k <= i ==> tid in states[k].pcs && states[k].pcs[tid] == states[i].pcs[tid]
  {
    assert i > 0 && states[i] == Apply(states[i - 1], acts[i - 1]);
    AttemptBegins(states[i - 1], acts[i - 1], tid);
    if states[i - 1].pcs[tid].PopReadTail? {
      j := NullAttempt(states, acts, i - 1, tid);
    } else {
      j := i - 1;
    }
  }

  /**
   However a pop comes to answer NULL, it read cons_head at an instant `j`
   inside that very call and prod_tail at the instant `i` of the answer; the
   FIFO is empty at the latter exactly when prod_tail is then less than a
   revolution ahead of what it read.
   */
  lemma NullIsLinearizable(states: seq<State>, acts: seq<Action>, i: nat, tid: Tid) returns (call: nat, j: nat)
    requires Run(states, acts) && NeverLapped(states) && i < |acts|
    requires Answers(states[i], acts[i], tid) && states[i + 1].pcs[tid].PopNull?
    ensures call < j < i && SameCall(states, acts, call, i + 1, tid) && acts[call] == DoPop(tid)
    ensures Inv(states[i])
    ensures Queue(states[i]) == [] <==> states[i].tick.prodTail < states[j].tick.consHead + Size(states[i])
  {
    AnswerSteps(states[i], acts[i], tid);
    RunsKeepInv(states, acts, i);
    assert NoLap(states[i]) && states[i + 1] == Step(states[i], tid);
    call := CalledAt(states, acts, i + 1, tid);
    j := NullAttempt(states, acts, i, tid);
    InsideCall(states, acts, call, i + 1, j, tid);
    NullRightIff(states[i], tid);
  }

  // ----------------------------------------------------------------------- got

  lemma ClaimBegins(s: State, a: Action, tid: Tid)
    requires Enabled(s, a) && tid in Apply(s, a).pcs && ClaimedPop(Apply(s, a).pcs[tid])
    ensures tid in s.pcs
    ensures if ClaimedPop(s.pcs[tid]) then s.pcs[tid].t == Apply(s, a).pcs[tid].t
            else a == DoStep(tid) && s.pcs[tid].PopCas? && s.ring.consHead == s.pcs[tid].h
  {
  }

  /** Where it claimed its ticket. */
  lemma {:induction false} ClaimedAt(states: seq<State>, acts: seq<Action>, i: nat, tid: Tid) returns (j: nat)
    requires Run(states, acts) && i < |states| && tid in states[i].pcs && ClaimedPop(states[i].pcs[tid])
    ensures j < i && acts[j] == DoStep(tid) && forall k :: j <= k < i ==> tid in states[k].pcs
    ensures states[j].pcs[tid].PopCas? && states[j].ring.consHead == states[j].pcs[tid].h
    ensures tid in states[j + 1].pcs && ClaimedPop(states[j + 1].pcs[tid]) && states[j + 1].pcs[tid].t == states[i].pcs[tid].t
  {
    assert i > 0 && states[i] == Apply(states[i - 1], acts[i - 1]);
    ClaimBegins(states[i - 1], acts[i - 1], tid);
    if ClaimedPop(states[i - 1].pcs[tid]) {
      j := ClaimedAt(states, acts, i - 1, tid);
    } else {
      j := i - 1;
    }
  }

  lemma ClaimedThere(states: seq<State>, acts: seq<Action>, j: nat, tid: Tid)
    requires Run(states, acts) && NeverLapped(states) && j < |acts| && acts[j] == DoStep(tid)
    requires states[j].pcs[tid].PopCas? && states[j].ring.consHead == states[j].pcs[tid].h
    ensures Inv(states[j]) && Inv(states[j + 1]) && Queue(states[j]) != [] && Queue(states[j + 1]) == Queue(states[j])[1..]
    ensures states[j + 1].pcs[tid].PopLoad? && states[j + 1].pcs[tid].t < |states[j].tick.log|
    ensures states[j].tick.log[states[j + 1].pcs[tid].t] == Queue(states[j])[0]
  {
    RunsKeepInv(states, acts, j);
    assert NoLap(states[j]);
    StepRefinesFifo(states[j], acts[j]);
  }

  lemma GotStep(s: State, a: Action, tid: Tid)
    requires Inv(s) && Answers(s, a, tid) && Apply(s, a).pcs[tid].PopGot?
    ensures tid in s.pcs && s.pcs[tid].PopPublish? && s.pcs[tid].t < |s.tick.log|
    ensures Apply(s, a).pcs[tid].e == s.tick.log[s.pcs[tid].t]
    ensures Apply(s, a).tick.returned == s.tick.returned + [Apply(s, a).pcs[tid].e]
  {
    AnswerSteps(s, a, tid);
    assert PcOk(s, s.pcs[tid]);
  }

  lemma HeadFirst(q: seq<Entry>, e: Entry)
    requires |q| > 0 && q[0] == e
    ensures q == [e] + q[1..]
  {
  }

  /** However a pop comes to answer with an entry, that entry was the oldest at an instant inside that very call, and was taken then. */
  lemma GotIsLinearizable(states: seq<State>, acts: seq<Action>, i: nat, tid: Tid) returns (call: nat, j: nat)
    requires Run(states, acts) && NeverLapped(states) && i < |acts|
    requires Answers(states[i], acts[i], tid) && states[i + 1].pcs[tid].PopGot?
    ensures call < j < i && SameCall(states, acts, call, i + 1, tid) && acts[call] == DoPop(tid)
    ensures Inv(states[j]) && Inv(states[j + 1])
    ensures Queue(states[j]) == [states[i + 1].pcs[tid].e] + Queue(states[j + 1])
    ensures states[i + 1].tick.returned == states[i].tick.returned + [states[i + 1].pcs[tid].e]
  {
    RunsKeepInv(states, acts, i);
    GotStep(states[i], acts[i], tid);
    call := CalledAt(states, acts, i + 1, tid);
    j := ClaimedAt(states, acts, i, tid);
    InsideCall(states, acts, call, i + 1, j, tid);
    ClaimedThere(states, acts, j, tid);
    LogGrows(states, acts, j, i);
    HeadFirst(Queue(states[j]), states[i + 1].pcs[tid].e);
  }

  // ------------------------------------------------------------- starting over

  /** The thread is inside its call and begins another attempt. */
  ghost predicate StartsOver(s: State, a: Action, tid: Tid)
  {
    && Enabled(s, a) && tid in s.pcs && tid in Apply(s, a).pcs && s.pcs[tid] != Apply(s, a).pcs[tid]
    && (Apply(s, a).pcs[tid].PushReadHead? || Apply(s, a).pcs[tid].PopReadHead?)
  }

  lemma OverSteps(s: State, a: Action, tid: Tid)
    requires StartsOver(s, a, tid)
    ensures a == DoStep(tid)
    ensures if Apply(s, a).pcs[tid].PushReadHead? then s.pcs[tid].PushCas? && s.ring.prodHead != s.pcs[tid].h
            else s.pcs[tid].PopCas? && s.ring.consHead != s.pcs[tid].h
  {
  }

  lemma HeadBegins(s: State, a: Action, tid: Tid)
    requires Enabled(s, a) && tid in Apply(s, a).pcs
    requires HoldsProdHead(Apply(s, a).pcs[tid]) || HoldsConsHead(Apply(s, a).pcs[tid])
    ensures tid in s.pcs
    ensures var pc, pc' := s.pcs[tid], Apply(s, a).pcs[tid];
            if HoldsProdHead(pc') then
              if HoldsProdHead(pc) then pc.t == pc'.t else pc.PushReadHead? && s.tick.prodHead == pc'.t
            else
              if HoldsConsHead(pc) then pc.t == pc'.t else pc.PopReadHead? && s.tick.consHead == pc'.t
  {
  }

  /** Where the thread read the head that it holds. */
  lemma {:induction false} ReadHeadAt(states: seq<State>, acts: seq<Action>, i: nat, tid: Tid) returns (j: nat)
    requires Run(states, acts) && i < |states| && tid in states[i].pcs
    requires HoldsProdHead(states[i].pcs[tid]) || HoldsConsHead(states[i].pcs[tid])
    ensures j < i && forall k :: j <= k <= i ==> tid in states[k].pcs
    ensures if HoldsProdHead(states[i].pcs[tid])
            then states[j].pcs[tid].PushReadHead? && states[j].tick.prodHead == states[i].pcs[tid].t
            else states[j].pcs[tid].PopReadHead? && states[j].tick.consHead == states[i].pcs[tid].t
  {
    assert i > 0 && states[i] == Apply(states[i - 1], acts[i - 1]);
    HeadBegins(states[i - 1], acts[i - 1], tid);
    if HoldsProdHead(states[i - 1].pcs[tid]) || HoldsConsHead(states[i - 1].pcs[tid]) {
      j := ReadHeadAt(states, acts, i - 1, tid);
    } else {
      j := i - 1;
    }
  }

  /**
   Lock-freedom: a call begins another attempt only when its compare-and-swap
   failed, and then another thread has claimed a ticket of the same kind since
   the call read the head, at the instant `j`.
   */
  lemma OverOnlyIfBeaten(states: seq<State>, acts: seq<Action>, i: nat, tid: Tid) returns (j: nat)
    requires Run(states, acts) && NeverLapped(states) && i < |acts| && StartsOver(states[i], acts[i], tid)
    ensures j < i && forall k :: j <= k <= i ==> tid in states[k].pcs
    ensures if states[i + 1].pcs[tid].PushReadHead?
            then states[i].pcs[tid].PushCas? && states[j].pcs[tid].PushReadHead? && states[j].tick.prodHead < states[i].tick.prodHead
            else states[i].pcs[tid].PopCas? && states[j].pcs[tid].PopReadHead? && states[j].tick.consHead < states[i].tick.consHead
  {
    OverSteps(states[i], acts[i], tid);
    RunsKeepInv(states, acts, i);
    assert PcOk(states[i], states[i].pcs[tid]);
    j := ReadHeadAt(states, acts, i, tid);
  }

  // ------------------------------------------------------------- left alone

  /** No other thread has claimed a ticket and not given it back; what the thread itself read was not lapped. */
  ghost predicate Lone(s: State, tid: Tid)
  {
    && Inv(s) && ClaimsCounted(s) && tid in s.pcs && Unlapped(s, tid)
    && (forall other :: other in s.pcs && other != tid ==> !ClaimedPush(s.pcs[other]) && !ClaimedPop(s.pcs[other]))
  }

  /** How many steps there are at most to an answer; more if a head has moved since the thread read it. */
  function Rank(s: State, tid: Tid): (r: nat)
    requires tid in s.pcs
    ensures r <= 11
  {
    match s.pcs[tid]
    case PushReadHead(_) => 8
    case PushReadTail(_, _, t) => if t == s.tick.prodHead then 7 else 11
    case PushRecheckHead(_, _, t, _, _) => if t == s.tick.prodHead then 6 else 10
    case PushRecheckTail(_, _, t, _, _) => if t == s.tick.prodHead then 5 else 10
    case PushCas(_, _, t) => if t == s.tick.prodHead then 4 else 9
    case PushStore(_, _, _) => 3
    case PushAwait(_, _, _) => 2
    case PushPublish(_, _, _) => 1
    case PopReadHead => 6
    case PopReadTail(_, t) => if t == s.tick.consHead then 5 else 8
    case PopCas(_, t) => if t == s.tick.consHead then 4 else 7
    case PopLoad(_, _) => 3
    case PopAwait(_, _, _) => 2
    case PopPublish(_, _, _) => 1
    case _ => 0
  }

  /** A thread that has claimed has the only ticket between tail and head. */
  lemma LoneTicket(s: State, tid: Tid)
    requires Lone(s, tid)
    ensures ClaimedPush(s.pcs[tid]) ==> s.tick.prodHead == s.tick.prodTail + 1 && s.pcs[tid].t == s.tick.prodTail
    ensures !ClaimedPush(s.pcs[tid]) ==> s.tick.prodHead == s.tick.prodTail
    ensures ClaimedPop(s.pcs[tid]) ==> s.tick.consHead == s.tick.consTail + 1 && s.pcs[tid].t == s.tick.consTail
    ensures !ClaimedPop(s.pcs[tid]) ==> s.tick.consHead == s.tick.consTail
  {
    assert PcOk(s, s.pcs[tid]);
    assert Producers(s) == if ClaimedPush(s.pcs[tid]) then {tid} else {};
    assert Consumers(s) == if ClaimedPop(s.pcs[tid]) then {tid} else {};
  }

  lemma LoneStep(s: State, tid: Tid)
    requires Lone(s, tid)
    ensures Lone(Step(s, tid), tid)
  {
    StepKeepsInv(s, tid);
    StepKeepsClaims(s, tid);
    StepHolds(s, tid);
    UnlappedStep(s, tid);
  }

  /** What a thread holds after a step it held before, or has just read. */
  lemma HoldsAfter(s: State, tid: Tid)
    requires tid in s.pcs
    ensures tid in Step(s, tid).pcs && Step(s, tid).ring.mask == s.ring.mask
    ensures var pc, pc' := s.pcs[tid], Step(s, tid).pcs[tid];
            && (HoldsProdHead(pc') ==> if HoldsProdHead(pc) then pc'.t == pc.t else pc'.t == s.tick.prodHead)
            && (HoldsConsHead(pc') ==> if HoldsConsHead(pc) then pc'.t == pc.t else pc'.t == s.tick.consHead)
            && (HoldsProdHead(pc') || HoldsConsHead(pc') ==> Step(s, tid).tick == s.tick)
  {
  }

  lemma UnlappedStep(s: State, tid: Tid)
    requires Inv(s) && tid in s.pcs && Unlapped(s, tid)
    ensures tid in Step(s, tid).pcs && Unlapped(Step(s, tid), tid)
  {
    HoldsAfter(s, tid);
  }

  lemma ClaimRankFalls(s: State, tid: Tid)
    requires Lone(s, tid) && (s.pcs[tid].PushReadHead? || HoldsProdHead(s.pcs[tid]))
    ensures tid in Step(s, tid).pcs && Rank(Step(s, tid), tid) < Rank(s, tid)
  {
    var pc := s.pcs[tid];
    assert PcOk(s, pc);
    if HoldsProdHead(pc) && pc.t != s.tick.prodHead {
      DifferentSlots(pc.t, s.tick.prodHead, Size(s));
    }
  }

  lemma FillRankFalls(s: State, tid: Tid)
    requires Lone(s, tid) && ClaimedPush(s.pcs[tid])
    ensures tid in Step(s, tid).pcs && Rank(Step(s, tid), tid) < Rank(s, tid)
  {
    assert PcOk(s, s.pcs[tid]);
    LoneTicket(s, tid);
  }

  lemma PopRankFalls(s: State, tid: Tid)
    requires Lone(s, tid) && (s.pcs[tid].PopReadHead? || HoldsConsHead(s.pcs[tid]))
    ensures tid in Step(s, tid).pcs && Rank(Step(s, tid), tid) < Rank(s, tid)
  {
    var pc := s.pcs[tid];
    assert PcOk(s, pc);
    if HoldsConsHead(pc) && pc.t != s.tick.consHead {
      DifferentSlots(pc.t, s.tick.consHead, Size(s));
    }
  }

  lemma DrainRankFalls(s: State, tid: Tid)
    requires Lone(s, tid) && ClaimedPop(s.pcs[tid])
    ensures tid in Step(s, tid).pcs && Rank(Step(s, tid), tid) < Rank(s, tid)
  {
    assert PcOk(s, s.pcs[tid]);
    LoneTicket(s, tid);
  }

  /** Every step of a thread left alone brings it nearer to its answer. */
  lemma RankFalls(s: State, tid: Tid)
    requires Lone(s, tid) && !Finished(s.pcs[tid])
    ensures tid in Step(s, tid).pcs && Rank(Step(s, tid), tid) < Rank(s, tid)
  {
    var pc := s.pcs[tid];
    if pc.PushReadHead? || HoldsProdHead(pc) {
      ClaimRankFalls(s, tid);
    } else if ClaimedPush(pc) {
      FillRankFalls(s, tid);
    } else if pc.PopReadHead? || HoldsConsHead(pc) {
      PopRankFalls(s, tid);
    } else {
      DrainRankFalls(s, tid);
    }
  }

  function Solo(s: State, tid: Tid, n: nat): (r: State)
    requires tid in s.pcs
    ensures tid in r.pcs
    decreases n
  {
    if n == 0 then s else StepStays(s, tid); Solo(Step(s, tid), tid, n - 1)
  }

  lemma StepStays(s: State, tid: Tid)
    requires tid in s.pcs
    ensures tid in Step(s, tid).pcs
  {
  }

  lemma SoloFirst(s: State, tid: Tid, n: nat)
    requires tid in s.pcs
    ensures tid in Step(s, tid).pcs && Solo(s, tid, n + 1) == Solo(Step(s, tid), tid, n) && (n == 0 ==> Solo(s, tid, 1) == Step(s, tid))
  {
    StepStays(s, tid);
  }

  /** From wherever it stands in its call, whatever the others had done before, a thread left alone answers within eleven steps. */
  lemma {:induction false} LoneFinishes(s: State, tid: Tid) returns (n: nat)
    requires Lone(s, tid)
    ensures n <= Rank(s, tid) && Finished(Solo(s, tid, n).pcs[tid])
    decreases Rank(s, tid)
  {
    if Finished(s.pcs[tid]) {
      n := 0;
    } else {
      LoneStep(s, tid);
      RankFalls(s, tid);
      var m := LoneFinishes(Step(s, tid), tid);
      n := m + 1;
    }
  }

  /** What the thread has read is still so. */
  predicate Fresh(s: State, tid: Tid)
    requires tid in s.pcs
  {
    var pc := s.pcs[tid];
    && (HoldsProdHead(pc) ==> pc.t == s.tick.prodHead)
    && (pc.PushRecheckHead? || pc.PushRecheckTail? ==> pc.u == s.tick.consTail)
    && (HoldsConsHead(pc) ==> pc.t == s.tick.consHead)
  }

  /** What a push left alone does from here: it fails exactly on a full ring. */
  ghost predicate PushDone(s: State, tid: Tid, r: State)
    requires tid in s.pcs && IsPush(s.pcs[tid]) && Inv(s)
  {
    && tid in r.pcs && Inv(r)
    && (if ClaimedPush(s.pcs[tid]) || Outstanding(s) < s.ring.mask
        then r.pcs[tid].PushOk? && Queue(r) == Queue(s) + [s.pcs[tid].e]
        else r.pcs[tid] == PushFull(s.pcs[tid].e) && Queue(r) == Queue(s))
  }

  /** One step of it. */
  ghost predicate PushMoves(s: State, s': State, tid: Tid)
    requires tid in s.pcs && Inv(s) && Inv(s')
  {
    var pc := s.pcs[tid];
    && tid in s'.pcs && IsPush(pc) && IsPush(s'.pcs[tid]) && s'.pcs[tid].e == pc.e && s'.ring.mask == s.ring.mask
    && (if pc.PushPublish? then s'.pcs[tid].PushOk? && Queue(s') == Queue(s) + [pc.e]
        else !s'.pcs[tid].PushOk? && Queue(s') == Queue(s))
    && (if ClaimedPush(pc) then pc.PushPublish? || ClaimedPush(s'.pcs[tid])
        else if s'.pcs[tid].PushFull? then Outstanding(s) >= s.ring.mask
        else if ClaimedPush(s'.pcs[tid]) then Outstanding(s) < s.ring.mask
        else Outstanding(s') == Outstanding(s))
  }

  lemma FillMoves(s: State, tid: Tid)
    requires Lone(s, tid) && ClaimedPush(s.pcs[tid]) && Inv(Step(s, tid))
    ensures PushMoves(s, Step(s, tid), tid) && Fresh(Step(s, tid), tid)
  {
    assert PcOk(s, s.pcs[tid]);
    if s.pcs[tid].PushPublish? {
      PublishAppends(s, tid);
    } else {
      OtherStepsKeep(s, tid);
    }
  }

  lemma ClaimMoves(s: State, tid: Tid)
    requires Lone(s, tid) && Fresh(s, tid) && (s.pcs[tid].PushReadHead? || HoldsProdHead(s.pcs[tid])) && Inv(Step(s, tid))
    ensures PushMoves(s, Step(s, tid), tid) && Fresh(Step(s, tid), tid)
  {
    var pc := s.pcs[tid];
    assert PcOk(s, pc);
    OtherStepsKeep(s, tid);
    if pc.PushCas? {
      ClaimHasRoom(s, tid);
    }
  }

  lemma PushDoneFrom(s: State, s': State, tid: Tid, r: State)
    requires tid in s.pcs && Inv(s) && Inv(s') && PushMoves(s, s', tid) && !Finished(s'.pcs[tid]) && PushDone(s', tid, r)
    ensures PushDone(s, tid, r)
  {
  }

  lemma PushDoneNow(s: State, s': State, tid: Tid)
    requires tid in s.pcs && Inv(s) && Inv(s') && PushMoves(s, s', tid) && !Finished(s.pcs[tid]) && Finished(s'.pcs[tid])
    ensures PushDone(s, tid, s')
  {
  }

  lemma PushAdvances(s: State, tid: Tid)
    requires Lone(s, tid) && Fresh(s, tid) && IsPush(s.pcs[tid]) && !Finished(s.pcs[tid])
    ensures Lone(Step(s, tid), tid) && Rank(Step(s, tid), tid) < Rank(s, tid)
    ensures PushMoves(s, Step(s, tid), tid) && Fresh(Step(s, tid), tid)
  {
    LoneStep(s, tid);
    RankFalls(s, tid);
    if ClaimedPush(s.pcs[tid]) {
      FillMoves(s, tid);
    } else {
      ClaimMoves(s, tid);
    }
  }

  lemma {:induction false} PushRuns(s: State, tid: Tid) returns (n: nat)
    requires Lone(s, tid) && Fresh(s, tid) && IsPush(s.pcs[tid]) && !Finished(s.pcs[tid])
    ensures n <= Rank(s, tid) && PushDone(s, tid, Solo(s, tid, n))
    decreases Rank(s, tid)
  {
    var s' := Step(s, tid);
    PushAdvances(s, tid);
    if Finished(s'.pcs[tid]) {
      n := 1;
      SoloFirst(s, tid, 0);
      PushDoneNow(s, s', tid);
    } else {
      var m := PushRuns(s', tid);
      n := m + 1;
      SoloFirst(s, tid, m);
      PushDoneFrom(s, s', tid, Solo(s', tid, m));
    }
  }

  /** A pop left alone answers NULL exactly on an empty FIFO, and otherwise takes its oldest entry. */
  ghost predicate PopDone(s: State, tid: Tid, r: State)
    requires tid in s.pcs && !IsPush(s.pcs[tid]) && Inv(s)
  {
    && tid in r.pcs && Inv(r) && Finished(r.pcs[tid])
    && (if ClaimedPop(s.pcs[tid])
        then s.pcs[tid].t < |s.tick.log| && r.pcs[tid].PopGot? && r.pcs[tid].e == s.tick.log[s.pcs[tid].t] && Queue(r) == Queue(s)
        else if Queue(s) == [] then r.pcs[tid].PopNull? && Queue(r) == []
        else r.pcs[tid].PopGot? && r.pcs[tid].e == Queue(s)[0] && Queue(r) == Queue(s)[1..])
  }

  /** One step of it. */
  ghost predicate PopMoves(s: State, s': State, tid: Tid)
    requires tid in s.pcs && Inv(s) && Inv(s')
  {
    var pc := s.pcs[tid];
    && tid in s'.pcs && !IsPush(pc) && !IsPush(s'.pcs[tid]) && s'.tick.log == s.tick.log
    && (ClaimedPop(pc) ==> pc.t < |s.tick.log|) && (ClaimedPop(s'.pcs[tid]) ==> s'.pcs[tid].t < |s.tick.log|)
    && (if ClaimedPop(pc)
        then Queue(s') == Queue(s) &&
             (if pc.PopPublish? then s'.pcs[tid].PopGot? && s'.pcs[tid].e == s.tick.log[pc.t]
              else ClaimedPop(s'.pcs[tid]) && s'.pcs[tid].t == pc.t)
        else if s'.pcs[tid].PopNull? then Queue(s) == [] == Queue(s')
        else if ClaimedPop(s'.pcs[tid])
        then Queue(s) != [] && Queue(s') == Queue(s)[1..] && s.tick.log[s'.pcs[tid].t] == Queue(s)[0]
        else !s'.pcs[tid].PopGot? && Queue(s') == Queue(s))
  }

  lemma DrainMoves(s: State, tid: Tid)
    requires Lone(s, tid) && ClaimedPop(s.pcs[tid]) && Inv(Step(s, tid))
    ensures PopMoves(s, Step(s, tid), tid) && Fresh(Step(s, tid), tid)
  {
    assert PcOk(s, s.pcs[tid]);
    LoneTicket(s, tid);
    OtherStepsKeep(s, tid);
  }

  lemma LookMoves(s: State, tid: Tid)
    requires Lone(s, tid) && Fresh(s, tid) && (s.pcs[tid].PopReadHead? || s.pcs[tid].PopReadTail?) && Inv(Step(s, tid))
    ensures PopMoves(s, Step(s, tid), tid) && Fresh(Step(s, tid), tid)
  {
    var pc := s.pcs[tid];
    assert PcOk(s, pc);
    OtherStepsKeep(s, tid);
    if pc.PopReadTail? {
      NullExactForLoneConsumer(s, tid);
    }
  }

  lemma TakeMoves(s: State, tid: Tid)
    requires Lone(s, tid) && Fresh(s, tid) && s.pcs[tid].PopCas? && Inv(Step(s, tid))
    ensures PopMoves(s, Step(s, tid), tid) && Fresh(Step(s, tid), tid)
  {
    assert PcOk(s, s.pcs[tid]);
    ClaimTakesOldest(s, tid);
  }

  lemma PopDoneFrom(s: State, s': State, tid: Tid, r: State)
    requires tid in s.pcs && Inv(s) && Inv(s') && PopMoves(s, s', tid) && !Finished(s'.pcs[tid]) && PopDone(s', tid, r)
    ensures PopDone(s, tid, r)
  {
  }

  lemma PopDoneNow(s: State, s': State, tid: Tid)
    requires tid in s.pcs && Inv(s) && Inv(s') && PopMoves(s, s', tid) && !Finished(s.pcs[tid]) && Finished(s'.pcs[tid])
    ensures PopDone(s, tid, s')
  {
  }

  lemma PopAdvances(s: State, tid: Tid)
    requires Lone(s, tid) && Fresh(s, tid) && !IsPush(s.pcs[tid]) && !Finished(s.pcs[tid])
    ensures Lone(Step(s, tid), tid) && Rank(Step(s, tid), tid) < Rank(s, tid)
    ensures PopMoves(s, Step(s, tid), tid) && Fresh(Step(s, tid), tid)
  {
    LoneStep(s, tid);
    RankFalls(s, tid);
    if ClaimedPop(s.pcs[tid]) {
      DrainMoves(s, tid);
    } else if s.pcs[tid].PopCas? {
      TakeMoves(s, tid);
    } else {
      LookMoves(s, tid);
    }
  }

  lemma {:induction false} PopRuns(s: State, tid: Tid) returns (n: nat)
    requires Lone(s, tid) && Fresh(s, tid) && !IsPush(s.pcs[tid]) && !Finished(s.pcs[tid])
    ensures 0 < n <= Rank(s, tid) && PopDone(s, tid, Solo(s, tid, n))
    ensures forall k :: 0 <= k < n ==> !Finished(Solo(s, tid, k).pcs[tid])
    decreases Rank(s, tid)
  {
    var s' := Step(s, tid);
    PopAdvances(s, tid);
    if Finished(s'.pcs[tid]) {
      n := 1;
      SoloFirst(s, tid, 0);
      PopDoneNow(s, s', tid);
    } else {
      var m := PopRuns(s', tid);
      n := m + 1;
      SoloFirst(s, tid, m);
      PopDoneFrom(s, s', tid, Solo(s', tid, m));
      forall k | 0 <= k < n
        ensures !Finished(Solo(s, tid, k).pcs[tid])
      {
        if k > 0 {
          SoloFirst(s, tid, k - 1);
        }
      }
    }
  }
}
