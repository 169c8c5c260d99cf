/**
 Why the order of the two loads in hg_atomic_queue_is_empty matters: when
 cons_head is loaded first, a run in which no producer is ever lapped can end
 with the progress thread blocked, the loopback event unset, and self-notified
 entries whose adders have returned in the ring.

 Size 4.  Three self-notified entries are added.  Progress takes the notify
 mutex and loads cons_head.  The trigger takes one entry and another one is
 added, so prod_tail comes round to the same masked value.  Progress loads it,
 finds the ring empty, and goes to sleep.
 */
module LostWakeup {
  import opened Completion
  import Masking
  import Wakeup
  import opened RingLimits
  import Q = AtomicQueue

  ghost predicate Reachable(c: Context)
  {
    exists states, acts :: Run(states, acts) && NeverLapped(states) && states[|acts|] == c
  }

  lemma ReachStart(c: Context)
    requires Init(c)
    ensures Reachable(c)
  {
    var states, acts: seq<Action> := [c], [];
    assert Run(states, acts) && NeverLapped(states);
  }

  lemma RunLonger(states: seq<Context>, acts: seq<Action>, a: Action)
    requires Run(states, acts) && NeverLapped(states) && Enabled(states[|acts|], a) && ProducersUnlapped(Apply(states[|acts|], a))
    ensures Run(states + [Apply(states[|acts|], a)], acts + [a]) && NeverLapped(states + [Apply(states[|acts|], a)])
  {
    var states', acts' := states + [Apply(states[|acts|], a)], acts + [a];
    forall i | 0 <= i < |acts'|
      ensures Enabled(states'[i], acts'[i]) && states'[i + 1] == Apply(states'[i], acts'[i])
    {
      if i < |acts| {
        assert states[i + 1] == Apply(states[i], acts[i]);
      }
    }
  }

  lemma ReachStep(c: Context, a: Action)
    requires Reachable(c) && Enabled(c, a) && ProducersUnlapped(Apply(c, a))
    ensures Reachable(Apply(c, a))
  {
    var states, acts :| Run(states, acts) && NeverLapped(states) && states[|acts|] == c;
    RunLonger(states, acts, a);
    assert (states + [Apply(c, a)])[|acts + [a]|] == Apply(c, a);
  }

  // ------------------------------------------------------ one thread in the ring

  /** `c` with thread `tid` alone inside the ring. */
  function Inside(c: Context, s: Q.State, tid: Tid, pc: Q.Pc): Context
  {
    c.(ring := Q.Goto(s, tid, pc))
  }

  ghost predicate Current(s: Q.State, pc: Q.Pc)
  {
    s.pcs == map[] && (Q.HoldsProdHead(pc) ==> pc.t == s.tick.prodHead)
  }

  lemma AloneUnlapped(c: Context, s: Q.State, tid: Tid, pc: Q.Pc)
    requires Current(s, pc)
    ensures ProducersUnlapped(Inside(c, s, tid, pc))
  {
  }

  /** One ring step of an adder. */
  lemma PushHop(c: Context, s: Q.State, tid: Tid, pc: Q.Pc, s': Q.State, pc': Q.Pc)
    requires tid in c.adds && c.adds[tid].AddPush? && !Q.Finished(pc) && Reachable(Inside(c, s, tid, pc))
    requires Q.Step(Q.Goto(s, tid, pc), tid) == Q.Goto(s', tid, pc') && Current(s', pc')
    ensures Reachable(Inside(c, s', tid, pc'))
  {
    AloneUnlapped(c, s', tid, pc');
    assert Apply(Inside(c, s, tid, pc), DoAddStep(tid)) == Inside(c, s', tid, pc');
    ReachStep(Inside(c, s, tid, pc), DoAddStep(tid));
  }

  /** One ring step of the trigger. */
  lemma PopHop(c: Context, s: Q.State, pc: Q.Pc, s': Q.State, pc': Q.Pc)
    requires c.trig.TrigPop? && !Q.Finished(pc) && Reachable(Inside(c, s, TRIGGER, pc))
    requires Q.Step(Q.Goto(s, TRIGGER, pc), TRIGGER) == Q.Goto(s', TRIGGER, pc') && Current(s', pc')
    ensures Reachable(Inside(c, s', TRIGGER, pc'))
  {
    AloneUnlapped(c, s', TRIGGER, pc');
    assert Apply(Inside(c, s, TRIGGER, pc), DoTrigger(true)) == Inside(c, s', TRIGGER, pc');
    ReachStep(Inside(c, s, TRIGGER, pc), DoTrigger(true));
  }

  /** The ring is at rest. */
  ghost predicate RingRests(s: Q.State)
  {
    Settled(s) && s.pcs == map[]
  }

  lemma ClaimHops(c: Context, s: Q.State, tid: Tid, e: Entry)
    requires RingRests(s) && Q.Outstanding(s) < s.ring.mask && tid in c.adds && c.adds[tid] == AddPush(e)
    requires Reachable(Inside(c, s, tid, Q.PushReadHead(e)))
    ensures Reachable(Inside(c, Claimed(s, e), tid, Q.PushStore(e, s.ring.prodHead, s.tick.prodHead)))
  {
    var h, t := s.ring.prodHead, s.tick.prodHead;
    ClaimSteps(s, tid, e);
    PushHop(c, s, tid, Q.PushReadHead(e), s, Q.PushReadTail(e, h, t));
    PushHop(c, s, tid, Q.PushReadTail(e, h, t), s, Q.PushCas(e, h, t));
    PushHop(c, s, tid, Q.PushCas(e, h, t), Claimed(s, e), Q.PushStore(e, h, t));
  }

  lemma FillHops(c: Context, s: Q.State, tid: Tid, e: Entry)
    requires RingRests(s) && tid in c.adds && c.adds[tid] == AddPush(e)
    requires Reachable(Inside(c, Claimed(s, e), tid, Q.PushStore(e, s.ring.prodHead, s.tick.prodHead)))
    ensures Reachable(Inside(c, Published(s, e), tid, Q.PushOk(e, s.tick.prodHead)))
  {
    var h, t := s.ring.prodHead, s.tick.prodHead;
    FillSteps(s, tid, e);
    PushHop(c, Claimed(s, e), tid, Q.PushStore(e, h, t), Stored(s, e), Q.PushAwait(e, h, t));
    PushHop(c, Stored(s, e), tid, Q.PushAwait(e, h, t), Stored(s, e), Q.PushPublish(e, h, t));
    PushHop(c, Stored(s, e), tid, Q.PushPublish(e, h, t), Published(s, e), Q.PushOk(e, t));
  }

  lemma PublishedRests(s: Q.State, e: Entry)
    requires RingRests(s) && Q.Outstanding(s) < s.ring.mask
    ensures RingRests(Published(s, e)) && Published(s, e).ring.mask == s.ring.mask
    ensures Published(s, e).tick ==
      s.tick.(prodHead := s.tick.prodHead + 1, prodTail := s.tick.prodTail + 1, log := s.tick.log + [e])
  {
  }

  // ------------------------------------------------------------------ one addition

  /** Nobody is adding. */
  ghost predicate NoAdders(c: Context)
  {
    RingRests(c.ring) && Q.Outstanding(c.ring) < c.ring.ring.mask && c.adds == map[] && c.locks.completion == Free && c.trig.TrigIdle?
  }

  function NextEntry(c: Context, selfNotify: bool): Entry
  {
    Q.Entry(|c.hist.owner|, selfNotify)
  }

  /** An addition by thread 1 up to its signal. */
  function Pushed(c: Context, selfNotify: bool): Context
  {
    var e := NextEntry(c, selfNotify);
    StartAdd(c, 1, selfNotify).(ring := Published(c.ring, e), adds := map[1 := AddSignal(e)])
  }

  lemma PushAlone(c: Context, selfNotify: bool)
    requires Reachable(c) && NoAdders(c)
    ensures Reachable(Pushed(c, selfNotify))
  {
    var e, base := NextEntry(c, selfNotify), StartAdd(c, 1, selfNotify);
    AloneUnlapped(base, c.ring, 1, Q.PushReadHead(e));
    ReachStep(c, DoAdd(1, selfNotify));
    assert base == Inside(base, c.ring, 1, Q.PushReadHead(e));
    ClaimHops(base, c.ring, 1, e);
    FillHops(base, c.ring, 1, e);
    PushReturns(c, selfNotify);
  }

  lemma PushReturns(c: Context, selfNotify: bool)
    requires NoAdders(c)
    requires Reachable(Inside(StartAdd(c, 1, selfNotify), Published(c.ring, NextEntry(c, selfNotify)), 1,
                              Q.PushOk(NextEntry(c, selfNotify), c.ring.tick.prodHead)))
    ensures Reachable(Pushed(c, selfNotify))
  {
    var e, base := NextEntry(c, selfNotify), StartAdd(c, 1, selfNotify);
    var c7 := Inside(base, Published(c.ring, e), 1, Q.PushOk(e, c.ring.tick.prodHead));
    assert base.adds[1 := AddSignal(e)] == map[1 := AddSignal(e)];
    assert Q.Return(c7.ring, 1) == Published(c.ring, e);
    assert Apply(c7, DoAddStep(1)) == Pushed(c, selfNotify);
    ReachStep(c7, DoAddStep(1));
  }

  /** The ring stays as it is, with nobody inside, while a step is made outside it. */
  lemma OutsideStep(c: Context, a: Action, c': Context)
    requires Reachable(c) && Enabled(c, a) && Apply(c, a) == c' && c'.ring.pcs == map[]
    ensures Reachable(c')
  {
    ReachStep(c, a);
  }

  /** After an addition: one more entry in the ring, signalled and returned. */
  function Added(c: Context, selfNotify: bool): Context
  {
    var e := NextEntry(c, selfNotify);
    var h := StartAdd(c, 1, selfNotify).hist;
    c.(ring := Published(c.ring, e), adds := map[],
       hist := h.(signalled := h.signalled + {e}, returned := h.returned + {e}))
  }

  /** An addition that needs no notification ends with its signal. */
  lemma AddPlain(c: Context)
    requires Reachable(c) && NoAdders(c)
    ensures Reachable(Added(c, false))
  {
    PushAlone(c, false);
    var e := NextEntry(c, false);
    assert map[1 := AddSignal(e)] - {1} == map[];
    OutsideStep(Pushed(c, false), DoAddStep(1), Added(c, false));
  }

  /** A self-notified addition finds that progress is not waiting, and returns. */
  lemma AddSelfNotified(c: Context)
    requires Reachable(c) && NoAdders(c) && c.locks.notify == Free && !c.flags.mustNotify
    ensures Reachable(Added(c, true))
  {
    PushAlone(c, true);
    var e, c1 := NextEntry(c, true), Pushed(c, true);
    var c2 := c1.(adds := map[1 := AddNotify(e)], hist := c1.hist.(signalled := c1.hist.signalled + {e}));
    assert map[1 := AddSignal(e)][1 := AddNotify(e)] == map[1 := AddNotify(e)];
    OutsideStep(c1, DoAddStep(1), c2);
    NotifyNobody(c2, e);
  }

  lemma NotifyNobody(c: Context, e: Entry)
    requires Reachable(c) && c.ring.pcs == map[] && c.adds == map[1 := AddNotify(e)] && c.locks.notify == Free && !c.flags.mustNotify
    ensures Reachable(c.(adds := map[], hist := c.hist.(returned := c.hist.returned + {e})))
  {
    var c1 := c.(locks := c.locks.(notify := HeldByAdder(1)), adds := map[1 := AddTest(e)]);
    assert map[1 := AddNotify(e)][1 := AddTest(e)] == map[1 := AddTest(e)];
    OutsideStep(c, DoAddStep(1), c1);
    var c2 := c1.(adds := map[1 := AddUnlock(e)]);
    assert map[1 := AddTest(e)][1 := AddUnlock(e)] == map[1 := AddUnlock(e)];
    OutsideStep(c1, DoAddStep(1), c2);
    assert map[1 := AddUnlock(e)] - {1} == map[];
    OutsideStep(c2, DoAddStep(1), c.(adds := map[], hist := c.hist.(returned := c.hist.returned + {e})));
  }

  // ------------------------------------------------------------------ one trigger

  lemma TakeHops(c: Context, s: Q.State)
    requires RingRests(s) && s.tick.consHead < s.tick.prodTail && c.trig.TrigPop? && Reachable(Inside(c, s, TRIGGER, Q.PopReadHead))
    ensures Reachable(Inside(c, Took(s), TRIGGER, Q.PopLoad(s.ring.consHead, s.tick.consHead)))
  {
    var h, t := s.ring.consHead, s.tick.consHead;
    TakeSteps(s, TRIGGER);
    PopHop(c, s, Q.PopReadHead, s, Q.PopReadTail(h, t));
    PopHop(c, s, Q.PopReadTail(h, t), s, Q.PopCas(h, t));
    PopHop(c, s, Q.PopCas(h, t), Took(s), Q.PopLoad(h, t));
  }

  lemma FreeHops(c: Context, s: Q.State, e: Entry)
    requires RingRests(s) && e == Oldest(s) && c.trig.TrigPop?
    requires Reachable(Inside(c, Took(s), TRIGGER, Q.PopLoad(s.ring.consHead, s.tick.consHead)))
    ensures Reachable(Inside(c, Freed(s, e), TRIGGER, Q.PopGot(s.tick.consHead, e)))
  {
    var h, t := s.ring.consHead, s.tick.consHead;
    FreeSteps(s, TRIGGER);
    PopHop(c, Took(s), Q.PopLoad(h, t), Took(s), Q.PopAwait(h, t, e));
    PopHop(c, Took(s), Q.PopAwait(h, t, e), Took(s), Q.PopPublish(h, t, e));
    PopHop(c, Took(s), Q.PopPublish(h, t, e), Freed(s, e), Q.PopGot(t, e));
  }

  /** After the trigger ran the oldest entry of the ring. */
  function Triggered(c: Context): Context
    requires c.ring.ring.consHead < |c.ring.ring.slots|
  {
    var e := Oldest(c.ring);
    c.(ring := Freed(c.ring, e), hist := c.hist.(triggered := c.hist.triggered + [e]))
  }

  lemma TriggerOne(c: Context)
    requires Reachable(c) && RingRests(c.ring) && c.ring.tick.consHead < c.ring.tick.prodTail && c.trig.TrigIdle?
    ensures Reachable(Triggered(c))
  {
    var s, e, base := c.ring, Oldest(c.ring), c.(trig := TrigPop);
    var c1 := Inside(base, s, TRIGGER, Q.PopReadHead);
    AloneUnlapped(base, s, TRIGGER, Q.PopReadHead);
    assert Apply(c, DoTrigger(true)) == c1;
    ReachStep(c, DoTrigger(true));
    TakeHops(base, s);
    FreeHops(base, s, e);
    TriggerEnds(c, e);
  }

  lemma TriggerEnds(c: Context, e: Entry)
    requires RingRests(c.ring) && e == Oldest(c.ring) && c.trig.TrigIdle?
    requires Reachable(Inside(c.(trig := TrigPop), Freed(c.ring, e), TRIGGER, Q.PopGot(c.ring.tick.consHead, e)))
    ensures Reachable(Triggered(c))
  {
    var c1 := Inside(c.(trig := TrigPop), Freed(c.ring, e), TRIGGER, Q.PopGot(c.ring.tick.consHead, e));
    var c2 := c.(ring := Freed(c.ring, e), trig := TrigRun(e));
    assert Q.Return(c1.ring, TRIGGER) == Freed(c.ring, e);
    OutsideStep(c1, DoTrigger(true), c2);
    OutsideStep(c2, DoTrigger(true), Triggered(c));
  }

  lemma FreedRests(s: Q.State, e: Entry)
    requires RingRests(s) && s.tick.consHead < s.tick.prodTail
    ensures RingRests(Freed(s, e)) && Freed(s, e).ring.mask == s.ring.mask && Freed(s, e).tick.log == s.tick.log
    ensures Freed(s, e).tick.prodTail == s.tick.prodTail && Freed(s, e).tick.consHead == s.tick.consHead + 1
  {
  }

  // -------------------------------------------------------------------- the run

  /** Between two blocks: `n` entries pushed, `k` of them taken, ring of size 4. */
  ghost predicate Stage(c: Context, n: nat, k: nat)
  {
    && RingRests(c.ring) && c.ring.ring.mask == 3 && c.ring.tick.prodTail == n && c.ring.tick.consHead == k
    && |c.hist.owner| == n && |c.ring.tick.log| == n
    && c.adds == map[] && c.locks.completion == Free && c.trig.TrigIdle? && c.backfill.count == 0
    && !c.flags.mustNotify && c.flags.event == 0 && !c.tailFirst
  }

  /** The entry with ticket 1 is self-notified and its adder has returned. */
  ghost predicate SecondReturned(c: Context)
  {
    |c.ring.tick.log| > 1 && c.ring.tick.log[1] == Q.Entry(1, true) && Q.Entry(1, true) in c.hist.returned
  }

  lemma AddedStage(c: Context, selfNotify: bool, n: nat, k: nat)
    requires Stage(c, n, k) && n - k < 3
    ensures NoAdders(c)
    ensures Stage(Added(c, selfNotify), n + 1, k) && Added(c, selfNotify).prog == c.prog && Added(c, selfNotify).locks == c.locks
    ensures n == 1 && selfNotify ==> SecondReturned(Added(c, selfNotify))
    ensures SecondReturned(c) ==> SecondReturned(Added(c, selfNotify))
  {
    PublishedRests(c.ring, NextEntry(c, selfNotify));
  }

  function Start(): Context
  {
    Context(Fresh(3, Q.Entry(0, false)), Tier([], 0), Mutexes(Free, Free), Flags(false, 0, false), map[], TrigIdle, ProgIdle,
            false, History([], multiset{}, [], {}, {}))
  }

  lemma StartStage()
    ensures Reachable(Start()) && Stage(Start(), 0, 0)
  {
    assert Masking.Pow2(2) == 4;
    FreshSettled(3, Q.Entry(0, false));
    ReachStart(Start());
  }

  /** Three self-notified entries are in the ring and their adders have returned. */
  lemma ThreeAdded() returns (c: Context)
    ensures Reachable(c) && Stage(c, 3, 0) && SecondReturned(c) && c.prog.ProgIdle? && c.locks.notify == Free
  {
    StartStage();
    c := Start();
    AddedStage(c, true, 0, 0);
    AddSelfNotified(c);
    c := Added(c, true);
    AddedStage(c, true, 1, 0);
    AddSelfNotified(c);
    c := Added(c, true);
    AddedStage(c, true, 2, 0);
    AddSelfNotified(c);
    c := Added(c, true);
  }

  /** Progress takes the notify mutex and loads cons_head. */
  lemma HeadLoaded() returns (c: Context)
    ensures Reachable(c) && Stage(c, 3, 0) && SecondReturned(c) && c.prog == ProgSecond(0, 0)
  {
    var c0 := ThreeAdded();
    var c1 := c0.(prog := ProgLock);
    OutsideStep(c0, DoProgress(true), c1);
    var c2 := c1.(locks := c1.locks.(notify := HeldByProgress), prog := ProgFirst);
    OutsideStep(c1, DoProgress(true), c2);
    c := c2.(prog := ProgSecond(0, 0));
    OutsideStep(c2, DoProgress(true), c);
  }

  /** The trigger takes one entry and another is added: prod_tail is back at the masked value that was loaded. */
  lemma CameRound() returns (c: Context)
    ensures Reachable(c) && Stage(c, 4, 1) && SecondReturned(c) && c.prog == ProgSecond(0, 0)
  {
    var c0 := HeadLoaded();
    TriggerOne(c0);
    FreedRests(c0.ring, Oldest(c0.ring));
    var c1 := Triggered(c0);
    AddedStage(c1, false, 3, 1);
    AddPlain(c1);
    c := Added(c1, false);
  }

  /** Progress finds the ring empty and no backfill. */
  lemma FoundEmpty() returns (c: Context)
    ensures Reachable(c) && Stage(c, 4, 1) && SecondReturned(c) && c.prog == ProgNa
  {
    var c0 := CameRound();
    var c1 := c0.(prog := ProgCount);
    OutsideStep(c0, DoProgress(true), c1);
    c := c1.(prog := ProgNa);
    OutsideStep(c1, DoProgress(true), c);
  }

  /** It arms the notification and blocks. */
  lemma WentToSleep() returns (c: Context)
    ensures Reachable(c) && c.prog.ProgBlocked? && c.flags.event == 0 && SecondReturned(c)
    ensures c.ring.tick.consHead == 1 && c.ring.tick.prodTail == 4 && !c.tailFirst
  {
    var c0 := FoundEmpty();
    var c1 := c0.(prog := ProgArm);
    OutsideStep(c0, DoProgress(true), c1);
    var c2 := c1.(flags := c1.flags.(mustNotify := true), prog := ProgUnlock(true));
    OutsideStep(c1, DoProgress(true), c2);
    c := c2.(locks := c2.locks.(notify := Free), prog := ProgBlocked);
    OutsideStep(c2, DoProgress(true), c);
  }

  /**
   With cons_head loaded first, the wake-up can be lost although no producer is
   ever lapped: progress sleeps, no event is set, and the ring holds a
   self-notified entry whose adder has returned.
   */
  lemma HeadFirstLosesWakeup() returns (states: seq<Context>, acts: seq<Action>, e: Entry)
    ensures Run(states, acts) && NeverLapped(states) && !states[0].tailFirst
    ensures states[|acts|].prog.ProgBlocked? && states[|acts|].flags.event == 0
    ensures e.selfNotify && e in states[|acts|].hist.returned
    ensures Q.Inv(states[|acts|].ring) && e in Q.Queue(states[|acts|].ring)
  {
    var c := WentToSleep();
    states, acts :| Run(states, acts) && NeverLapped(states) && states[|acts|] == c;
    e := Q.Entry(1, true);
    RunsKeepStructure(states, acts, |acts|);
    assert Q.Queue(c.ring)[0] == e;
    Wakeup.OrderFixed(states, acts, |acts|);
  }

  /** The progress thread asleep, everything else as it was. */
  function Asleep(c: Context): Context
  {
    c.(flags := c.flags.(mustNotify := true), locks := c.locks.(notify := Free), prog := ProgBlocked)
  }

  lemma ProgressStep(c: Context, c': Context)
    requires Reachable(c) && !c.prog.ProgLock? && c' == ProgStep(c, true) && c'.ring == c.ring
    ensures Reachable(c')
  {
    var states, acts :| Run(states, acts) && NeverLapped(states) && states[|acts|] == c;
    assert ProducersUnlapped(states[|acts|]);
    ReachStep(c, DoProgress(true));
  }

  /** Progress sleeps, no event is set, and the ring holds a self-notified entry whose adder has returned. */
  ghost predicate Lost(c: Context, e: Entry)
  {
    c.prog.ProgBlocked? && c.flags.event == 0 && Q.Inv(c.ring) && e in Q.Queue(c.ring) && e in Wakeup.Stale(c)
  }

  lemma FallsAsleep(c: Context)
    requires Reachable(c) && c.prog.ProgSecond? && SecondLoad(c) == c.prog.v && c.backfill.count <= 0
    ensures Reachable(Asleep(c))
  {
    var c1 := c.(prog := ProgCount);
    ProgressStep(c, c1);
    var c2 := c.(prog := ProgNa);
    ProgressStep(c1, c2);
    var c3 := c.(prog := ProgArm);
    ProgressStep(c2, c3);
    var c4 := c.(flags := c.flags.(mustNotify := true), prog := ProgUnlock(true));
    ProgressStep(c3, c4);
    ProgressStep(c4, Asleep(c));
  }

  lemma TailFirstNeverLost(c: Context, e: Entry)
    requires Reachable(c) && c.tailFirst
    ensures !Lost(c, e)
  {
    var states, acts :| Run(states, acts) && NeverLapped(states) && states[|acts|] == c;
    Wakeup.OrderFixed(states, acts, |acts|);
    if Lost(c, e) {
      Wakeup.ProgressNotLostTailFirst(states, acts, |acts|);
    }
  }

  /**
   What a misled test costs, in any run: whenever the two loads agree, the
   backfill count is zero and no event is set, the progress thread can go to
   sleep, and what is lost then are exactly the self-notified entries of
   returned adders that the ring holds.  There are none unless cons_head was
   loaded first and has since moved to another value.
   */
  lemma SleepLosesIff(c: Context, e: Entry)
    requires Reachable(c) && c.prog.ProgSecond? && SecondLoad(c) == c.prog.v && c.backfill.count <= 0 && c.flags.event == 0
    ensures Reachable(Asleep(c)) && Q.Inv(c.ring)
    ensures Lost(Asleep(c), e) <==> e in Q.Queue(c.ring) && e in Wakeup.Stale(c)
    ensures Lost(Asleep(c), e) ==> !c.tailFirst && !Wakeup.LoadsRight(c)
  {
    var states, acts :| Run(states, acts) && NeverLapped(states) && states[|acts|] == c;
    RunsKeepStructure(states, acts, |acts|);
    FallsAsleep(c);
    if c.tailFirst {
      TailFirstNeverLost(Asleep(c), e);
    } else if Wakeup.LoadsRight(c) {
      Q.EmptyAnswerExact(c.ring, c.ring.tick.consHead);
    }
  }
}
