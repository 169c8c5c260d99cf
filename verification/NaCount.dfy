/**
 One forward or one respond of src/mercury_core.c, seen by its operation
 counters only: hg_core_forward_na and hg_core_respond_na against the callbacks
 of the operations they post, every callback one step, in any order.

 A forward posts its receive before it counts it; a respond counts its ack
 before it posts it.  When the send cannot be posted, the count is taken back.
 */
module NaCount {

  datatype Plan = Plan(
    isForward: bool,
    preposts: bool,  // a response is expected (forward), an ack is expected (respond)
    postFails: bool, // the receive for it cannot be posted
    sendFails: bool)

  datatype Pc = Start | Posting | Counting | Sending | Rollback | Returned | Failed

  datatype Posted = NotYet | Outstanding | CalledBack

  /** `seen` is the na_op_count that the callback of the pre-posted receive read. */
  datatype Op = Op(
    plan: Plan, pc: Pc, count: int, completed: int,
    pre: Posted, send: Posted, adds: nat, seen: int)

  datatype Event = Advance | PreCallback | SendCallback

  /** Operations already completed on the handle when the call starts: a target has received its input. */
  function Base(p: Plan): int
  {
    if p.isForward then 0 else 1
  }

  ghost predicate Init(o: Op)
  {
    o == Op(o.plan, Start, 1, Base(o.plan), NotYet, NotYet, 0, 0)
  }

  /** hg_core_forward_na (2747-2805) and hg_core_respond_na (2912-2988), one write of the counter or one post per step. */
  function Advanced(o: Op): Op
  {
    match o.pc
    case Start =>
      // a respond counts its send first; both then turn to the receive, if there is one
      o.(count := if o.plan.isForward then o.count else o.count + 1,
         pc := if !o.plan.preposts then Sending else if o.plan.isForward then Posting else Counting)
    case Posting =>
      if o.plan.postFails then o.(pc := Failed)
      else o.(pre := Outstanding, pc := if o.plan.isForward then Counting else Sending)
    case Counting =>
      o.(count := o.count + 1, pc := if o.plan.isForward then Sending else Posting)
    case Sending =>
      if !o.plan.sendFails then o.(send := Outstanding, pc := Returned)
      else o.(pc := if o.plan.preposts then Rollback else Failed)
    case Rollback => o.(count := o.count - 1, pc := Returned)
    case Returned => o
    case Failed => o
  }

  /** hg_core_complete_na (3590-3605): every callback ends here, whether it reports success, cancellation or an error. */
  function CompleteNa(o: Op): Op
  {
    var o' := o.(completed := o.completed + 1);
    if o'.completed == o'.count then o'.(adds := o'.adds + 1) else o'
  }

  predicate Enabled(o: Op, ev: Event)
  {
    match ev
    case Advance => true
    case PreCallback => o.pre.Outstanding?
    case SendCallback => o.send.Outstanding?
  }

  function Apply(o: Op, ev: Event): Op
    requires Enabled(o, ev)
  {
    match ev
    case Advance => Advanced(o)
    case PreCallback => CompleteNa(o.(pre := CalledBack, seen := o.count))
    case SendCallback => CompleteNa(o.(send := CalledBack))
  }

  ghost predicate Run(ops: seq<Op>, events: seq<Event>)
  {
    && |ops| == |events| + 1
    && Init(ops[0])
    && (forall i :: 0 <= i < |events| ==> Enabled(ops[i], events[i]) && ops[i + 1] == Apply(ops[i], events[i]))
  }

  /** The call has returned and every posted operation has called back. */
  predicate Over(o: Op)
  {
    (o.pc.Returned? || o.pc.Failed?) && !o.pre.Outstanding? && !o.send.Outstanding?
  }

  // ------------------------------------------------------------ invariant

  function Called(p: Posted): int
  {
    if p.CalledBack? then 1 else 0
  }

  /** Nothing gets posted: the receive is refused, or there is none and the send is refused. */
  predicate FailsEarly(p: Plan)
  {
    if p.preposts then p.postFails else p.sendFails
  }

  /** The count the call will settle on: one per operation that gets posted, on top of the base. */
  function Final(p: Plan): int
  {
    Base(p) + (if p.preposts then 1 else 0) + (if p.sendFails then 0 else 1)
  }

  ghost predicate Counters(o: Op)
  {
    && o.completed == Base(o.plan) + Called(o.pre) + Called(o.send)
    && (match o.pc
        case Start => o.count == 1 && o.pre.NotYet? && o.send.NotYet?
        case Posting => o.plan.preposts && o.pre.NotYet? && o.send.NotYet? && o.count == (if o.plan.isForward then 1 else 3)
        case Counting =>
          o.plan.preposts && o.send.NotYet? &&
          (if o.plan.isForward then !o.plan.postFails && !o.pre.NotYet? && o.count == 1 else o.pre.NotYet? && o.count == 2)
        case Sending =>
          (o.plan.preposts ==> !o.plan.postFails) && o.send.NotYet? && (o.plan.preposts <==> !o.pre.NotYet?) && o.count == Base(o.plan) + (if o.plan.preposts then 2 else 1)
        case Rollback => o.plan.preposts && !o.plan.postFails && o.plan.sendFails && !o.pre.NotYet? && o.send.NotYet? && o.count == Base(o.plan) + 2
        case Returned =>
          (o.plan.preposts ==> !o.plan.postFails) &&
          (o.plan.preposts <==> !o.pre.NotYet?) && (o.plan.sendFails <==> o.send.NotYet?) &&
          (o.plan.preposts || !o.plan.sendFails) && o.count == Final(o.plan)
        case Failed => FailsEarly(o.plan) && o.pre.NotYet? && o.send.NotYet?)
  }

  /** What the receive's callback can have read, and when it queued the handle. */
  ghost predicate Adds(o: Op)
  {
    && (!o.pre.CalledBack? && !o.send.CalledBack? ==> o.adds == 0)
    && (o.pre.CalledBack? ==> Base(o.plan) + 1 <= o.seen <= Base(o.plan) + 2)
    && (o.pre.CalledBack? && !o.send.CalledBack? ==> o.adds == (if o.seen == Base(o.plan) + 1 then 1 else 0))
    && (!o.pre.CalledBack? && o.send.CalledBack? ==> o.adds == (if o.plan.preposts then 0 else 1))
    && (o.pre.CalledBack? && o.send.CalledBack? ==> o.adds == (if o.seen == Base(o.plan) + 1 then 2 else 1))
    && (!o.plan.isForward && o.pre.CalledBack? && !o.plan.sendFails ==> o.seen == Final(o.plan))
  }

  ghost predicate Inv(o: Op)
  {
    Counters(o) && Adds(o)
  }

  lemma ApplyKeepsCounters(o: Op, ev: Event)
    requires Counters(o) && Enabled(o, ev)
    ensures Counters(Apply(o, ev))
  {
  }

  lemma CallbackKeepsAdds(o: Op, ev: Event)
    requires Inv(o) && Enabled(o, ev) && !ev.Advance?
    ensures Adds(Apply(o, ev))
  {
  }

  lemma ApplyKeepsInv(o: Op, ev: Event)
    requires Inv(o) && Enabled(o, ev)
    ensures Inv(Apply(o, ev))
  {
    ApplyKeepsCounters(o, ev);
    if ev.Advance? {
      assert Adds(Advanced(o));
    } else {
      CallbackKeepsAdds(o, ev);
    }
  }

  lemma {:induction false} RunsKeepInv(ops: seq<Op>, events: seq<Event>, i: nat)
    requires Run(ops, events) && i < |ops|
    ensures Inv(ops[i])
  {
    if i > 0 {
      RunsKeepInv(ops, events, i - 1);
      ApplyKeepsInv(ops[i - 1], events[i - 1]);
    }
  }

  /**
   For every order of the callbacks: once the call and its operations are over,
   the handle was queued exactly once if and only if the callback of the
   pre-posted receive, if there was one, read the final operation count.  A
   call that failed before posting anything queues nothing.
   */
  lemma ExactlyOnceIff(ops: seq<Op>, events: seq<Event>, i: nat)
    requires Run(ops, events) && i < |ops| && Over(ops[i])
    ensures ops[i].pc.Failed? <==> FailsEarly(ops[i].plan)
    ensures ops[i].pc.Failed? ==> ops[i].adds == 0
    ensures ops[i].pc.Returned? ==>
      (ops[i].adds == 1 <==> (ops[i].plan.preposts ==> ops[i].seen == Final(ops[i].plan)))
    ensures ops[i].pc.Returned? ==>
      (ops[i].adds > 1 <==> ops[i].plan.preposts && ops[i].seen < Final(ops[i].plan))
  {
    RunsKeepInv(ops, events, i);
  }

  /** A respond can only lose its completion, and only when its send could not be posted. */
  lemma RespondOnce(ops: seq<Op>, events: seq<Event>, i: nat)
    requires Run(ops, events) && i < |ops| && Over(ops[i]) && ops[i].pc.Returned? && !ops[i].plan.isForward
    ensures ops[i].adds <= 1
    ensures !ops[i].plan.preposts || !ops[i].plan.sendFails ==> ops[i].adds == 1
  {
    RunsKeepInv(ops, events, i);
  }

  /** A receive that calls back once the call has returned always read the final count. */
  lemma LateCallbackIsTimely(o: Op)
    requires Inv(o) && o.pc.Returned? && o.pre.Outstanding?
    ensures Apply(o, PreCallback).seen == Final(o.plan)
  {
  }

  // ---------------------------------------------------------- broken promises

  /** The receive calls back between its post and the increment: the handle is queued twice. */
  lemma QueuedTwice() returns (ops: seq<Op>, events: seq<Event>)
    ensures Run(ops, events) && Over(ops[|events|]) && ops[|events|].adds == 2
    ensures ops[0].plan == Plan(true, true, false, false)
  {
    var o0 := Op(Plan(true, true, false, false), Start, 1, 0, NotYet, NotYet, 0, 0);
    var o1 := Advanced(o0);
    var o2 := Advanced(o1);
    var o3 := Apply(o2, PreCallback);
    var o4 := Advanced(o3);
    var o5 := Advanced(o4);
    ops := [o0, o1, o2, o3, o4, o5, Apply(o5, SendCallback)];
    events := [Advance, Advance, PreCallback, Advance, Advance, SendCallback];
  }

  /** The receive calls back, then the send cannot be posted: nobody queues the handle. */
  lemma NeverQueued() returns (ops: seq<Op>, events: seq<Event>)
    ensures Run(ops, events) && Over(ops[|events|]) && ops[|events|].pc.Returned? && ops[|events|].adds == 0
    ensures ops[0].plan == Plan(true, true, false, true)
  {
    var o0 := Op(Plan(true, true, false, true), Start, 1, 0, NotYet, NotYet, 0, 0);
    var o1 := Advanced(o0);
    var o2 := Advanced(o1);
    var o3 := Advanced(o2);
    var o4 := Apply(o3, PreCallback);
    var o5 := Advanced(o4);
    ops := [o0, o1, o2, o3, o4, o5, Advanced(o5)];
    events := [Advance, Advance, Advance, PreCallback, Advance, Advance];
  }
}
