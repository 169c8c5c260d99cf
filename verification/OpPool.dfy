/**
 The growing pool of bulk operation IDs of src/mercury_bulk.c
 (hg_bulk_op_pool_get and the reuse path of hg_bulk_op_destroy): any number of
 threads, one critical section or one shared write per step.
 */
module OpPool {
  import Masking

  type Tid = nat

  datatype Pc =
    | Take            // under the list lock: remove the first ID, if any
    | Check           // under the extend mutex: wait, or become the extender
    | Waiting         // in hg_thread_cond_wait
    | Extend(i: nat)  // the for loop: create an ID and list it
    | Grow            // count *= 2
    | Announce        // extending := false, broadcast

  /**
   IDs are numbered in the order of their creation.  `held` are the IDs in use;
   `extender` is the thread that last set `extending`, `rounds` the number of
   complete extensions.
   */
  datatype Pool = Pool(
    init: nat, list: seq<nat>, held: multiset<nat>, count: nat, extending: bool, created: nat,
    pcs: map<Tid, Pc>, extender: Tid, rounds: nat)

  datatype Action = Call(tid: Tid) | Step(tid: Tid) | Wake(tid: Tid) | Release(id: nat)

  predicate Enabled(p: Pool, a: Action)
  {
    match a
    case Call(tid) => tid !in p.pcs
    case Step(tid) => tid in p.pcs && !p.pcs[tid].Waiting?
    case Wake(tid) => tid in p.pcs && p.pcs[tid].Waiting?
    case Release(id) => id in p.held
  }

  function Goto(p: Pool, tid: Tid, pc: Pc): Pool
  {
    p.(pcs := p.pcs[tid := pc])
  }

  /** hg_thread_cond_broadcast. */
  function Awake(pcs: map<Tid, Pc>): map<Tid, Pc>
  {
    map tid | tid in pcs :: if pcs[tid].Waiting? then Take else pcs[tid]
  }

  /** hg_bulk_op_pool_get (1853-1901) when creations succeed; a call ends by holding an ID. */
  function StepOf(p: Pool, tid: Tid): Pool
    requires tid in p.pcs
  {
    match p.pcs[tid]
    case Take =>
      if p.list == [] then Goto(p, tid, Check)
      else p.(list := p.list[1..], held := p.held + multiset{p.list[0]}, pcs := p.pcs - {tid})
    case Check =>
      if p.extending then Goto(p, tid, Waiting) else Goto(p.(extending := true, extender := tid), tid, Extend(0))
    case Waiting => Goto(p, tid, Take)
    case Extend(i) =>
      if i < p.count then Goto(p.(list := [p.created] + p.list, created := p.created + 1), tid, Extend(i + 1))
      else Goto(p, tid, Grow)
    case Grow => Goto(p.(count := 2 * p.count, rounds := p.rounds + 1), tid, Announce)
    case Announce => p.(extending := false, pcs := Awake(p.pcs)[tid := Take])
  }

  /** The reuse path of hg_bulk_op_destroy (1702-1717). */
  function Released(p: Pool, id: nat): Pool
  {
    p.(list := [id] + p.list, held := p.held - multiset{id})
  }

  function Apply(p: Pool, a: Action): Pool
    requires Enabled(p, a)
  {
    match a
    case Call(tid) => Goto(p, tid, Take)
    case Step(tid) => StepOf(p, tid)
    case Wake(tid) => StepOf(p, tid)
    case Release(id) => Released(p, id)
  }

  /** hg_bulk_op_pool_create (1759-1800), with a positive number of IDs. */
  ghost predicate Init(p: Pool)
  {
    && p.init > 0 && p.count == p.init && p.created == p.init && !p.extending && p.rounds == 0
    && p.held == multiset{} && p.pcs == map[]
    && |p.list| == p.init && (forall i :: 0 <= i < p.init ==> p.list[i] == p.init - 1 - i)
  }

  // ---------------------------------------------------------------- invariant

  predicate Extending(pc: Pc)
  {
    pc.Extend? || pc.Grow? || pc.Announce?
  }

  /** Every created ID is either listed once or held once. */
  ghost predicate Unique(p: Pool)
  {
    forall id: nat :: multiset(p.list)[id] + p.held[id] == (if id < p.created then 1 else 0)
  }

  /** The thread that set `extending` is the only one that extends; threads wait only for it. */
  ghost predicate OneExtender(p: Pool)
  {
    && (p.extending ==> p.extender in p.pcs && Extending(p.pcs[p.extender]))
    && (forall tid :: tid in p.pcs && Extending(p.pcs[tid]) ==> p.extending && tid == p.extender)
    && (forall tid :: tid in p.pcs && p.pcs[tid].Waiting? ==> p.extending)
  }

  ghost predicate Sizes(p: Pool)
  {
    && p.count == p.init * Masking.Pow2(p.rounds)
    && p.created == p.count +
         (if p.extending && p.extender in p.pcs && p.pcs[p.extender].Extend? then p.pcs[p.extender].i
          else if p.extending && p.extender in p.pcs && p.pcs[p.extender].Grow? then p.count
          else 0)
    && (p.extending && p.extender in p.pcs && p.pcs[p.extender].Extend? ==> p.pcs[p.extender].i <= p.count)
  }

  ghost predicate Inv(p: Pool)
  {
    p.init > 0 && Unique(p) && OneExtender(p) && Sizes(p)
  }

  lemma TakeKeepsUnique(p: Pool, p': Pool)
    requires Unique(p) && p.list != [] && p'.created == p.created
    requires p'.list == p.list[1..] && p'.held == p.held + multiset{p.list[0]}
    ensures Unique(p')
  {
    assert p.list == [p.list[0]] + p'.list;
  }

  lemma CreateKeepsUnique(p: Pool, p': Pool)
    requires Unique(p) && p'.list == [p.created] + p.list && p'.created == p.created + 1 && p'.held == p.held
    ensures Unique(p')
  {
  }

  lemma ReleaseKeepsUnique(p: Pool, id: nat)
    requires Unique(p) && id in p.held
    ensures Unique(Released(p, id))
  {
  }

  lemma ApplyKeepsUnique(p: Pool, a: Action)
    requires Inv(p) && Enabled(p, a)
    ensures Unique(Apply(p, a))
  {
    if a.Release? {
      ReleaseKeepsUnique(p, a.id);
    } else if a.Step? && p.pcs[a.tid].Take? && p.list != [] {
      TakeKeepsUnique(p, Apply(p, a));
    } else if a.Step? && p.pcs[a.tid].Extend? && p.pcs[a.tid].i < p.count {
      CreateKeepsUnique(p, Apply(p, a));
    }
  }

  /** A thread that moves between places where it does not extend. */
  lemma MoveKeepsExtender(p: Pool, tid: Tid, pc: Pc)
    requires OneExtender(p) && !Extending(pc) && (pc.Waiting? ==> p.extending) && (tid in p.pcs ==> !Extending(p.pcs[tid]))
    ensures OneExtender(Goto(p, tid, pc))
  {
  }

  lemma ExtendKeepsExtender(p: Pool, tid: Tid)
    requires OneExtender(p) && tid in p.pcs && Extending(p.pcs[tid])
    ensures OneExtender(StepOf(p, tid))
  {
  }

  lemma TakeKeepsExtender(p: Pool, tid: Tid)
    requires OneExtender(p) && tid in p.pcs && (p.pcs[tid].Take? || p.pcs[tid].Check?)
    ensures OneExtender(StepOf(p, tid))
  {
    if p.pcs[tid].Take? && p.list == [] {
      MoveKeepsExtender(p, tid, Check);
    }
  }

  lemma ApplyKeepsExtender(p: Pool, a: Action)
    requires Inv(p) && Enabled(p, a)
    ensures OneExtender(Apply(p, a))
  {
    match a
    case Call(tid) => MoveKeepsExtender(p, tid, Take);
    case Wake(tid) => MoveKeepsExtender(p, tid, Take);
    case Release(_) =>
    case Step(tid) =>
      if Extending(p.pcs[tid]) {
        ExtendKeepsExtender(p, tid);
      } else {
        TakeKeepsExtender(p, tid);
      }
  }

  lemma ApplyKeepsSizes(p: Pool, a: Action)
    requires Inv(p) && Enabled(p, a)
    ensures Sizes(Apply(p, a))
  {
    if a.Step? && p.pcs[a.tid].Grow? {
      assert Masking.Pow2(p.rounds + 1) == 2 * Masking.Pow2(p.rounds);
      Doubled(p.init, Masking.Pow2(p.rounds));
    }
  }

  lemma Doubled(x: nat, y: nat)
    ensures 2 * (x * y) == x * (2 * y)
  {
  }

  lemma {:induction false} Countdown(n: nat, list: seq<nat>, id: nat)
    requires |list| == n && forall i :: 0 <= i < n ==> list[i] == n - 1 - i
    ensures multiset(list)[id] == (if id < n then 1 else 0)
  {
    if n > 0 {
      assert list == [n - 1] + list[1..];
      Countdown(n - 1, list[1..], id);
    }
  }

  lemma InitInv(p: Pool)
    requires Init(p)
    ensures Inv(p)
  {
    forall id: nat
      ensures multiset(p.list)[id] + p.held[id] == (if id < p.created then 1 else 0)
    {
      Countdown(p.init, p.list, id);
    }
    assert Masking.Pow2(0) == 1;
  }

  // --------------------------------------------------------------- whole runs

  ghost predicate Run(states: seq<Pool>, acts: seq<Action>)
  {
    && |states| == |acts| + 1
    && Init(states[0])
    && (forall i :: 0 <= i < |acts| ==> Enabled(states[i], acts[i]) && states[i + 1] == Apply(states[i], acts[i]))
  }

  lemma {:induction false} RunsKeepInv(states: seq<Pool>, acts: seq<Action>, i: nat)
    requires Run(states, acts) && i < |states|
    ensures Inv(states[i]) && states[i].init == states[0].init
  {
    if i == 0 {
      InitInv(states[0]);
    } else {
      RunsKeepInv(states, acts, i - 1);
      ApplyKeepsUnique(states[i - 1], acts[i - 1]);
      ApplyKeepsExtender(states[i - 1], acts[i - 1]);
      ApplyKeepsSizes(states[i - 1], acts[i - 1]);
    }
  }

  /** In every interleaving, no ID is held twice, none is both listed and held, and none is listed twice. */
  lemma NeverShared(states: seq<Pool>, acts: seq<Action>, i: nat, id: nat)
    requires Run(states, acts) && i < |states|
    ensures multiset(states[i].list)[id] + states[i].held[id] == (if id < states[i].created then 1 else 0)
  {
    RunsKeepInv(states, acts, i);
  }

  /** At most one thread extends the pool, and a thread waits only while one does. */
  lemma SingleExtender(states: seq<Pool>, acts: seq<Action>, i: nat, a: Tid, b: Tid)
    requires Run(states, acts) && i < |states| && a in states[i].pcs && b in states[i].pcs
    ensures Extending(states[i].pcs[a]) && Extending(states[i].pcs[b]) ==> a == b
    ensures states[i].pcs[a].Waiting? ==> exists e :: e in states[i].pcs && Extending(states[i].pcs[e])
  {
    RunsKeepInv(states, acts, i);
  }

  /** After `n` complete extensions `count` is init * 2^n, and unless one is under way so many IDs exist. */
  lemma PoolDoubles(states: seq<Pool>, acts: seq<Action>, i: nat)
    requires Run(states, acts) && i < |states|
    ensures states[i].count == states[0].init * Masking.Pow2(states[i].rounds)
    ensures !states[i].extending ==> states[i].created == states[i].count
    ensures states[i].count <= states[i].created <= 2 * states[i].count
  {
    RunsKeepInv(states, acts, i);
  }

  // ------------------------------------------------------------- what a call does

  /** A call ends in no other way than by taking the first ID of the list. */
  lemma CallEndsWithListed(states: seq<Pool>, acts: seq<Action>, i: nat, tid: Tid)
    requires Run(states, acts) && i < |acts| && tid in states[i].pcs && tid !in states[i + 1].pcs
    ensures acts[i] == Step(tid) && states[i].list != []
    ensures states[i + 1].list == states[i].list[1..] && states[i + 1].held == states[i].held + multiset{states[i].list[0]}
  {
    assert states[i + 1] == Apply(states[i], acts[i]);
  }

  /** And a thread that looks while an ID is listed takes it. */
  lemma LookingTakes(states: seq<Pool>, acts: seq<Action>, i: nat, tid: Tid)
    requires Run(states, acts) && i < |acts| && acts[i] == Step(tid) && states[i].pcs[tid].Take? && states[i].list != []
    ensures tid !in states[i + 1].pcs && states[i + 1].created == states[i].created && states[i + 1].extending == states[i].extending
  {
    assert states[i + 1] == Apply(states[i], acts[i]);
  }

  lemma CheckBegins(p: Pool, a: Action, tid: Tid)
    requires Enabled(p, a) && tid in Apply(p, a).pcs && Apply(p, a).pcs[tid].Check?
    ensures tid in p.pcs && (p.pcs[tid].Check? || (a == Step(tid) && p.pcs[tid].Take? && p.list == []))
  {
  }

  lemma {:induction false} FoundEmptyAt(states: seq<Pool>, acts: seq<Action>, i: nat, tid: Tid) returns (j: nat)
    requires Run(states, acts) && i < |states| && tid in states[i].pcs && states[i].pcs[tid].Check?
    ensures j < i && acts[j] == Step(tid) && states[j].pcs[tid].Take? && states[j].list == []
    ensures forall k :: j < k <= i ==> tid in states[k].pcs && states[k].pcs[tid].Check?
  {
    assert i > 0 && states[i] == Apply(states[i - 1], acts[i - 1]);
    CheckBegins(states[i - 1], acts[i - 1], tid);
    if states[i - 1].pcs[tid].Check? {
      j := FoundEmptyAt(states, acts, i - 1, tid);
    } else {
      j := i - 1;
    }
  }

  lemma CreationSteps(p: Pool, a: Action)
    requires Enabled(p, a) && (Apply(p, a).created != p.created || (Apply(p, a).extending && !p.extending))
    ensures a.Step? && (p.pcs[a.tid].Extend? || p.pcs[a.tid].Check?)
    ensures Apply(p, a).created != p.created ==> p.pcs[a.tid].Extend? && Apply(p, a).list == [p.created] + p.list
  {
  }

  /** The pool begins to be extended only by a thread that found the list empty in this call, and has waited for nobody since. */
  lemma ExtendedOnlyWhenEmpty(states: seq<Pool>, acts: seq<Action>, i: nat) returns (tid: Tid, j: nat)
    requires Run(states, acts) && i < |acts| && states[i + 1].extending && !states[i].extending
    ensures acts[i] == Step(tid) && states[i + 1].extender == tid
    ensures j < i && acts[j] == Step(tid) && states[j].pcs[tid].Take? && states[j].list == []
    ensures forall k :: j < k <= i ==> tid in states[k].pcs && states[k].pcs[tid].Check?
  {
    CreationSteps(states[i], acts[i]);
    tid := acts[i].tid;
    assert states[i + 1] == StepOf(states[i], tid);
    j := FoundEmptyAt(states, acts, i, tid);
  }

  /** How many steps there are at most to an ID for a thread left alone. */
  function Rank(p: Pool, tid: Tid): nat
    requires tid in p.pcs
  {
    match p.pcs[tid]
    case Take => if p.list != [] then 1 else p.count + 7
    case Check => p.count + 6
    case Extend(i) => 5 + (if i <= p.count then p.count - i else 0)
    case Grow => 4
    case Announce => 3
    case Waiting => p.count + 8
  }

  /** Nobody else extends, and an extension under way has listed something once it is past its loop. */
  ghost predicate Lone(p: Pool, tid: Tid)
  {
    && tid in p.pcs && p.count > 0 && (p.extending ==> p.extender == tid)
    && OneExtender(p)
    && (match p.pcs[tid]
        case Extend(i) => i <= p.count && (i > 0 ==> p.list != [])
        case Grow => p.list != []
        case Announce => p.list != []
        case Waiting => false
        case _ => true)
  }

  lemma LoneStep(p: Pool, tid: Tid)
    requires Lone(p, tid)
    ensures var p' := StepOf(p, tid);
            if tid in p'.pcs then Lone(p', tid) && Rank(p', tid) < Rank(p, tid)
            else p.list != [] && p'.held == p.held + multiset{p.list[0]}
  {
  }

  function Solo(p: Pool, tid: Tid, n: nat): Pool
    decreases n
  {
    if n == 0 || tid !in p.pcs then p else Solo(StepOf(p, tid), tid, n - 1)
  }

  /** Left alone a call ends, at worst after one extension. */
  lemma {:induction false} LoneGets(p: Pool, tid: Tid) returns (n: nat)
    requires Lone(p, tid)
    ensures n <= p.count + 7 && tid !in Solo(p, tid, n).pcs
    ensures n <= Rank(p, tid)
    decreases Rank(p, tid)
  {
    var p' := StepOf(p, tid);
    LoneStep(p, tid);
    if tid in p'.pcs {
      var m := LoneGets(p', tid);
      n := m + 1;
    } else {
      n := 1;
      assert Solo(p', tid, 0) == p';
    }
  }
}
