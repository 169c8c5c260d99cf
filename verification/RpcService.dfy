/**
 What is done for a request: an RPC callback is started exactly for an entry
 whose request arrived whole, it is answered as that request asked, and what a
 trigger runs is determined by the action that queued the entry.
 */
module RpcService {
  import opened RpcHandle
  import S = RpcStatus

  /** The step puts the handle's entry into the completion queue. */
  ghost predicate Delivers(h: Handle, a: Action)
    requires Possible(h, a)
  {
    Apply(h, a).hist.completed > h.hist.completed
  }

  /** The request is there as a whole: received so, forwarded to oneself so, or acquired in the end. */
  predicate Whole(a: Action)
  {
    || (a.DoRecvInput? && a.res.Success? && a.input.WholeInput?)
    || (a.DoForward? && a.input.WholeInput?)
    || (a.DoAcquired? && a.ok)
  }

  /** A handle that waits for a request carries no failure of an earlier one. */
  ghost predicate ListensClean(h: Handle)
  {
    h.net.recv && h.opType.Process? ==> !h.mode.failed
  }

  lemma ApplyKeepsClean(h: Handle, a: Action)
    requires Inv(h) && ListensClean(h) && Enabled(h, a)
    ensures ListensClean(Apply(h, a))
  {
  }

  lemma {:induction false} RunsKeepClean(states: seq<Handle>, acts: seq<Action>, i: nat)
    requires Run(states, acts) && AlwaysTimely(states) && i < |states|
    ensures ListensClean(states[i])
  {
    if i == 0 {
      assert Init(states[0]);
    } else {
      RunsKeepClean(states, acts, i - 1);
      RunsKeepInv(states, acts, i - 1);
      ApplyKeepsClean(states[i - 1], acts[i - 1]);
    }
  }

  lemma CallDelivers(h: Handle, a: Action)
    requires Inv(h) && Enabled(h, a) && Delivers(h, a) && Apply(h, a).opType.Process? && IsCall(a)
    ensures Apply(h, a).mode.failed <==> !Whole(a)
  {
  }

  lemma CallbackDelivers(h: Handle, a: Action)
    requires Inv(h) && ListensClean(h) && Enabled(h, a) && Delivers(h, a) && Apply(h, a).opType.Process? && !IsCall(a)
    ensures Apply(h, a).mode.failed <==> !Whole(a)
  {
  }

  lemma StaysQueued(h: Handle, a: Action)
    requires Inv(h) && Enabled(h, a) && !Delivers(h, a) && Apply(h, a).queue == 1
    ensures h.queue == 1 && Apply(h, a).opType == h.opType && Apply(h, a).mode.failed == h.mode.failed
  {
  }

  /** What is known of a queued entry after a step, from the step or from before. */
  lemma QueuedStep(h: Handle, a: Action)
    requires Inv(h) && ListensClean(h) && Enabled(h, a) && Apply(h, a).queue == 1
    ensures if Delivers(h, a) then Apply(h, a).opType.Process? ==> (Apply(h, a).mode.failed <==> !Whole(a))
            else h.queue == 1 && Apply(h, a).opType == h.opType && Apply(h, a).mode.failed == h.mode.failed
  {
    if !Delivers(h, a) {
      StaysQueued(h, a);
    } else if Apply(h, a).opType.Process? {
      if IsCall(a) {
        CallDelivers(h, a);
      } else {
        CallbackDelivers(h, a);
      }
    }
  }

  lemma NothingAtFirst(h: Handle)
    requires Init(h)
    ensures h.queue == 0
  {
  }

  /** Where the entry that is queued was delivered, and what is known of it since. */
  lemma {:induction false} DeliveredAt(states: seq<Handle>, acts: seq<Action>, i: nat) returns (j: nat)
    requires Run(states, acts) && AlwaysTimely(states) && i < |states| && states[i].queue == 1
    ensures j < i && Delivers(states[j], acts[j]) && forall k :: j < k < i ==> !Delivers(states[k], acts[k])
    ensures states[i].opType == states[j + 1].opType
    ensures states[i].opType.Process? ==> (states[i].mode.failed <==> !Whole(acts[j]))
  {
    NothingAtFirst(states[0]);
    RunsKeepInv(states, acts, i - 1);
    RunsKeepClean(states, acts, i - 1);
    assert Enabled(states[i - 1], acts[i - 1]) && states[i] == Apply(states[i - 1], acts[i - 1]);
    QueuedStep(states[i - 1], acts[i - 1]);
    if Delivers(states[i - 1], acts[i - 1]) {
      j := i - 1;
    } else {
      j := DeliveredAt(states, acts, i - 1);
    }
  }

  /**
   A trigger that takes an entry to be processed starts the RPC callback if and
   only if the action that delivered the entry had the whole request: then the
   handle owes a response, and the callback has a reference of its own if the
   RPC is registered.  Otherwise the step only hands the entry's reference to
   the trigger.
   */
  lemma RpcRunsIff(states: seq<Handle>, acts: seq<Action>, i: nat) returns (j: nat)
    requires Run(states, acts) && AlwaysTimely(states) && i < |acts| && acts[i].DoTriggerStart?
    ensures j < i && Delivers(states[j], acts[j]) && forall k :: j < k < i ==> !Delivers(states[k], acts[k])
    ensures var h, h', runs := states[i], states[i + 1], states[i].opType.Process? && Whole(acts[j]);
            && h.queue == 1 && h.tok.flight == 1 && h.tok.pending == 0
            && h'.tok.inRpc == h.tok.inRpc + Bit(runs) && h'.tok.pending == Bit(runs)
            && h'.tok.owner == h.tok.owner + Bit(runs && acts[i].found)
            && h'.refs == h.refs + Bit(runs) + Bit(runs && acts[i].found) + Bit(h.opType.RespondSelf?)
            && (h.opType.Process? ==> h'.queue == 0 && h'.tok.flight == 0 && h'.tok.leaving == h.tok.leaving + Bit(!runs))
  {
    RunsKeepInv(states, acts, i);
    assert states[i + 1] == Apply(states[i], acts[i]);
    j := DeliveredAt(states, acts, i);
  }

  lemma OthersRunNothing(h: Handle, a: Action)
    requires Inv(h) && Enabled(h, a) && !a.DoTriggerStart?
    ensures Apply(h, a).tok.inRpc <= h.tok.inRpc && Apply(h, a).tok.pending <= h.tok.pending && Apply(h, a).tok.owner <= h.tok.owner
  {
  }

  /** No other step starts one. */
  lemma OnlyTriggersRun(states: seq<Handle>, acts: seq<Action>, i: nat)
    requires Run(states, acts) && AlwaysTimely(states) && i < |acts| && !acts[i].DoTriggerStart?
    ensures states[i + 1].tok.inRpc <= states[i].tok.inRpc && states[i + 1].tok.pending <= states[i].tok.pending
    ensures states[i + 1].tok.owner <= states[i].tok.owner
  {
    RunsKeepInv(states, acts, i);
    OthersRunNothing(states[i], acts[i]);
  }

  // ------------------------------------------------------------- what is triggered

  /** What an entry is for, by the action that delivered it. */
  function KindOf(h: Handle, a: Action): OpType
  {
    match a
    case DoForward(_, _) => Process
    case DoRecvInput(_, _, _, _) => Process
    case DoRespond(_) => RespondSelf
    case DoRpcReturn(_) =>
      if !h.mode.noResponse then RespondSelf else if h.mode.role.Self? then ForwardSelf else NoRespond
    case DoTriggerStart(_, _) => ForwardSelf
    case DoSendCallback(_) => if h.mode.role.Origin? then Forward else Respond
    case DoRecvOutput(_) => Forward
    case DoAckCallback(_) => Respond
    case _ => h.opType
  }

  lemma DeliversKind(h: Handle, a: Action)
    requires Inv(h) && Enabled(h, a) && Delivers(h, a)
    ensures Apply(h, a).opType == KindOf(h, a) && Apply(h, a).queue == 1
  {
  }

  lemma TriggerEffect(h: Handle, found: bool, more: bool)
    requires Inv(h) && Enabled(h, DoTriggerStart(found, more)) && !h.opType.Process?
    ensures var h', again := TriggerStart(h, found, more), h.opType.RespondSelf?;
            && h'.queue == Bit(again && !more) && h'.status == h.status.(queued := again && !more)
            && h'.net == h.net.(acquiring := again && more) && h'.mode == h.mode && h'.call == h.call
            && h'.opType == (if again then ForwardSelf else h.opType)
            && h'.tok == h.tok.(flight := Bit(again), leaving := h.tok.leaving + 1) && h'.refs == h.refs + Bit(again)
  {
  }

  /**
   Every other entry is triggered as what its delivering action made it: the
   user's callback of a forward or respond is run and nothing else changes, but
   that a response to oneself goes on as the completed forward, at once or when
   its output has been acquired.
   */
  lemma Triggered(states: seq<Handle>, acts: seq<Action>, i: nat) returns (j: nat)
    requires Run(states, acts) && AlwaysTimely(states) && i < |acts| && acts[i].DoTriggerStart?
    ensures j < i && Delivers(states[j], acts[j]) && forall k :: j < k < i ==> !Delivers(states[k], acts[k])
    ensures states[i].opType == KindOf(states[j], acts[j])
    ensures !states[i].opType.Process? ==>
      var h, h', again := states[i], states[i + 1], states[i].opType.RespondSelf?;
      && h'.queue == Bit(again && !acts[i].more) && h'.net == h.net.(acquiring := again && acts[i].more)
      && h'.opType == (if again then ForwardSelf else h.opType) && h'.mode == h.mode
      && h'.tok == h.tok.(flight := Bit(again), leaving := h.tok.leaving + 1) && h'.refs == h.refs + Bit(again)
  {
    RunsKeepInv(states, acts, i);
    j := DeliveredAt(states, acts, i);
    RunsKeepInv(states, acts, j);
    DeliversKind(states[j], acts[j]);
    if !states[i].opType.Process? {
      TriggerEffect(states[i], acts[i].found, acts[i].more);
    }
  }

  // -------------------------------------------------------------- what is answered

  /** The step answers the RPC: it responds, or completes an RPC that wants no response. */
  predicate Answers(a: Action, none: bool)
  {
    if none then a.DoRpcReturn? else a.DoRespond? || (a.DoRpcReturn? && !a.ok)
  }

  lemma AnswerStep(h: Handle, a: Action)
    requires Inv(h) && Enabled(h, a) && h.tok.pending > 0
    ensures var h', none := Apply(h, a), h.mode.noResponse;
            if Answers(a, none) then
              && h'.tok.pending == 0 && h'.tok.flight == 1
              && (if none then h'.queue == 1 && h'.net == h.net && h'.opType == KindOf(h, a)
                  else if h.mode.role.Self? then h'.queue == 1 && h'.opType.RespondSelf?
                  else h'.call.RspCount? && h'.opType.Respond?)
            else h'.tok.pending == h.tok.pending && h'.queue == h.queue && h'.call == h.call
  {
  }

  /**
   An executed RPC is answered as its request asked: if that wanted no response,
   by the return of its callback and with nothing sent, otherwise by a response,
   which its callback or somebody after it gives, or which is given for it if the
   callback failed.  Until then nothing else is begun on the handle.
   */
  lemma AnsweredAsRequested(states: seq<Handle>, acts: seq<Action>, i: nat) returns (r: nat)
    requires Run(states, acts) && AlwaysTimely(states) && i < |acts| && states[i].tok.pending > 0
    ensures r < i && S.Requests(states[r], acts[r]) && (forall k :: r < k < i ==> !S.Requests(states[k], acts[k]))
    ensures var h, h', none := states[i], states[i + 1], acts[r].noResponse;
            if Answers(acts[i], none) then
              && h'.tok.pending == 0 && h'.tok.flight == 1
              && (if none then h'.queue == 1 && h'.net == h.net
                  else if h.mode.role.Self? then h'.queue == 1 && h'.opType.RespondSelf?
                  else h'.call.RspCount? && h'.opType.Respond?)
            else h'.tok.pending == h.tok.pending && h'.queue == h.queue && h'.call == h.call
  {
    RunsKeepInv(states, acts, i);
    S.RoleFixed(states, acts, i);
    r := S.ServedAsRequested(states, acts, i);
    AnswerStep(states[i], acts[i]);
  }

  // -------------------------------------------------------------- what is admitted

  /**
   A forward is refused, and changes nothing, exactly when the guard is down.
   Over NA it posts a receive first exactly if a response is expected; to oneself
   the request is queued, acquired or given back as it was found.
   */
  lemma ForwardAdmittedIff(states: seq<Handle>, acts: seq<Action>, i: nat)
    requires Run(states, acts) && AlwaysTimely(states) && i < |acts| && acts[i].DoForward?
    ensures !Guard(states[i]) ==> states[i + 1] == states[i]
    ensures Guard(states[i]) ==>
      var h, h', a := states[i], states[i + 1], acts[i];
      && h'.hist.begun == h.hist.begun + 1
      && (if h.mode.role.Self? then
            && h'.queue == Bit(a.input.WholeInput?) && h'.net.acquiring == a.input.MoreInput?
            && h'.hist.undone == h.hist.undone + Bit(a.input.BadInput?) && h'.tok.flight == Bit(!a.input.BadInput?)
          else
            h'.call == (if h.mode.noResponse || a.noResponse then FwdMark else FwdPost) && h'.tok.flight == 1)
  {
    RunsKeepInv(states, acts, i);
  }

  /** A reset is refused, and changes nothing, exactly when the guard is down; otherwise the handle is as when it was created. */
  lemma ResetIsFresh(states: seq<Handle>, acts: seq<Action>, i: nat)
    requires Run(states, acts) && i < |acts| && acts[i].DoReset?
    ensures !Guard(states[i]) ==> states[i + 1] == states[i]
    ensures Guard(states[i]) ==>
      var h, h', made := states[i], states[i + 1], Created(states[i].mode.role);
      && h'.opType == made.opType && h'.net.ops == made.net.ops && h'.net.done == made.net.done
      && h'.mode.noResponse == made.mode.noResponse && h'.mode.failed == made.mode.failed
      && h'.refs == h.refs && h'.tok == h.tok && h'.queue == h.queue && h'.call == h.call && h'.status == h.status
  {
    assert states[i + 1] == Apply(states[i], acts[i]);
  }
}
