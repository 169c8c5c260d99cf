/**
 What the words of a handle mean in terms of what has happened to it: the status
 bits ERRORED, CANCELED and POSTED, the no_response flag, and whether an ack was
 asked for.  Each is read off the actions of the run, not off other fields.
 */
module RpcStatus {
  import opened RpcHandle

  predicate Finalizing(a: Action)
  {
    match a
    case DoRecvInput(_, _, _, finalizing) => finalizing
    case DoTriggerEnd(finalizing) => finalizing
    case DoFreeStruct(finalizing) => finalizing
    case DoDestroyCreator(finalizing) => finalizing
    case DoDestroyOwner(finalizing) => finalizing
    case _ => false
  }

  /** The handle's last reference is given up, and it is posted for the next request. */
  predicate Reposts(h: Handle, a: Action)
  {
    GivesUp(h, a) && h.refs == 1 && h.mode.repost && !Finalizing(a)
  }

  /** A response is begun: by the user, or for an RPC callback that failed. */
  predicate BeginsResponse(h: Handle, a: Action)
  {
    !h.mode.noResponse && (a.DoRespond? || (a.DoRpcReturn? && !a.ok))
  }

  /** Nothing could be posted for the call. */
  predicate GivesBack(h: Handle, a: Action)
  {
    || (a.DoForwardStep? && ((h.call.FwdPost? && !a.ok) || (h.call.FwdUnmark? && h.mode.noResponse)))
    || (a.DoRespondStep? && ((h.call.RspPost? && !a.ok) || (h.call.RspUnmark? && !h.mode.wantsAck)))
  }

  /** The status starts anew: a forward or response begins or is given back, or the handle is posted again. */
  predicate Clears(h: Handle, a: Action)
  {
    (a.DoForward? && Guard(h)) || BeginsResponse(h, a) || GivesBack(h, a) || Reposts(h, a)
  }

  predicate Never(h: Handle, a: Action)
  {
    false
  }

  // ----------------------------------------------------------- looking back in a run

  /** `did` has happened, and nothing that `undoes` it since. */
  ghost predicate Since(
    states: seq<Handle>, acts: seq<Action>, i: nat, did: (Handle, Action) -> bool, undoes: (Handle, Action) -> bool)
    requires Run(states, acts) && i < |states|
  {
    exists k :: 0 <= k < i && did(states[k], acts[k]) && NotSince(states, acts, k, i, undoes)
  }

  ghost predicate NotSince(states: seq<Handle>, acts: seq<Action>, k: nat, i: nat, undoes: (Handle, Action) -> bool)
    requires Run(states, acts) && k <= i < |states|
  {
    forall m :: k <= m < i ==> !undoes(states[m], acts[m])
  }

  lemma SinceStep(
    states: seq<Handle>, acts: seq<Action>, i: nat, did: (Handle, Action) -> bool, undoes: (Handle, Action) -> bool)
    requires Run(states, acts) && i < |acts|
    ensures Since(states, acts, i + 1, did, undoes) <==>
      !undoes(states[i], acts[i]) && (did(states[i], acts[i]) || Since(states, acts, i, did, undoes))
  {
    if !undoes(states[i], acts[i]) {
      if did(states[i], acts[i]) {
        assert NotSince(states, acts, i, i + 1, undoes);
      } else if Since(states, acts, i, did, undoes) {
        var k :| 0 <= k < i && did(states[k], acts[k]) && NotSince(states, acts, k, i, undoes);
        assert NotSince(states, acts, k, i + 1, undoes);
      }
    }
    if Since(states, acts, i + 1, did, undoes) {
      var k :| 0 <= k < i + 1 && did(states[k], acts[k]) && NotSince(states, acts, k, i + 1, undoes);
      assert k < i ==> NotSince(states, acts, k, i, undoes);
    }
  }

  /** In every step `bit` follows what is done and undone. */
  ghost predicate Follows(
    states: seq<Handle>, acts: seq<Action>, bit: Handle -> bool, did: (Handle, Action) -> bool, undoes: (Handle, Action) -> bool)
    requires Run(states, acts)
  {
    && !bit(states[0])
    && forall k :: 0 <= k < |acts| ==> FollowsAt(states[k], acts[k], states[k + 1], bit, did, undoes)
  }

  predicate FollowsAt(
    h: Handle, a: Action, h': Handle, bit: Handle -> bool, did: (Handle, Action) -> bool, undoes: (Handle, Action) -> bool)
  {
    bit(h') <==> !undoes(h, a) && (did(h, a) || bit(h))
  }

  lemma {:induction false} FollowsSince(
    states: seq<Handle>, acts: seq<Action>, i: nat, bit: Handle -> bool, did: (Handle, Action) -> bool, undoes: (Handle, Action) -> bool)
    requires Run(states, acts) && Follows(states, acts, bit, did, undoes) && i < |states|
    ensures bit(states[i]) <==> Since(states, acts, i, did, undoes)
  {
    if i > 0 {
      FollowsSince(states, acts, i - 1, bit, did, undoes);
      assert FollowsAt(states[i - 1], acts[i - 1], states[i - 1 + 1], bit, did, undoes);
      SinceStep(states, acts, i - 1, did, undoes);
    }
  }

  // ------------------------------------------------------------------ status bits

  /** An NA operation of the handle reported an error or could not be posted, or its request could not be read. */
  predicate Fails(h: Handle, a: Action)
  {
    || (a.DoSendCallback? && a.res.Error?) || (a.DoRecvOutput? && a.res.Error?) || (a.DoAckCallback? && a.res.Error?)
    || (a.DoRecvInput? && (a.res.Error? || (a.res.Success? && a.input.BadInput?)))
    || (a.DoForwardStep? && h.call.FwdUnmark?) || (a.DoRespondStep? && h.call.RspUnmark?)
  }

  /**
   The user cancels or unposts an operation that is going on over NA and has not
   failed; or a call cancels its own receive because its send was not posted, or
   was and failed while a response is expected.
   */
  predicate Cancels(h: Handle, a: Action)
  {
    || ((a.DoCancel? || a.DoUnpost?) && !h.mode.role.Self? && InProgress(h) && !h.status.errored)
    || (a.DoForwardStep? && h.call.FwdCancel?) || (a.DoRespondStep? && h.call.RspCancel?)
    || (a.DoSendCallback? && a.res.Error? && h.mode.role.Origin? && !h.mode.noResponse)
  }

  predicate Marks(h: Handle, a: Action)
  {
    (a.DoForwardStep? && h.call.FwdMark?) || (a.DoRespondStep? && h.call.RspMark?)
  }

  predicate Unmarks(h: Handle, a: Action)
  {
    Clears(h, a) || (a.DoForwardStep? && h.call.FwdUnmark?) || (a.DoRespondStep? && h.call.RspUnmark?)
  }

  /** What one step does to the three bits. */
  ghost predicate BitsFollow(h: Handle, a: Action)
    requires Possible(h, a)
  {
    var st := Apply(h, a).status;
    && (st.errored <==> !Clears(h, a) && (Fails(h, a) || h.status.errored))
    && (st.canceled <==> !Clears(h, a) && (Cancels(h, a) || h.status.canceled))
    && (st.posted <==> !Unmarks(h, a) && (Marks(h, a) || h.status.posted))
  }

  lemma CallBits(h: Handle, a: Action)
    requires Inv(h) && Enabled(h, a) && (a.DoForward? || a.DoRespond? || a.DoCancel? || a.DoUnpost? || a.DoReset?)
    ensures BitsFollow(h, a)
  {
  }

  lemma ForwardStepBits(h: Handle, a: Action)
    requires Inv(h) && Enabled(h, a) && a.DoForwardStep?
    ensures BitsFollow(h, a)
  {
  }

  lemma RespondStepBits(h: Handle, a: Action)
    requires Inv(h) && Enabled(h, a) && a.DoRespondStep?
    ensures BitsFollow(h, a)
  {
  }

  lemma CallbackBits(h: Handle, a: Action)
    requires Inv(h) && Enabled(h, a) && (a.DoSendCallback? || a.DoRecvOutput? || a.DoAckCallback? || a.DoAcquired?)
    ensures BitsFollow(h, a)
  {
  }

  lemma ArrivedBits(h: Handle, a: Action)
    requires Inv(h) && Enabled(h, a) && a.DoRecvInput? && a.res.Success?
    ensures BitsFollow(h, a)
  {
  }

  lemma NotArrivedBits(h: Handle, a: Action)
    requires Inv(h) && Enabled(h, a) && a.DoRecvInput? && !a.res.Success?
    ensures BitsFollow(h, a)
  {
  }

  lemma TriggerBits(h: Handle, a: Action)
    requires Inv(h) && Enabled(h, a) && (a.DoTriggerStart? || a.DoGetStruct?)
    ensures BitsFollow(h, a)
  {
  }

  lemma ReturnBits(h: Handle, a: Action)
    requires Inv(h) && Enabled(h, a) && a.DoRpcReturn?
    ensures BitsFollow(h, a)
  {
  }

  lemma DropBits(h: Handle, a: Action)
    requires Inv(h) && Enabled(h, a) && (a.DoTriggerEnd? || a.DoFreeStruct? || a.DoDestroyCreator? || a.DoDestroyOwner?)
    ensures BitsFollow(h, a)
  {
  }

  lemma StepBits(h: Handle, a: Action)
    requires Inv(h) && Enabled(h, a)
    ensures BitsFollow(h, a)
  {
    if a.DoForwardStep? {
      ForwardStepBits(h, a);
    } else if a.DoRespondStep? {
      RespondStepBits(h, a);
    } else if a.DoForward? || a.DoRespond? || a.DoCancel? || a.DoUnpost? || a.DoReset? {
      CallBits(h, a);
    } else if a.DoSendCallback? || a.DoRecvOutput? || a.DoAckCallback? || a.DoAcquired? {
      CallbackBits(h, a);
    } else if a.DoRecvInput? && a.res.Success? {
      ArrivedBits(h, a);
    } else if a.DoRecvInput? {
      NotArrivedBits(h, a);
    } else if a.DoTriggerStart? || a.DoGetStruct? {
      TriggerBits(h, a);
    } else if a.DoRpcReturn? {
      ReturnBits(h, a);
    } else {
      DropBits(h, a);
    }
  }

  lemma BitsAt(states: seq<Handle>, acts: seq<Action>, i: nat)
    requires Run(states, acts) && AlwaysTimely(states) && i < |acts|
    ensures var h, a, st := states[i], acts[i], states[i + 1].status;
            && (st.errored <==> !Clears(h, a) && (Fails(h, a) || h.status.errored))
            && (st.canceled <==> !Clears(h, a) && (Cancels(h, a) || h.status.canceled))
            && (st.posted <==> !Unmarks(h, a) && (Marks(h, a) || h.status.posted))
  {
    RunsKeepInv(states, acts, i);
    StepBits(states[i], acts[i]);
  }

  lemma BareAtFirst(h: Handle)
    requires Init(h)
    ensures !h.status.errored && !h.status.canceled && !h.status.posted && !h.mode.noResponse && !h.mode.wantsAck
    ensures h.mode.repost <==> h.mode.role.Target?
  {
  }

  /** ERRORED says exactly that something of the operation has failed since it began. */
  lemma ErroredIff(states: seq<Handle>, acts: seq<Action>, i: nat)
    requires Run(states, acts) && AlwaysTimely(states) && i < |states|
    ensures states[i].status.errored <==> Since(states, acts, i, Fails, Clears)
  {
    BareAtFirst(states[0]);
    forall k | 0 <= k < |acts|
      ensures FollowsAt(states[k], acts[k], states[k + 1], (h: Handle) => h.status.errored, Fails, Clears)
    {
      BitsAt(states, acts, k);
    }
    FollowsSince(states, acts, i, (h: Handle) => h.status.errored, Fails, Clears);
  }

  /** CANCELED says exactly that the operation has been canceled while it was going on, by the user or by the call itself. */
  lemma CanceledIff(states: seq<Handle>, acts: seq<Action>, i: nat)
    requires Run(states, acts) && AlwaysTimely(states) && i < |states|
    ensures states[i].status.canceled <==> Since(states, acts, i, Cancels, Clears)
  {
    BareAtFirst(states[0]);
    forall k | 0 <= k < |acts|
      ensures FollowsAt(states[k], acts[k], states[k + 1], (h: Handle) => h.status.canceled, Cancels, Clears)
    {
      BitsAt(states, acts, k);
    }
    FollowsSince(states, acts, i, (h: Handle) => h.status.canceled, Cancels, Clears);
  }

  /** POSTED says exactly that the call has got as far as posting its send, and has not found that it could not be posted. */
  lemma PostedIff(states: seq<Handle>, acts: seq<Action>, i: nat)
    requires Run(states, acts) && AlwaysTimely(states) && i < |states|
    ensures states[i].status.posted <==> Since(states, acts, i, Marks, Unmarks)
  {
    BareAtFirst(states[0]);
    forall k | 0 <= k < |acts|
      ensures FollowsAt(states[k], acts[k], states[k + 1], (h: Handle) => h.status.posted, Marks, Unmarks)
    {
      BitsAt(states, acts, k);
    }
    FollowsSince(states, acts, i, (h: Handle) => h.status.posted, Marks, Unmarks);
  }

  // ------------------------------------------------------------------------ modes

  /** A forward that wants no response is admitted. */
  predicate WantsNone(h: Handle, a: Action)
  {
    a.DoForward? && Guard(h) && a.noResponse
  }

  predicate Resets(h: Handle, a: Action)
  {
    a.DoReset? && Guard(h)
  }

  /** A request arrives that can be read: from another process, or from oneself. */
  predicate Requests(h: Handle, a: Action)
  {
    (a.DoRecvInput? && a.res.Success? && !a.input.BadInput?) || (a.DoForward? && Guard(h))
  }

  predicate RequestsNone(h: Handle, a: Action)
  {
    Requests(h, a) && a.noResponse
  }

  /** A request is being executed, or waits to be. */
  predicate Serving(h: Handle)
  {
    h.tok.pending > 0 || h.tok.inRpc > 0 || (h.opType.Process? && (h.net.acquiring || (h.queue == 1 && !h.mode.failed)))
  }

  /** The user responds and asks to be told when the response has been received. */
  predicate AsksAck(h: Handle, a: Action)
  {
    BeginsResponse(h, a) && a.DoRespond? && a.wantsAck
  }

  /** A response is begun or the handle posted again, and no ack is asked for. */
  predicate AsksNoAck(h: Handle, a: Action)
  {
    (BeginsResponse(h, a) || Reposts(h, a)) && !AsksAck(h, a)
  }

  predicate Unposts(h: Handle, a: Action)
  {
    a.DoUnpost?
  }

  /** The request, or the output of a self-forwarded RPC, could not be had. */
  predicate Misses(h: Handle, a: Action)
  {
    || (a.DoRecvInput? && (a.res.Error? || (a.res.Canceled? && h.status.posted) || (a.res.Success? && a.input.BadInput?)))
    || (a.DoAcquired? && !a.ok)
  }

  /** The result starts anew. */
  predicate Renews(h: Handle, a: Action)
  {
    (a.DoForward? && Guard(h)) || BeginsResponse(h, a) || Reposts(h, a) || Resets(h, a) || (a.DoAcquired? && a.ok)
  }

  /** What one step does to the modes. */
  ghost predicate ModesFollow(h: Handle, a: Action)
    requires Possible(h, a)
  {
    var mode := Apply(h, a).mode;
    && (mode.failed <==> !Renews(h, a) && (Misses(h, a) || h.mode.failed))
    && (mode.repost <==> h.mode.repost && !Unposts(h, a))
    && (h.mode.role.Target? ==> (mode.wantsAck <==> !AsksNoAck(h, a) && (AsksAck(h, a) || h.mode.wantsAck)))
    && (h.mode.role.Origin? ==> (mode.noResponse <==> !Resets(h, a) && (WantsNone(h, a) || h.mode.noResponse)))
    && (!h.mode.role.Origin? && Serving(Apply(h, a)) ==>
          if Requests(h, a) then mode.noResponse == a.noResponse else Serving(h) && mode.noResponse == h.mode.noResponse)
  }

  lemma ForwardModes(h: Handle, a: Action)
    requires Inv(h) && Enabled(h, a) && a.DoForward?
    ensures ModesFollow(h, a)
  {
  }

  lemma CallModes(h: Handle, a: Action)
    requires Inv(h) && Enabled(h, a) && (a.DoRespond? || a.DoCancel? || a.DoUnpost? || a.DoReset?)
    ensures ModesFollow(h, a)
  {
  }

  lemma CallStepModes(h: Handle, a: Action)
    requires Inv(h) && Enabled(h, a) && (a.DoForwardStep? || a.DoRespondStep?)
    ensures ModesFollow(h, a)
  {
  }

  lemma CallbackModes(h: Handle, a: Action)
    requires Inv(h) && Enabled(h, a) && (a.DoSendCallback? || a.DoRecvOutput? || a.DoAckCallback? || a.DoAcquired?)
    ensures ModesFollow(h, a)
  {
  }

  lemma ArrivedModes(h: Handle, a: Action)
    requires Inv(h) && Enabled(h, a) && a.DoRecvInput? && a.res.Success?
    ensures ModesFollow(h, a)
  {
  }

  lemma NotArrivedModes(h: Handle, a: Action)
    requires Inv(h) && Enabled(h, a) && a.DoRecvInput? && !a.res.Success?
    ensures ModesFollow(h, a)
  {
  }

  lemma TriggerModes(h: Handle, a: Action)
    requires Inv(h) && Enabled(h, a) && (a.DoTriggerStart? || a.DoRpcReturn? || a.DoGetStruct?)
    ensures ModesFollow(h, a)
  {
  }

  lemma DropModes(h: Handle, a: Action)
    requires Inv(h) && Enabled(h, a) && (a.DoTriggerEnd? || a.DoFreeStruct? || a.DoDestroyCreator? || a.DoDestroyOwner?)
    ensures ModesFollow(h, a)
  {
  }

  lemma StepModes(h: Handle, a: Action)
    requires Inv(h) && Enabled(h, a)
    ensures ModesFollow(h, a)
  {
    if a.DoForwardStep? || a.DoRespondStep? {
      CallStepModes(h, a);
    } else if a.DoForward? {
      ForwardModes(h, a);
    } else if a.DoRespond? || a.DoCancel? || a.DoUnpost? || a.DoReset? {
      CallModes(h, a);
    } else if a.DoSendCallback? || a.DoRecvOutput? || a.DoAckCallback? || a.DoAcquired? {
      CallbackModes(h, a);
    } else if a.DoRecvInput? && a.res.Success? {
      ArrivedModes(h, a);
    } else if a.DoRecvInput? {
      NotArrivedModes(h, a);
    } else if a.DoTriggerStart? || a.DoRpcReturn? || a.DoGetStruct? {
      TriggerModes(h, a);
    } else {
      DropModes(h, a);
    }
  }

  lemma ModesAt(states: seq<Handle>, acts: seq<Action>, i: nat)
    requires Run(states, acts) && AlwaysTimely(states) && i < |acts|
    ensures var h, a, mode := states[i], acts[i], states[i + 1].mode;
            && (mode.failed <==> !Renews(h, a) && (Misses(h, a) || h.mode.failed))
            && (mode.repost <==> h.mode.repost && !Unposts(h, a))
            && (states[0].mode.role.Target? ==> (mode.wantsAck <==> !AsksNoAck(h, a) && (AsksAck(h, a) || h.mode.wantsAck)))
            && (states[0].mode.role.Origin? ==> (mode.noResponse <==> !Resets(h, a) && (WantsNone(h, a) || h.mode.noResponse)))
            && (!states[0].mode.role.Origin? && Serving(states[i + 1]) ==>
                  if Requests(h, a) then mode.noResponse == a.noResponse else Serving(h) && mode.noResponse == h.mode.noResponse)
  {
    RunsKeepInv(states, acts, i);
    RoleFixed(states, acts, i);
    StepModes(states[i], acts[i]);
  }

  lemma RoleStays(h: Handle, a: Action)
    requires Enabled(h, a)
    ensures Apply(h, a).mode.role == h.mode.role
  {
  }

  lemma {:induction false} RoleFixed(states: seq<Handle>, acts: seq<Action>, i: nat)
    requires Run(states, acts) && i < |states|
    ensures states[i].mode.role == states[0].mode.role
  {
    if i > 0 {
      RoleFixed(states, acts, i - 1);
      RoleStays(states[i - 1], acts[i - 1]);
    }
  }

  /** An NA origin expects no response exactly if a forward since the last reset wanted none: the flag stays over forwards. */
  lemma OriginNoResponseIff(states: seq<Handle>, acts: seq<Action>, i: nat)
    requires Run(states, acts) && AlwaysTimely(states) && i < |states| && states[0].mode.role.Origin?
    ensures states[i].mode.noResponse <==> Since(states, acts, i, WantsNone, Resets)
  {
    BareAtFirst(states[0]);
    forall k | 0 <= k < |acts|
      ensures FollowsAt(states[k], acts[k], states[k + 1], (h: Handle) => h.mode.noResponse, WantsNone, Resets)
    {
      ModesAt(states, acts, k);
    }
    FollowsSince(states, acts, i, (h: Handle) => h.mode.noResponse, WantsNone, Resets);
  }

  lemma IdleAtFirst(h: Handle)
    requires Init(h)
    ensures !Serving(h)
  {
  }

  /** While a request is served, whether a response is expected is what that request said. */
  lemma {:induction false} ServedAsRequested(states: seq<Handle>, acts: seq<Action>, i: nat) returns (r: nat)
    requires Run(states, acts) && AlwaysTimely(states) && i < |states| && !states[0].mode.role.Origin? && Serving(states[i])
    ensures r < i && Requests(states[r], acts[r]) && (forall k :: r < k < i ==> !Requests(states[k], acts[k]))
    ensures states[i].mode.noResponse == acts[r].noResponse
  {
    IdleAtFirst(states[0]);
    ModesAt(states, acts, i - 1);
    if Requests(states[i - 1], acts[i - 1]) {
      r := i - 1;
    } else {
      r := ServedAsRequested(states, acts, i - 1);
    }
  }

  /** An ack is waited for exactly if the response asked for one. */
  lemma AckIffAsked(states: seq<Handle>, acts: seq<Action>, i: nat)
    requires Run(states, acts) && AlwaysTimely(states) && i < |states| && states[0].mode.role.Target?
    ensures states[i].mode.wantsAck <==> Since(states, acts, i, AsksAck, AsksNoAck)
  {
    BareAtFirst(states[0]);
    forall k | 0 <= k < |acts|
      ensures FollowsAt(states[k], acts[k], states[k + 1], (h: Handle) => h.mode.wantsAck, AsksAck, AsksNoAck)
    {
      ModesAt(states, acts, k);
    }
    FollowsSince(states, acts, i, (h: Handle) => h.mode.wantsAck, AsksAck, AsksNoAck);
  }

  lemma {:induction false} NeverReposts(states: seq<Handle>, acts: seq<Action>, i: nat)
    requires Run(states, acts) && AlwaysTimely(states) && i < |states| && !states[0].mode.repost
    ensures !states[i].mode.repost
  {
    if i > 0 {
      NeverReposts(states, acts, i - 1);
      ModesAt(states, acts, i - 1);
    }
  }

  /** A handle is posted again for the next request exactly if it is a listening one that was not unposted. */
  lemma RepostIff(states: seq<Handle>, acts: seq<Action>, i: nat)
    requires Run(states, acts) && AlwaysTimely(states) && i < |states|
    ensures states[i].mode.repost <==> states[0].mode.role.Target? && !Since(states, acts, i, Unposts, Never)
  {
    BareAtFirst(states[0]);
    if states[0].mode.role.Target? {
      forall k | 0 <= k < |acts|
        ensures FollowsAt(states[k], acts[k], states[k + 1], (h: Handle) => !h.mode.repost, Unposts, Never)
      {
        ModesAt(states, acts, k);
      }
      FollowsSince(states, acts, i, (h: Handle) => !h.mode.repost, Unposts, Never);
    } else {
      NeverReposts(states, acts, i);
    }
  }

  /**
   The step that gives up the last reference frees the handle exactly if the
   context is being finalized or the handle is not to be posted again; otherwise
   it listens again as when it was first posted.
   */
  lemma FreedOrListening(states: seq<Handle>, acts: seq<Action>, i: nat)
    requires Run(states, acts) && AlwaysTimely(states) && i < |acts| && GivesUp(states[i], acts[i]) && Held(states[i].tok) == 1
    ensures states[i + 1].freed <==> Finalizing(acts[i]) || !states[i].mode.repost
    ensures !states[i + 1].freed ==> states[i + 1] == Listening().(hist := states[i + 1].hist) && states[i + 1].hist.begun > states[i].hist.begun
  {
    RunsKeepInv(states, acts, i);
    RunsKeepInv(states, acts, i + 1);
  }

  lemma SoundAtFirst(h: Handle)
    requires Init(h)
    ensures !h.mode.failed
  {
  }

  /** The result of the handle is a failure exactly if what it waited for could not be had, and nothing began since. */
  lemma FailedIff(states: seq<Handle>, acts: seq<Action>, i: nat)
    requires Run(states, acts) && AlwaysTimely(states) && i < |states|
    ensures states[i].mode.failed <==> Since(states, acts, i, Misses, Renews)
  {
    SoundAtFirst(states[0]);
    forall k | 0 <= k < |acts|
      ensures FollowsAt(states[k], acts[k], states[k + 1], (h: Handle) => h.mode.failed, Misses, Renews)
    {
      ModesAt(states, acts, k);
    }
    FollowsSince(states, acts, i, (h: Handle) => h.mode.failed, Misses, Renews);
  }
}
