/**
 Life cycle of one RPC handle of src/mercury_core.c: status bits, reference
 count, NA operation counts and operation type, as a state machine over the
 steps of forward, respond, cancel, reset, destroy, the NA callbacks and any
 number of trigger threads.

 `tok` says who holds each reference; no branch reads it.  The user is assumed
 to make balanced calls (`Possible`) and to be considerate of calls that are
 under way (`Considerate`).
 */
module RpcHandle {

  /** COMPLETED, CANCELED, POSTED, ERRORED, QUEUED (lines 65-69). */
  datatype Status = Status(completed: bool, canceled: bool, posted: bool, errored: bool, queued: bool)

  const CLEAR := Status(false, false, false, false, false)
  const DONE := Status(true, false, false, false, false)

  /** hg_core_op_type_t. */
  datatype OpType = Forward | Respond | NoRespond | ForwardSelf | RespondSelf | Process

  /** na_op_count, na_op_completed_count, and which operations have not called back. */
  datatype Net = Net(ops: int, done: int, recv: bool, send: bool, ack: bool, acquiring: bool)

  /** Where a forward or respond call on the NA path stands. */
  datatype Call =
    | Quiet
    | FwdPost | FwdCount | FwdMark | FwdSend | FwdUnmark | FwdUncount | FwdCancel
    | RspCount | RspPost | RspMark | RspSend | RspUnmark | RspUncount | RspCancel

  /**
   The references: the creator's; the one that travels with an operation until
   its entry is taken from the completion queue; one per running trigger, inside
   the RPC callback or after it; the one kept until the response is given; the
   RPC callback's; one per decoded struct.
   */
  datatype Tokens = Tokens(creator: int, flight: int, inRpc: int, leaving: int, pending: int, owner: int, structs: int)

  /** An origin whose target is remote, an origin that is its own target, or a handle that listens. */
  datatype Role = Origin | Self | Target

  datatype Mode = Mode(role: Role, noResponse: bool, repost: bool, failed: bool, wantsAck: bool)

  /** Operations begun, completed into the queue, and rolled back; how often the handle was freed or posted again. */
  datatype History = History(begun: int, completed: int, undone: int, released: int)

  datatype Handle = Handle(
    status: Status, opType: OpType, net: Net, call: Call, refs: int,
    tok: Tokens, queue: int, mode: Mode, freed: bool, hist: History)

  datatype Outcome = Success | Canceled | Error

  // ------------------------------------------------------------- common parts

  /** hg_core_complete (3609-3625). */
  function Complete(h: Handle): Handle
  {
    h.(status := h.status.(completed := true, queued := true), queue := h.queue + 1,
       hist := h.hist.(completed := h.hist.completed + 1))
  }

  /** hg_core_complete_na (3590-3605), for a callback that has nothing more to acquire. */
  function CompleteNa(h: Handle): Handle
  {
    var h' := h.(net := h.net.(done := h.net.done + 1));
    if h'.net.done == h'.net.ops then Complete(h') else h'
  }

  /** hg_core_reset and hg_core_post (2448-2488, 2507-2516): the fresh unexpected receive holds the only reference. */
  function Reposted(h: Handle): Handle
  {
    Handle(CLEAR, Process, Net(1, 0, true, false, false, false), Quiet, 1,
           Tokens(0, 1, 0, 0, 0, 0, 0), h.queue, Mode(h.mode.role, false, h.mode.repost, false, false), false,
           h.hist.(begun := h.hist.begun + 1, released := h.hist.released + 1))
  }

  /** hg_core_destroy (2190-2235), after the caller gave up its token. */
  function Drop(h: Handle, finalizing: bool): Handle
  {
    if h.refs - 1 != 0 then h.(refs := h.refs - 1)
    else if h.mode.repost && !finalizing then Reposted(h)
    else h.(refs := 0, freed := true, hist := h.hist.(released := h.hist.released + 1))
  }

  // ------------------------------------------------------------------ forward

  /** The guard of hg_core_forward and HG_Core_reset (2642-2645, 4938-4941). */
  predicate Guard(h: Handle)
  {
    h.status.completed && !h.status.queued
  }

  /** hg_core_forward up to the call of `forward` (2647-2660, 2673-2676). */
  function ForwardBegin(h: Handle, noResponse: bool): Handle
  {
    h.(refs := h.refs + 1, tok := h.tok.(flight := h.tok.flight + 1),
       net := h.net.(ops := 1, done := 0), status := CLEAR,
       mode := h.mode.(noResponse := h.mode.noResponse || noResponse, failed := false),
       hist := h.hist.(begun := h.hist.begun + 1))
  }

  /** The error exit of hg_core_forward (2712-2719) and hg_core_respond (2867-2873). */
  function Rollback(h: Handle): Handle
  {
    h.(status := DONE, refs := h.refs - 1, tok := h.tok.(flight := h.tok.flight - 1), call := Quiet,
       hist := h.hist.(undone := h.hist.undone + 1))
  }

  function ForwardNa(h: Handle, noResponse: bool): Handle
  {
    var h' := ForwardBegin(h, noResponse).(opType := Forward);
    h'.(call := if h'.mode.noResponse then FwdMark else FwdPost)
  }

  /** hg_core_forward_self and hg_core_process_self (2724-2731, 3531-3549). */
  function ForwardSelfNow(h: Handle, noResponse: bool, input: Input): Handle
  {
    var h' := ForwardBegin(h, noResponse).(opType := Process);
    ProcessedSelf(h'.(mode := h'.mode.(noResponse := noResponse)), input)
  }

  /** What hg_core_process_input finds: a bad header, more data to pull first, or everything. */
  datatype Input = BadInput | MoreInput | WholeInput

  function ProcessedSelf(h: Handle, input: Input): Handle
  {
    match input
    case BadInput => Rollback(h)
    case MoreInput => h.(net := h.net.(acquiring := true))
    case WholeInput => Complete(h)
  }

  /** One step of hg_core_forward_na (2747-2805); `ok` is the answer of NA. */
  function ForwardStep(h: Handle, ok: bool): Handle
    requires h.call.FwdPost? || h.call.FwdCount? || h.call.FwdMark? || h.call.FwdSend?
          || h.call.FwdUnmark? || h.call.FwdUncount? || h.call.FwdCancel?
  {
    match h.call
    case FwdPost => if ok then h.(net := h.net.(recv := true), call := FwdCount) else Rollback(h)
    case FwdCount => h.(net := h.net.(ops := h.net.ops + 1), call := FwdMark)
    case FwdMark => h.(status := h.status.(posted := true), call := FwdSend)
    case FwdSend => if ok then h.(net := h.net.(send := true), call := Quiet) else h.(call := FwdUnmark)
    case FwdUnmark =>
      var h' := h.(status := h.status.(posted := false, errored := true));
      if h.mode.noResponse then Rollback(h') else h'.(call := FwdUncount)
    case FwdUncount => h.(net := h.net.(ops := h.net.ops - 1), call := FwdCancel)
    case FwdCancel => h.(status := h.status.(canceled := true), call := Quiet)
  }

  // ------------------------------------------------------------------ respond

  /** hg_core_respond up to the call of `respond` (2820-2826): the reference kept for the response now travels with it. */
  function RespondBegin(h: Handle): Handle
  {
    h.(status := CLEAR, mode := h.mode.(failed := false),
       tok := h.tok.(pending := h.tok.pending - 1, flight := h.tok.flight + 1),
       hist := h.hist.(begun := h.hist.begun + 1))
  }

  function RespondNow(h: Handle, wantsAck: bool): Handle
  {
    var h' := RespondBegin(h);
    if h.mode.role.Self? then Complete(h'.(opType := RespondSelf))
    else h'.(opType := Respond, mode := h'.mode.(wantsAck := wantsAck), call := RspCount)
  }

  /** One step of hg_core_respond_na (2912-2988). */
  function RespondStep(h: Handle, ok: bool): Handle
    requires h.call.RspCount? || h.call.RspPost? || h.call.RspMark? || h.call.RspSend?
          || h.call.RspUnmark? || h.call.RspUncount? || h.call.RspCancel?
  {
    match h.call
    case RspCount =>
      if h.mode.wantsAck then h.(net := h.net.(ops := h.net.ops + 2), call := RspPost)
      else h.(net := h.net.(ops := h.net.ops + 1), call := RspMark)
    case RspPost => if ok then h.(net := h.net.(ack := true), call := RspMark) else Rollback(h)
    case RspMark => h.(status := h.status.(posted := true), call := RspSend)
    case RspSend => if ok then h.(net := h.net.(send := true), call := Quiet) else h.(call := RspUnmark)
    case RspUnmark =>
      var h' := h.(status := h.status.(posted := false, errored := true));
      if h.mode.wantsAck then h'.(call := RspUncount) else Rollback(h')
    case RspUncount => h.(net := h.net.(ops := h.net.ops - 1), call := RspCancel)
    case RspCancel => h.(status := h.status.(canceled := true), call := Quiet)
  }

  // ---------------------------------------------------------------- callbacks

  /** hg_core_send_input_cb and hg_core_send_output_cb (3011-3055, 3233-3264). */
  function SendCallback(h: Handle, res: Outcome): Handle
  {
    var failed := res.Error?;
    var st := h.status.(errored := h.status.errored || failed,
                        canceled := h.status.canceled || (failed && h.opType.Forward? && !h.mode.noResponse));
    CompleteNa(h.(net := h.net.(send := false), status := st))
  }

  /** hg_core_recv_output_cb (3268-3318) for a response without MORE_DATA. */
  function RecvOutput(h: Handle, res: Outcome): Handle
  {
    CompleteNa(h.(net := h.net.(recv := false), status := h.status.(errored := h.status.errored || res.Error?)))
  }

  /** hg_core_ack_cb (3456-3487). */
  function AckCallback(h: Handle, res: Outcome): Handle
  {
    CompleteNa(h.(net := h.net.(ack := false), status := h.status.(errored := h.status.errored || res.Error?)))
  }

  /** A canceled receive takes its reference with it. */
  function Unreceived(h: Handle): Handle
  {
    h.(net := h.net.(recv := false), status := h.status.(completed := true), tok := h.tok.(flight := h.tok.flight - 1),
       hist := h.hist.(undone := h.hist.undone + 1))
  }

  /** hg_core_recv_input_cb (3059-3160) on a listening handle. */
  function RecvInput(h: Handle, res: Outcome, input: Input, noResponse: bool, finalizing: bool): Handle
  {
    var h' := h.(net := h.net.(recv := false));
    match res
    case Success =>
      (match input
       case BadInput => CompleteNa(h'.(status := h'.status.(errored := true), mode := h'.mode.(failed := true)))
       case MoreInput => h'.(net := h'.net.(done := h'.net.done + 1, acquiring := true), mode := h'.mode.(noResponse := noResponse))
       case WholeInput => CompleteNa(h'.(mode := h'.mode.(noResponse := noResponse))))
    case Canceled =>
      if h.status.posted then CompleteNa(h'.(mode := h'.mode.(failed := true)))
      else Drop(Unreceived(h), finalizing)
    case Error => CompleteNa(h'.(status := h'.status.(errored := true), mode := h'.mode.(failed := true)))
  }

  /** hg_core_more_data_complete (3377-3394). */
  function Acquired(h: Handle, ok: bool): Handle
  {
    Complete(h.(net := h.net.(acquiring := false), mode := h.mode.(failed := !ok)))
  }

  // ------------------------------------------------------------------ trigger

  /** An entry is taken from the queue and its QUEUED bit cleared (4084); its reference now belongs to the trigger. */
  function Taken(h: Handle): Handle
  {
    h.(queue := h.queue - 1, status := h.status.(queued := false),
       tok := h.tok.(flight := h.tok.flight - 1, leaving := h.tok.leaving + 1))
  }

  /** hg_core_trigger_entry (4080-4164) up to the user's callback; `found`: the RPC is registered; `more`: its output is to be pulled first. */
  function TriggerStart(h: Handle, found: bool, more: bool): Handle
  {
    var h' := Taken(h);
    if h.opType.Process? then (if h.mode.failed then h' else RpcStart(h', found))
    else if h.opType.RespondSelf? then SelfResponded(h', more)
    else h'
  }

  /** Lines 4094 and 3578: one reference for the response, one for the callback's own destroy. */
  function RpcStart(h: Handle, found: bool): Handle
  {
    var h' := h.(refs := h.refs + 1, tok := h.tok.(pending := h.tok.pending + 1,
                                                   leaving := h.tok.leaving - 1, inRpc := h.tok.inRpc + 1));
    if found then h'.(refs := h'.refs + 1, tok := h'.tok.(owner := h'.tok.owner + 1)) else h'
  }

  /** hg_core_self_cb (3511-3523): the handle goes back into the queue as a completed forward. */
  function SelfResponded(h: Handle, more: bool): Handle
  {
    var h' := h.(opType := ForwardSelf, refs := h.refs + 1, tok := h.tok.(flight := h.tok.flight + 1),
                 hist := h.hist.(begun := h.hist.begun + 1));
    if more then h'.(net := h'.net.(acquiring := true)) else Complete(h')
  }

  /** After the RPC callback (4097-4113): answer an error, or complete an RPC without response. */
  function RpcReturn(h: Handle, ok: bool): Handle
  {
    var h' := h.(tok := h.tok.(inRpc := h.tok.inRpc - 1, leaving := h.tok.leaving + 1));
    if h.mode.noResponse then
      Complete(h'.(opType := if h.mode.role.Self? then ForwardSelf else NoRespond,
                   tok := h'.tok.(pending := h'.tok.pending - 1, flight := h'.tok.flight + 1),
                   hist := h'.hist.(begun := h'.hist.begun + 1)))
    else if !ok then RespondNow(h', false)
    else h'
  }

  /** The trigger's own destroy (4160). */
  function TriggerEnd(h: Handle, finalizing: bool): Handle
  {
    Drop(h.(tok := h.tok.(leaving := h.tok.leaving - 1)), finalizing)
  }

  // --------------------------------------------------------------------- user

  /** hg_core_cancel (4168-4211). */
  function Cancel(h: Handle): Handle
  {
    if h.mode.role.Self? || h.status.completed || h.status.errored || h.status.canceled then h
    else h.(status := h.status.(canceled := true))
  }

  /** HG_Core_reset (4937-4985). */
  function Reset(h: Handle): Handle
  {
    if !Guard(h) then h
    else h.(opType := Process, net := h.net.(ops := 1, done := 0), mode := h.mode.(noResponse := false, failed := false))
  }

  /** hg_get_struct (src/mercury.c:530) and hg_free_struct (src/mercury.c:787). */
  function GetStruct(h: Handle): Handle
  {
    h.(refs := h.refs + 1, tok := h.tok.(structs := h.tok.structs + 1))
  }

  function FreeStruct(h: Handle, finalizing: bool): Handle
  {
    Drop(h.(tok := h.tok.(structs := h.tok.structs - 1)), finalizing)
  }

  function DestroyCreator(h: Handle, finalizing: bool): Handle
  {
    Drop(h.(tok := h.tok.(creator := h.tok.creator - 1)), finalizing)
  }

  function DestroyOwner(h: Handle, finalizing: bool): Handle
  {
    Drop(h.(tok := h.tok.(owner := h.tok.owner - 1)), finalizing)
  }

  /** hg_core_context_unpost (1440-1451). */
  function Unpost(h: Handle): Handle
  {
    Cancel(h.(mode := h.mode.(repost := false)))
  }

  // -------------------------------------------------------------------- runs

  datatype Action =
    | DoForward(noResponse: bool, input: Input)
    | DoForwardStep(ok: bool)
    | DoRespond(wantsAck: bool)
    | DoRespondStep(ok: bool)
    | DoSendCallback(res: Outcome)
    | DoRecvOutput(res: Outcome)
    | DoAckCallback(res: Outcome)
    | DoRecvInput(res: Outcome, input: Input, noResponse: bool, finalizing: bool)
    | DoAcquired(ok: bool)
    | DoTriggerStart(found: bool, more: bool)
    | DoRpcReturn(ok: bool)
    | DoTriggerEnd(finalizing: bool)
    | DoCancel
    | DoUnpost
    | DoReset
    | DoGetStruct
    | DoFreeStruct(finalizing: bool)
    | DoDestroyCreator(finalizing: bool)
    | DoDestroyOwner(finalizing: bool)

  predicate Forwarding(c: Call)
  {
    c.FwdPost? || c.FwdCount? || c.FwdMark? || c.FwdSend? || c.FwdUnmark? || c.FwdUncount? || c.FwdCancel?
  }

  predicate Responding(c: Call)
  {
    c.RspCount? || c.RspPost? || c.RspMark? || c.RspSend? || c.RspUnmark? || c.RspUncount? || c.RspCancel?
  }

  /** No forward or respond is under way; one is not begun from the callback of another that has not returned. */
  predicate CallOver(h: Handle)
  {
    h.call.Quiet?
  }

  /** A self-forwarded handle is not used again before its forward callback has started. */
  predicate SelfFree(h: Handle)
  {
    h.mode.role.Self? ==> h.tok.flight == 0 && h.tok.pending == 0 && h.tok.inRpc == 0
  }

  /** Whoever makes a call keeps the reference it has until the call returns. */
  predicate CallerStays(h: Handle, leaving: int)
  {
    h.call.Quiet? || h.tok.creator + h.tok.owner + h.tok.leaving > leaving
  }

  /** What the code leaves open: a call by someone who holds a reference, a callback of an operation that was posted. */
  predicate Possible(h: Handle, a: Action)
  {
    !h.freed &&
    match a
    case DoForward(_, _) => h.tok.creator > 0
    case DoForwardStep(_) => Forwarding(h.call)
    case DoRespond(_) => h.tok.owner > 0 && h.tok.pending > 0
    case DoRespondStep(_) => Responding(h.call)
    case DoSendCallback(_) => h.net.send
    case DoRecvOutput(_) => h.net.recv && h.opType.Forward?
    case DoAckCallback(_) => h.net.ack
    case DoRecvInput(_, _, _, _) => h.net.recv && h.opType.Process?
    case DoAcquired(_) => h.net.acquiring
    case DoTriggerStart(_, _) => h.queue > 0
    case DoRpcReturn(ok) => h.tok.inRpc > 0 && (ok || h.tok.pending > 0)
    case DoTriggerEnd(_) => h.tok.leaving > 0
    case DoCancel => true
    case DoUnpost => h.mode.role.Target? && h.net.recv
    case DoReset => h.tok.creator > 0
    case DoGetStruct => h.tok.creator + h.tok.owner + h.tok.inRpc + h.tok.leaving > 0
    case DoFreeStruct(_) => h.tok.structs > 0
    case DoDestroyCreator(_) => h.tok.creator > 0
    case DoDestroyOwner(_) => h.tok.owner > 0
  }

  /** What is asked of the user beyond that: CallOver and SelfFree for a new use, CallerStays for giving up a reference. */
  predicate Considerate(h: Handle, a: Action)
  {
    match a
    case DoForward(_, _) => CallOver(h) && SelfFree(h)
    case DoReset => CallOver(h) && SelfFree(h)
    case DoTriggerEnd(_) => CallerStays(h, 1)
    case DoFreeStruct(_) => CallerStays(h, 0)
    case DoDestroyCreator(_) => CallerStays(h, 1)
    case DoDestroyOwner(_) => CallerStays(h, 1)
    case _ => true
  }

  predicate Enabled(h: Handle, a: Action)
  {
    Possible(h, a) && Considerate(h, a)
  }

  /** hg_core_forward as a whole: refused with HG_BUSY, forwarded to itself, or over NA. */
  function ForwardCall(h: Handle, noResponse: bool, input: Input): Handle
  {
    if !Guard(h) then h
    else if h.mode.role.Self? then ForwardSelfNow(h, noResponse, input)
    else ForwardNa(h, noResponse)
  }

  /** hg_core_respond as a whole: refused when no response is wanted. */
  function RespondCall(h: Handle, wantsAck: bool): Handle
  {
    if h.mode.noResponse then h else RespondNow(h, wantsAck)
  }

  function Apply(h: Handle, a: Action): Handle
    requires Possible(h, a)
  {
    match a
    case DoForward(noResponse, input) => ForwardCall(h, noResponse, input)
    case DoForwardStep(ok) => ForwardStep(h, ok)
    case DoRespond(wantsAck) => RespondCall(h, wantsAck)
    case DoRespondStep(ok) => RespondStep(h, ok)
    case DoSendCallback(res) => SendCallback(h, res)
    case DoRecvOutput(res) => RecvOutput(h, res)
    case DoAckCallback(res) => AckCallback(h, res)
    case DoRecvInput(res, input, noResponse, finalizing) => RecvInput(h, res, input, noResponse, finalizing)
    case DoAcquired(ok) => Acquired(h, ok)
    case DoTriggerStart(found, more) => TriggerStart(h, found, more)
    case DoRpcReturn(ok) => RpcReturn(h, ok)
    case DoTriggerEnd(finalizing) => TriggerEnd(h, finalizing)
    case DoCancel => Cancel(h)
    case DoUnpost => Unpost(h)
    case DoReset => Reset(h)
    case DoGetStruct => GetStruct(h)
    case DoFreeStruct(finalizing) => FreeStruct(h, finalizing)
    case DoDestroyCreator(finalizing) => DestroyCreator(h, finalizing)
    case DoDestroyOwner(finalizing) => DestroyOwner(h, finalizing)
  }

  /** A created handle (2239-2290, 2378-2379). */
  function Created(role: Role): Handle
  {
    Handle(DONE, Process, Net(1, 0, false, false, false, false), Quiet, 1, Tokens(1, 0, 0, 0, 0, 0, 0), 0,
           Mode(role, false, false, false, false), false, History(0, 0, 0, 0))
  }

  /** A handle that listens (1396-1416). */
  function Listening(): Handle
  {
    Handle(CLEAR, Process, Net(1, 0, true, false, false, false), Quiet, 1, Tokens(0, 1, 0, 0, 0, 0, 0), 0,
           Mode(Target, false, true, false, false), false, History(1, 0, 0, 0))
  }

  ghost predicate Init(h: Handle)
  {
    h == Listening() || (!h.mode.role.Target? && h == Created(h.mode.role))
  }

  // ---------------------------------------------------------------- invariant

  function Held(t: Tokens): int
  {
    t.creator + t.flight + t.inRpc + t.leaving + t.pending + t.owner + t.structs
  }

  ghost predicate NonNegative(t: Tokens)
  {
    t.creator >= 0 && t.flight >= 0 && t.inRpc >= 0 && t.leaving >= 0 && t.pending >= 0 && t.owner >= 0 && t.structs >= 0
  }

  /** The reference count is the number of references held, and the handle lives as long as there is one. */
  ghost predicate Counted(h: Handle)
  {
    NonNegative(h.tok) && h.refs == Held(h.tok) && (h.freed <==> h.refs == 0)
  }

  predicate CallBusy(c: Call)
  {
    !c.Quiet? && !c.FwdCancel? && !c.RspCancel?
  }

  predicate Outstanding(n: Net)
  {
    n.recv || n.send || n.ack
  }

  /** An operation was begun and has neither been queued nor rolled back. */
  predicate InProgress(h: Handle)
  {
    Outstanding(h.net) || h.net.acquiring || CallBusy(h.call)
  }

  ghost predicate FlightOk(h: Handle)
  {
    && h.tok.flight == (if h.queue > 0 || InProgress(h) then 1 else 0)
    && 0 <= h.queue <= 1
    && (h.queue == 1 ==> !InProgress(h))
    && (h.status.queued <==> h.queue == 1)
    && (InProgress(h) && !h.mode.role.Self? ==> !h.status.completed)
    && (!InProgress(h) ==> h.status.completed)
    && h.hist.begun == h.hist.completed + h.hist.undone + (if InProgress(h) then 1 else 0)
  }

  function Bit(b: bool): int
  {
    if b then 1 else 0
  }

  /** NA operations the call in progress has counted and not posted, or will still count. */
  function Owes(c: Call): int
  {
    match c
    case FwdPost => 1
    case FwdMark => 1
    case FwdSend => 1
    case FwdUnmark => 1
    case FwdUncount => 1
    case RspPost => 2
    case RspMark => 1
    case RspSend => 1
    case RspUnmark => 1
    case RspUncount => 1
    case _ => 0
  }

  ghost predicate NetOk(h: Handle)
  {
    && (InProgress(h) && !h.net.acquiring ==>
          h.net.done + Bit(h.net.recv) + Bit(h.net.send) + Bit(h.net.ack) + Owes(h.call) == h.net.ops)
    && (h.net.acquiring ==> !Outstanding(h.net) && h.call.Quiet?)
    && (h.net.acquiring || Outstanding(h.net) || CallBusy(h.call) ==> h.tok.pending == 0)
    && (Forwarding(h.call) ==> h.opType.Forward? && h.mode.role.Origin?)
    && (Responding(h.call) ==> h.opType.Respond? && h.mode.role.Target?)
    && (h.net.recv ==> h.opType.Forward? || h.opType.Process?)
    && (h.net.recv && h.opType.Process? ==> h.mode.role.Target? && !h.net.send && !h.net.ack && h.call.Quiet?)
    && (h.net.ack ==> h.opType.Respond?)
    && (h.net.send ==> h.opType.Forward? || h.opType.Respond?)
  }

  ghost predicate CallOk(h: Handle)
  {
    CallerStays(h, 0) &&
    match h.call
    case Quiet => true
    case FwdPost => !Outstanding(h.net) && !h.mode.noResponse
    case FwdCount => h.net.recv && !h.net.send && !h.net.ack && !h.mode.noResponse
    case FwdMark => !h.net.send && !h.net.ack && (h.mode.noResponse ==> !h.net.recv)
    case FwdSend => !h.net.send && !h.net.ack && (h.mode.noResponse ==> !h.net.recv)
    case FwdUnmark => !h.net.send && !h.net.ack && (h.net.recv <==> !h.mode.noResponse)
    case FwdUncount => h.net.recv && !h.net.send && !h.net.ack
    case FwdCancel => !h.net.send && !h.net.ack
    case RspCount => !Outstanding(h.net)
    case RspPost => !Outstanding(h.net) && h.mode.wantsAck
    case RspMark => !h.net.send && (h.net.ack ==> h.mode.wantsAck)
    case RspSend => !h.net.send && (h.net.ack ==> h.mode.wantsAck)
    case RspUnmark => !h.net.send && (h.net.ack <==> h.mode.wantsAck)
    case RspUncount => h.net.ack && !h.net.send
    case RspCancel => !h.net.send
  }

  /** The RPC being executed owes at most one response, and until then nothing else is going on. */
  ghost predicate RpcOk(h: Handle)
  {
    && h.tok.pending + h.tok.flight <= 1
    && (h.tok.pending > 0 ==> h.call.Quiet? && (h.mode.role.Target? ==> h.net.done == h.net.ops))
    && h.tok.inRpc <= 1
    && (h.tok.inRpc == 1 && h.mode.noResponse ==> h.tok.pending == 1)
    && (h.opType.Process? && h.tok.flight == 1 ==> h.tok.inRpc == 0)
    && (h.mode.role.Origin? ==> !h.net.acquiring)
    && (h.mode.role.Origin? ==> h.tok.pending == 0 && h.tok.inRpc == 0 && h.tok.owner == 0 && (h.tok.flight == 1 ==> h.opType.Forward?))
    && (h.mode.role.Self? ==> !Outstanding(h.net) && h.call.Quiet?)
    && (h.mode.role.Target? ==> h.tok.creator == 0 && !h.opType.Forward?)
    && (h.mode.repost ==> h.mode.role.Target?)
    && (h.opType.RespondSelf? || h.opType.ForwardSelf? ==> h.mode.role.Self?)
    && (h.mode.role.Target? && h.opType.Process? && h.queue == 1 ==> h.net.done == h.net.ops)
    && (h.mode.role.Target? && h.net.acquiring ==> h.net.done == h.net.ops)
    && (h.mode.role.Target? && h.net.recv ==> h.opType.Process?)
  }

  ghost predicate Inv(h: Handle)
  {
    Counted(h) && FlightOk(h) && NetOk(h) && CallOk(h) && RpcOk(h)
  }

  /**
   Hypothesis: the callback of a pre-posted receive comes after the operation
   count has been raised for it, and not before the count is taken back when
   the send could not be posted.
   */
  ghost predicate Timely(h: Handle)
  {
    && (h.call.FwdCount? || h.call.FwdUncount? || (h.call.FwdUnmark? && !h.mode.noResponse) ==> h.net.recv)
    && (h.call.RspUncount? || (h.call.RspUnmark? && h.mode.wantsAck) ==> h.net.ack)
  }

  lemma CreatedInv(role: Role)
    requires !role.Target?
    ensures Inv(Created(role))
  {
  }

  lemma ListeningInv(h: Handle)
    requires h == Listening()
    ensures Inv(h)
  {
  }

  lemma InitInv(h: Handle)
    requires Init(h)
    ensures Inv(h)
  {
    if h.mode.role.Target? {
      ListeningInv(h);
    } else {
      CreatedInv(h.mode.role);
    }
  }

  // -------------------------------------------------------------- preservation

  lemma ForwardCallKeepsInv(h: Handle, noResponse: bool, input: Input)
    requires Inv(h) && Enabled(h, DoForward(noResponse, input))
    ensures Inv(ForwardCall(h, noResponse, input))
  {
  }

  /** A failed call gives back the reference it took, and never the last one: its caller has one. */
  lemma RollbackKeepsInv(h: Handle)
    requires Inv(h) && !h.freed && CallBusy(h.call) && !Outstanding(h.net)
    ensures Inv(Rollback(h)) && Rollback(h).refs >= 1
  {
  }

  lemma UnmarkKeepsInv(h: Handle)
    requires Inv(h) && CallBusy(h.call)
    ensures Inv(h.(status := h.status.(posted := false, errored := true)))
  {
  }

  lemma FwdPostingKeepsInv(h: Handle, ok: bool)
    requires Inv(h) && !h.freed && (h.call.FwdPost? || h.call.FwdCount?)
    ensures Inv(ForwardStep(h, ok))
  {
    if h.call.FwdPost? && !ok {
      RollbackKeepsInv(h);
    }
  }

  lemma FwdSendingKeepsInv(h: Handle, ok: bool)
    requires Inv(h) && !h.freed && (h.call.FwdMark? || h.call.FwdSend?) && Timely(ForwardStep(h, ok))
    ensures Inv(ForwardStep(h, ok))
  {
  }

  lemma FwdUndoingKeepsInv(h: Handle, ok: bool)
    requires Inv(h) && !h.freed && (h.call.FwdUnmark? || h.call.FwdUncount? || h.call.FwdCancel?)
    ensures Inv(ForwardStep(h, ok))
  {
    if h.call.FwdUnmark? && h.mode.noResponse {
      UnmarkKeepsInv(h);
      RollbackKeepsInv(h.(status := h.status.(posted := false, errored := true)));
    }
  }

  lemma ForwardStepKeepsInv(h: Handle, ok: bool)
    requires Inv(h) && Enabled(h, DoForwardStep(ok)) && Timely(ForwardStep(h, ok))
    ensures Inv(ForwardStep(h, ok))
  {
    if h.call.FwdPost? || h.call.FwdCount? {
      FwdPostingKeepsInv(h, ok);
    } else if h.call.FwdMark? || h.call.FwdSend? {
      FwdSendingKeepsInv(h, ok);
    } else {
      FwdUndoingKeepsInv(h, ok);
    }
  }

  lemma RespondCallKeepsInv(h: Handle, wantsAck: bool)
    requires Inv(h) && Enabled(h, DoRespond(wantsAck))
    ensures Inv(RespondCall(h, wantsAck))
  {
  }

  lemma RspPostingKeepsInv(h: Handle, ok: bool)
    requires Inv(h) && !h.freed && (h.call.RspCount? || h.call.RspPost?)
    ensures Inv(RespondStep(h, ok))
  {
    if h.call.RspPost? && !ok {
      RollbackKeepsInv(h);
    }
  }

  lemma RspSendingKeepsInv(h: Handle, ok: bool)
    requires Inv(h) && !h.freed && (h.call.RspMark? || h.call.RspSend?) && Timely(RespondStep(h, ok))
    ensures Inv(RespondStep(h, ok))
  {
  }

  lemma RspUndoingKeepsInv(h: Handle, ok: bool)
    requires Inv(h) && !h.freed && (h.call.RspUnmark? || h.call.RspUncount? || h.call.RspCancel?)
    ensures Inv(RespondStep(h, ok))
  {
    if h.call.RspUnmark? && !h.mode.wantsAck {
      UnmarkKeepsInv(h);
      RollbackKeepsInv(h.(status := h.status.(posted := false, errored := true)));
    }
  }

  lemma RespondStepKeepsInv(h: Handle, ok: bool)
    requires Inv(h) && Enabled(h, DoRespondStep(ok)) && Timely(RespondStep(h, ok))
    ensures Inv(RespondStep(h, ok))
  {
    if h.call.RspCount? || h.call.RspPost? {
      RspPostingKeepsInv(h, ok);
    } else if h.call.RspMark? || h.call.RspSend? {
      RspSendingKeepsInv(h, ok);
    } else {
      RspUndoingKeepsInv(h, ok);
    }
  }

  lemma SendCallbackKeepsInv(h: Handle, res: Outcome)
    requires Inv(h) && Enabled(h, DoSendCallback(res))
    ensures Inv(SendCallback(h, res))
  {
  }

  lemma RecvOutputKeepsInv(h: Handle, res: Outcome)
    requires Inv(h) && Enabled(h, DoRecvOutput(res)) && Timely(RecvOutput(h, res))
    ensures Inv(RecvOutput(h, res))
  {
  }

  lemma AckCallbackKeepsInv(h: Handle, res: Outcome)
    requires Inv(h) && Enabled(h, DoAckCallback(res)) && Timely(AckCallback(h, res))
    ensures Inv(AckCallback(h, res))
  {
  }

  lemma InputKeepsInv(h: Handle, input: Input, noResponse: bool)
    requires Inv(h) && !h.freed && h.net.recv && h.opType.Process?
    ensures Inv(RecvInput(h, Success, input, noResponse, false)) && Inv(RecvInput(h, Error, input, noResponse, false))
  {
  }

  lemma AcquiredKeepsInv(h: Handle, ok: bool)
    requires Inv(h) && Enabled(h, DoAcquired(ok))
    ensures Inv(Acquired(h, ok))
  {
  }

  lemma TriggerStartKeepsInv(h: Handle, found: bool, more: bool)
    requires Inv(h) && Enabled(h, DoTriggerStart(found, more))
    ensures Inv(TriggerStart(h, found, more))
  {
  }

  lemma RpcReturnKeepsInv(h: Handle, ok: bool)
    requires Inv(h) && Enabled(h, DoRpcReturn(ok))
    ensures Inv(RpcReturn(h, ok))
  {
  }

  /** Everything but the reference count. */
  ghost predicate Sound(h: Handle)
  {
    FlightOk(h) && NetOk(h) && CallOk(h) && RpcOk(h)
  }

  lemma LastDropIdle(h: Handle)
    requires NonNegative(h.tok) && Held(h.tok) == 0 && FlightOk(h) && CallOk(h)
    ensures h.queue == 0 && !InProgress(h) && h.call.Quiet?
  {
  }

  lemma RepostKeepsInv(h: Handle)
    requires h.queue == 0 && h.mode.role.Target? && h.hist.begun == h.hist.completed + h.hist.undone
    ensures Inv(Reposted(h))
  {
  }

  /** Giving up one reference; `h` is the handle without its token. */
  lemma DropKeepsInv(h: Handle, finalizing: bool)
    requires !h.freed && NonNegative(h.tok) && h.refs == Held(h.tok) + 1 && Sound(h)
    ensures Inv(Drop(h, finalizing))
  {
    if h.refs == 1 {
      LastDropIdle(h);
      if h.mode.repost && !finalizing {
        RepostKeepsInv(h);
      }
    }
  }

  lemma TokenGoneSound(h: Handle, tok: Tokens)
    requires Sound(h) && tok.flight == h.tok.flight && tok.pending == h.tok.pending && tok.inRpc == h.tok.inRpc
    requires 0 <= tok.creator <= h.tok.creator && 0 <= tok.owner <= h.tok.owner
    requires h.call.Quiet? || tok.creator + tok.owner + tok.leaving > 0
    ensures Sound(h.(tok := tok))
  {
  }

  lemma GiveUpKeepsInv(h: Handle, tok: Tokens, finalizing: bool)
    requires Inv(h) && !h.freed && Held(tok) + 1 == Held(h.tok)
    requires tok.flight == h.tok.flight && tok.pending == h.tok.pending && tok.inRpc == h.tok.inRpc
    requires 0 <= tok.creator <= h.tok.creator && 0 <= tok.owner <= h.tok.owner && 0 <= tok.leaving && 0 <= tok.structs
    requires h.call.Quiet? || tok.creator + tok.owner + tok.leaving > 0
    ensures Inv(Drop(h.(tok := tok), finalizing))
  {
    TokenGoneSound(h, tok);
    DropKeepsInv(h.(tok := tok), finalizing);
  }

  lemma TriggerEndKeepsInv(h: Handle, finalizing: bool)
    requires Inv(h) && Enabled(h, DoTriggerEnd(finalizing))
    ensures Inv(TriggerEnd(h, finalizing))
  {
    var tok := h.tok.(leaving := h.tok.leaving - 1);
    assert TriggerEnd(h, finalizing) == Drop(h.(tok := tok), finalizing);
    assert NonNegative(h.tok);
    GiveUpKeepsInv(h, tok, finalizing);
  }

  lemma FreeStructKeepsInv(h: Handle, finalizing: bool)
    requires Inv(h) && Enabled(h, DoFreeStruct(finalizing))
    ensures Inv(FreeStruct(h, finalizing))
  {
    var tok := h.tok.(structs := h.tok.structs - 1);
    assert FreeStruct(h, finalizing) == Drop(h.(tok := tok), finalizing);
    assert NonNegative(h.tok);
    GiveUpKeepsInv(h, tok, finalizing);
  }

  lemma DestroyCreatorKeepsInv(h: Handle, finalizing: bool)
    requires Inv(h) && Enabled(h, DoDestroyCreator(finalizing))
    ensures Inv(DestroyCreator(h, finalizing))
  {
    var tok := h.tok.(creator := h.tok.creator - 1);
    assert DestroyCreator(h, finalizing) == Drop(h.(tok := tok), finalizing);
    assert NonNegative(h.tok);
    GiveUpKeepsInv(h, tok, finalizing);
  }

  lemma DestroyOwnerKeepsInv(h: Handle, finalizing: bool)
    requires Inv(h) && Enabled(h, DoDestroyOwner(finalizing))
    ensures Inv(DestroyOwner(h, finalizing))
  {
    var tok := h.tok.(owner := h.tok.owner - 1);
    assert DestroyOwner(h, finalizing) == Drop(h.(tok := tok), finalizing);
    assert NonNegative(h.tok);
    GiveUpKeepsInv(h, tok, finalizing);
  }

  lemma UnreceivedSound(h: Handle)
    requires Inv(h) && !h.freed && h.net.recv && h.opType.Process?
    ensures Sound(Unreceived(h)) && NonNegative(Unreceived(h).tok) && h.refs == Held(Unreceived(h).tok) + 1
  {
  }

  lemma CanceledPostedKeepsInv(h: Handle, input: Input, noResponse: bool, finalizing: bool)
    requires Inv(h) && !h.freed && h.net.recv && h.opType.Process? && h.status.posted
    ensures Inv(RecvInput(h, Canceled, input, noResponse, finalizing))
  {
  }

  lemma InputCanceledKeepsInv(h: Handle, input: Input, noResponse: bool, finalizing: bool)
    requires Inv(h) && !h.freed && h.net.recv && h.opType.Process?
    ensures Inv(RecvInput(h, Canceled, input, noResponse, finalizing))
  {
    if h.status.posted {
      CanceledPostedKeepsInv(h, input, noResponse, finalizing);
    } else {
      UnreceivedSound(h);
      DropKeepsInv(Unreceived(h), finalizing);
    }
  }

  lemma RecvInputKeepsInv(h: Handle, res: Outcome, input: Input, noResponse: bool, finalizing: bool)
    requires Inv(h) && Enabled(h, DoRecvInput(res, input, noResponse, finalizing))
    ensures Inv(RecvInput(h, res, input, noResponse, finalizing))
  {
    if res.Canceled? {
      InputCanceledKeepsInv(h, input, noResponse, finalizing);
    } else {
      InputKeepsInv(h, input, noResponse);
      assert RecvInput(h, res, input, noResponse, finalizing) == RecvInput(h, res, input, noResponse, false);
    }
  }

  lemma UnpostKeepsInv(h: Handle)
    requires Inv(h) && Enabled(h, DoUnpost)
    ensures Inv(Unpost(h))
  {
    var h' := h.(mode := h.mode.(repost := false));
    assert Sound(h');
    CancelKeepsInv(h');
  }

  lemma CancelKeepsInv(h: Handle)
    requires Inv(h) && !h.freed
    ensures Inv(Cancel(h))
  {
  }

  lemma ResetKeepsInv(h: Handle)
    requires Inv(h) && Enabled(h, DoReset)
    ensures Inv(Reset(h))
  {
  }

  lemma GetStructKeepsInv(h: Handle)
    requires Inv(h) && Enabled(h, DoGetStruct)
    ensures Inv(GetStruct(h))
  {
  }

  predicate IsCall(a: Action)
  {
    a.DoForward? || a.DoForwardStep? || a.DoRespond? || a.DoRespondStep?
  }

  predicate IsCallback(a: Action)
  {
    a.DoSendCallback? || a.DoRecvOutput? || a.DoAckCallback? || a.DoRecvInput? || a.DoAcquired?
  }

  predicate IsTrigger(a: Action)
  {
    a.DoTriggerStart? || a.DoRpcReturn? || a.DoTriggerEnd?
  }

  lemma CallKeepsInv(h: Handle, a: Action)
    requires Inv(h) && Enabled(h, a) && Timely(Apply(h, a)) && IsCall(a)
    ensures Inv(Apply(h, a))
  {
    match a
    case DoForward(noResponse, input) => ForwardCallKeepsInv(h, noResponse, input);
    case DoForwardStep(ok) => ForwardStepKeepsInv(h, ok);
    case DoRespond(wantsAck) => RespondCallKeepsInv(h, wantsAck);
    case DoRespondStep(ok) => RespondStepKeepsInv(h, ok);
  }

  lemma CallbackKeepsInv(h: Handle, a: Action)
    requires Inv(h) && Enabled(h, a) && Timely(Apply(h, a)) && IsCallback(a)
    ensures Inv(Apply(h, a))
  {
    match a
    case DoSendCallback(res) => SendCallbackKeepsInv(h, res);
    case DoRecvOutput(res) => RecvOutputKeepsInv(h, res);
    case DoAckCallback(res) => AckCallbackKeepsInv(h, res);
    case DoRecvInput(res, input, noResponse, finalizing) => RecvInputKeepsInv(h, res, input, noResponse, finalizing);
    case DoAcquired(ok) => AcquiredKeepsInv(h, ok);
  }

  lemma TriggerKeepsInv(h: Handle, a: Action)
    requires Inv(h) && Enabled(h, a) && IsTrigger(a)
    ensures Inv(Apply(h, a))
  {
    match a
    case DoTriggerStart(found, more) => TriggerStartKeepsInv(h, found, more);
    case DoRpcReturn(ok) => RpcReturnKeepsInv(h, ok);
    case DoTriggerEnd(finalizing) => TriggerEndKeepsInv(h, finalizing);
  }

  lemma UserKeepsInv(h: Handle, a: Action)
    requires Inv(h) && Enabled(h, a) && !IsCall(a) && !IsCallback(a) && !IsTrigger(a)
    ensures Inv(Apply(h, a))
  {
    match a
    case DoCancel => CancelKeepsInv(h);
    case DoUnpost => UnpostKeepsInv(h);
    case DoReset => ResetKeepsInv(h);
    case DoGetStruct => GetStructKeepsInv(h);
    case DoFreeStruct(finalizing) => FreeStructKeepsInv(h, finalizing);
    case DoDestroyCreator(finalizing) => DestroyCreatorKeepsInv(h, finalizing);
    case DoDestroyOwner(finalizing) => DestroyOwnerKeepsInv(h, finalizing);
  }

  lemma ApplyKeepsInv(h: Handle, a: Action)
    requires Inv(h) && Enabled(h, a) && Timely(Apply(h, a))
    ensures Inv(Apply(h, a))
  {
    if IsCall(a) {
      CallKeepsInv(h, a);
    } else if IsCallback(a) {
      CallbackKeepsInv(h, a);
    } else if IsTrigger(a) {
      TriggerKeepsInv(h, a);
    } else {
      UserKeepsInv(h, a);
    }
  }

  // --------------------------------------------------------------- whole runs

  ghost predicate Run(states: seq<Handle>, acts: seq<Action>)
  {
    && |states| == |acts| + 1
    && Init(states[0])
    && (forall i :: 0 <= i < |acts| ==> Enabled(states[i], acts[i]) && states[i + 1] == Apply(states[i], acts[i]))
  }

  ghost predicate AlwaysTimely(states: seq<Handle>)
  {
    forall i :: 0 <= i < |states| ==> Timely(states[i])
  }

  lemma {:induction false} RunsKeepInv(states: seq<Handle>, acts: seq<Action>, i: nat)
    requires Run(states, acts) && AlwaysTimely(states) && i < |states|
    ensures Inv(states[i])
  {
    if i == 0 {
      InitInv(states[0]);
    } else {
      RunsKeepInv(states, acts, i - 1);
      assert Timely(states[i]);
      ApplyKeepsInv(states[i - 1], acts[i - 1]);
    }
  }

  /** In every run the reference count is the number of references held, and the handle is gone exactly when there are none. */
  lemma RefsAreTokens(states: seq<Handle>, acts: seq<Action>, i: nat)
    requires Run(states, acts) && AlwaysTimely(states) && i < |states|
    ensures states[i].refs == Held(states[i].tok) >= 0
    ensures states[i].freed <==> Held(states[i].tok) == 0
    ensures states[i].queue > 0 || InProgress(states[i]) ==> !states[i].freed && states[i].tok.flight == 1
  {
    RunsKeepInv(states, acts, i);
  }

  /** The steps that give up a reference through hg_core_destroy. */
  predicate GivesUp(h: Handle, a: Action)
  {
    || a.DoTriggerEnd? || a.DoFreeStruct? || a.DoDestroyCreator? || a.DoDestroyOwner?
    || (a.DoRecvInput? && a.res.Canceled? && !h.status.posted)
  }

  lemma OthersRelease(h: Handle, a: Action)
    requires Enabled(h, a) && !GivesUp(h, a)
    ensures Apply(h, a).hist.released == h.hist.released && !Apply(h, a).freed
  {
  }

  lemma GivingUpReleases(h: Handle, a: Action)
    requires Possible(h, a) && GivesUp(h, a)
    ensures Apply(h, a).hist.released == (if h.refs == 1 then h.hist.released + 1 else h.hist.released)
    ensures Apply(h, a).freed ==> h.refs == 1
  {
  }

  /** The one reference that is left is not that of an operation going on, unless that is a receive. */
  lemma LastTokenIdle(h: Handle, a: Action)
    requires Inv(h) && Enabled(h, a) && GivesUp(h, a) && h.refs == 1
    ensures h.queue == 0 && !h.net.send && !h.net.ack && !h.net.acquiring && h.call.Quiet? && (h.net.recv ==> a.DoRecvInput?)
  {
  }

  /**
   The handle is freed or posted again exactly by the step that gives up the
   last reference, and then its entry is in no queue, no forward or respond is
   under way, no payload is being acquired and no NA operation is outstanding (a
   canceled receive gives up its own reference).
   */
  lemma ReleasedWithLastToken(states: seq<Handle>, acts: seq<Action>, i: nat)
    requires Run(states, acts) && AlwaysTimely(states) && i < |acts|
    ensures var h, h', last := states[i], states[i + 1], GivesUp(states[i], acts[i]) && Held(states[i].tok) == 1;
            && h'.hist.released == (if last then h.hist.released + 1 else h.hist.released)
            && (h'.freed ==> last)
            && (last ==>
                  && h.queue == 0 && h.call.Quiet? && !h.net.acquiring
                  && !h.net.send && !h.net.ack && (h.net.recv ==> acts[i].DoRecvInput?))
  {
    RunsKeepInv(states, acts, i);
    if GivesUp(states[i], acts[i]) {
      GivingUpReleases(states[i], acts[i]);
      if states[i].refs == 1 {
        LastTokenIdle(states[i], acts[i]);
      }
    } else {
      OthersRelease(states[i], acts[i]);
    }
  }

  /** No handle is gone under a forward or respond, nor freed or posted again while one is under way. */
  lemma NeverReleasedUnderCall(states: seq<Handle>, acts: seq<Action>, i: nat)
    requires Run(states, acts) && AlwaysTimely(states) && i < |states| && !states[i].call.Quiet?
    ensures !states[i].freed
    ensures i < |acts| ==> !states[i + 1].freed && states[i + 1].hist.released == states[i].hist.released
  {
    RunsKeepInv(states, acts, i);
    if i < |acts| {
      ReleasedWithLastToken(states, acts, i);
    }
  }

  /**
   Without CallerStays, exactly when: giving up a reference after a considerate
   run releases the handle under a call if and only if the call has taken its
   count back and is about to cancel, at most one reference is left to the
   creator, the RPC callback and the triggers, and none to anybody else.
   */
  lemma ReleasedUnderCallIff(states: seq<Handle>, acts: seq<Action>, a: Action)
    requires Run(states, acts) && AlwaysTimely(states)
    requires Possible(states[|acts|], a) && GivesUp(states[|acts|], a) && !states[|acts|].call.Quiet?
    ensures var h := states[|acts|];
            Apply(h, a).hist.released > h.hist.released <==>
              && (h.call.FwdCancel? || h.call.RspCancel?)
              && !CallerStays(h, 1)
              && h.tok.flight + h.tok.inRpc + h.tok.structs == 0
  {
    RunsKeepInv(states, acts, |acts|);
    GivingUpReleases(states[|acts|], a);
  }

  /** Every operation begun is completed into the queue exactly once or rolled back once, or is still going on. */
  lemma CompletedExactlyOnce(states: seq<Handle>, acts: seq<Action>, i: nat)
    requires Run(states, acts) && AlwaysTimely(states) && i < |states|
    ensures states[i].hist.begun - states[i].hist.completed - states[i].hist.undone == (if InProgress(states[i]) then 1 else 0)
    ensures states[i].queue <= 1 && (states[i].status.queued <==> states[i].queue == 1)
  {
    RunsKeepInv(states, acts, i);
  }

  /**
   COMPLETED and not QUEUED admits a new forward or reset exactly when no NA
   operation of the previous forward is outstanding, its entry is in no queue,
   and it has nothing left to post or to take back; it may still have to cancel.
   */
  lemma GuardExact(states: seq<Handle>, acts: seq<Action>, i: nat)
    requires Run(states, acts) && AlwaysTimely(states) && i < |states| && states[i].mode.role.Origin?
    ensures Guard(states[i]) <==> states[i].queue == 0 && !Outstanding(states[i].net) && !CallBusy(states[i].call)
  {
    RunsKeepInv(states, acts, i);
  }

  /** It does: the guard admits a forward during another exactly when that one is about to cancel a receive that is over. */
  lemma GuardDuringCallIff(states: seq<Handle>, acts: seq<Action>, i: nat)
    requires Run(states, acts) && AlwaysTimely(states) && i < |states| && states[i].mode.role.Origin?
    ensures var h := states[i];
            Guard(h) && !CallOver(h) <==> h.call.FwdCancel? && h.queue == 0 && !Outstanding(h.net)
  {
    RunsKeepInv(states, acts, i);
  }

  /**
   For a handle forwarded to oneself the guard opens too early exactly when the
   entry is in no queue and the RPC runs or owes its response, or the output of
   a response already given is being acquired.
   */
  lemma SelfGuardEarlyIff(states: seq<Handle>, acts: seq<Action>, i: nat)
    requires Run(states, acts) && AlwaysTimely(states) && i < |states| && states[i].mode.role.Self?
    ensures var h := states[i];
            Guard(h) && !SelfFree(h) <==>
              h.queue == 0 && (if h.net.acquiring then h.status.completed else h.tok.pending + h.tok.inRpc > 0)
  {
    RunsKeepInv(states, acts, i);
  }

  lemma Extend(states: seq<Handle>, acts: seq<Action>, a: Action) returns (states': seq<Handle>, acts': seq<Action>)
    requires Run(states, acts) && Enabled(states[|acts|], a)
    ensures Run(states', acts') && |acts'| == |acts| + 1 && states'[|acts'|] == Apply(states[|acts|], a)
    ensures states' == states + [Apply(states[|acts|], a)]
  {
    states', acts' := states + [Apply(states[|acts|], a)], acts + [a];
  }

  /** A forward whose receive is posted, not yet counted, and called back. */
  const EARLY := Handle(
    DONE.(queued := true), Forward, Net(1, 1, false, false, false, false), FwdCount, 2, Tokens(1, 1, 0, 0, 0, 0, 0), 1,
    Mode(Origin, false, false, false, false), false, History(1, 1, 0, 0))

  lemma EarlyCallback() returns (states: seq<Handle>, acts: seq<Action>)
    ensures Run(states, acts) && states[|acts|] == EARLY
  {
    states, acts := [Created(Origin)], [];
    states, acts := Extend(states, acts, DoForward(false, WholeInput));
    states, acts := Extend(states, acts, DoForwardStep(true));
    states, acts := Extend(states, acts, DoRecvOutput(Canceled));
  }

  /**
   Without the hypothesis the guard is fooled: the receive is canceled and calls
   back before it is counted, the handle is queued at once, and after its
   callback has started the guard admits a new forward while the send of the
   first one is still outstanding.
   */
  lemma EarlyCallbackFoolsGuard() returns (states: seq<Handle>, acts: seq<Action>)
    ensures Run(states, acts)
    ensures Guard(states[|acts|]) && states[|acts|].net.send && states[|acts|].mode.role.Origin?
  {
    states, acts := EarlyCallback();
    states, acts := Extend(states, acts, DoForwardStep(true));
    states, acts := Extend(states, acts, DoForwardStep(true));
    states, acts := Extend(states, acts, DoForwardStep(true));
    states, acts := Extend(states, acts, DoTriggerStart(true, false));
  }

  lemma ExtendTimely(states: seq<Handle>, acts: seq<Action>, a: Action) returns (states': seq<Handle>, acts': seq<Action>)
    requires Run(states, acts) && AlwaysTimely(states) && Enabled(states[|acts|], a) && Timely(Apply(states[|acts|], a))
    ensures Run(states', acts') && AlwaysTimely(states') && |acts'| == |acts| + 1 && states'[|acts'|] == Apply(states[|acts|], a)
  {
    states', acts' := Extend(states, acts, a);
    StaysTimely(states, Apply(states[|acts|], a));
  }

  lemma StaysTimely(states: seq<Handle>, h: Handle)
    requires AlwaysTimely(states) && Timely(h)
    ensures AlwaysTimely(states + [h])
  {
  }

  /** A forward that counted its receive and could not send. */
  const UNSENT := Handle(
    CLEAR.(posted := true), Forward, Net(2, 0, true, false, false, false), FwdUnmark, 2, Tokens(1, 1, 0, 0, 0, 0, 0), 0,
    Mode(Origin, false, false, false, false), false, History(1, 0, 0, 0))

  lemma Unsent() returns (states: seq<Handle>, acts: seq<Action>)
    ensures Run(states, acts) && AlwaysTimely(states) && states[|acts|] == UNSENT
  {
    states, acts := [Created(Origin)], [];
    states, acts := ExtendTimely(states, acts, DoForward(false, WholeInput));
    states, acts := ExtendTimely(states, acts, DoForwardStep(true));
    states, acts := ExtendTimely(states, acts, DoForwardStep(true));
    states, acts := ExtendTimely(states, acts, DoForwardStep(true));
    states, acts := ExtendTimely(states, acts, DoForwardStep(false));
  }

  /** It took its count back, and the receive called back before it could be canceled. */
  const RECEIVED := Handle(
    DONE.(errored := true, queued := true), Forward, Net(1, 1, false, false, false, false), FwdCancel, 2,
    Tokens(1, 1, 0, 0, 0, 0, 0), 1, Mode(Origin, false, false, false, false), false, History(1, 1, 0, 0))

  lemma ReceivedBeforeCancel() returns (states: seq<Handle>, acts: seq<Action>)
    ensures Run(states, acts) && AlwaysTimely(states) && states[|acts|] == RECEIVED
  {
    states, acts := Unsent();
    states, acts := ExtendTimely(states, acts, DoForwardStep(true));
    states, acts := ExtendTimely(states, acts, DoForwardStep(true));
    states, acts := ExtendTimely(states, acts, DoRecvOutput(Success));
  }

  /**
   What CallerStays excludes: a forward fails to send and takes its count back
   (2789); the receive completes the handle all the same, the user's callback
   destroys it, and when the trigger gives up its reference the handle is freed
   under the forward, which goes on to use it (2792-2799).
   */
  lemma FreedUnderForward() returns (states: seq<Handle>, acts: seq<Action>)
    ensures Run(states, acts) && AlwaysTimely(states)
    ensures var h, a := states[|acts|], DoTriggerEnd(true);
            Possible(h, a) && !CallerStays(h, 1) && Apply(h, a).freed && Apply(h, a).call.FwdCancel?
  {
    states, acts := ReceivedBeforeCancel();
    states, acts := ExtendTimely(states, acts, DoTriggerStart(true, false));
    states, acts := ExtendTimely(states, acts, DoDestroyCreator(true));
  }

  /**
   What CallOver excludes: in the same place the callback forwards the handle
   again, which the guard admits; the first forward then marks the new operation
   canceled (2795), and cancels the new receive (2798).
   */
  lemma ForwardedDuringCancel() returns (states: seq<Handle>, acts: seq<Action>)
    ensures Run(states, acts) && AlwaysTimely(states)
    ensures var h, a := states[|acts|], DoForward(false, WholeInput);
            && Guard(h) && Possible(h, a) && SelfFree(h) && h.call.FwdCancel?
            && Apply(h, a).hist.begun == h.hist.begun + 1 && !Apply(h, a).status.canceled
            && ForwardStep(Apply(h, a).(call := h.call), true).status.canceled
  {
    states, acts := ReceivedBeforeCancel();
    states, acts := ExtendTimely(states, acts, DoTriggerStart(true, false));
  }

  /** A target whose RPC callback has returned and left the response to somebody who holds the callback's reference. */
  const ANSWERING := Handle(
    DONE, Process, Net(1, 1, false, false, false, false), Quiet, 2, Tokens(0, 0, 0, 0, 1, 1, 0), 0,
    Mode(Target, false, true, false, false), false, History(1, 1, 0, 0))

  /** Its request has arrived and is queued. */
  const REQUESTED := Handle(
    DONE.(queued := true), Process, Net(1, 1, false, false, false, false), Quiet, 1, Tokens(0, 1, 0, 0, 0, 0, 0), 1,
    Mode(Target, false, true, false, false), false, History(1, 1, 0, 0))

  lemma Requested(h: Handle) returns (states: seq<Handle>, acts: seq<Action>)
    requires h == Listening()
    ensures Run(states, acts) && AlwaysTimely(states) && states[|acts|] == REQUESTED
  {
    states, acts := [h], [];
    states, acts := ExtendTimely(states, acts, DoRecvInput(Success, WholeInput, false, false));
  }

  lemma Answering() returns (states: seq<Handle>, acts: seq<Action>)
    ensures Run(states, acts) && AlwaysTimely(states) && states[|acts|] == ANSWERING
  {
    states, acts := Requested(Listening());
    states, acts := ExtendTimely(states, acts, DoTriggerStart(true, false));
    states, acts := ExtendTimely(states, acts, DoRpcReturn(true));
    states, acts := ExtendTimely(states, acts, DoTriggerEnd(false));
  }

  /** It has counted and posted the ack, and could not send its response. */
  const UNANSWERED := Handle(
    CLEAR.(posted := true), Respond, Net(3, 1, false, false, true, false), RspUnmark, 2, Tokens(0, 1, 0, 0, 0, 1, 0), 0,
    Mode(Target, false, true, false, true), false, History(2, 1, 0, 0))

  lemma Unanswered() returns (states: seq<Handle>, acts: seq<Action>)
    ensures Run(states, acts) && AlwaysTimely(states) && states[|acts|] == UNANSWERED
  {
    states, acts := Answering();
    states, acts := ExtendTimely(states, acts, DoRespond(true));
    states, acts := ExtendTimely(states, acts, DoRespondStep(true));
    states, acts := ExtendTimely(states, acts, DoRespondStep(true));
    states, acts := ExtendTimely(states, acts, DoRespondStep(true));
    states, acts := ExtendTimely(states, acts, DoRespondStep(false));
  }

  /** It took its count back, and the ack called back before it could be canceled. */
  const ACKED := Handle(
    DONE.(errored := true, queued := true), Respond, Net(2, 2, false, false, false, false), RspCancel, 2,
    Tokens(0, 1, 0, 0, 0, 1, 0), 1, Mode(Target, false, true, false, true), false, History(2, 2, 0, 0))

  lemma AckedBeforeCancel() returns (states: seq<Handle>, acts: seq<Action>)
    ensures Run(states, acts) && AlwaysTimely(states) && states[|acts|] == ACKED
  {
    states, acts := Unanswered();
    states, acts := ExtendTimely(states, acts, DoRespondStep(true));
    states, acts := ExtendTimely(states, acts, DoRespondStep(true));
    states, acts := ExtendTimely(states, acts, DoAckCallback(Success));
  }

  /**
   The same in respond (2966-2979): the handle is posted again for the next
   request while the respond is about to cancel its ack, and what the respond
   then marks canceled is that new receive.
   */
  lemma RepostedUnderRespond() returns (states: seq<Handle>, acts: seq<Action>)
    ensures Run(states, acts) && AlwaysTimely(states)
    ensures var h, a := states[|acts|], DoTriggerEnd(false);
            && Possible(h, a) && !CallerStays(h, 1) && h.call.RspCancel?
            && Apply(h, a) == Reposted(h.(tok := h.tok.(leaving := 0)))
            && RespondStep(Apply(h, a).(call := h.call), true).status.canceled
  {
    states, acts := AckedBeforeCancel();
    states, acts := ExtendTimely(states, acts, DoTriggerStart(true, false));
    states, acts := ExtendTimely(states, acts, DoDestroyOwner(false));
  }

  /**
   What SelfFree excludes: while the RPC callback of a handle forwarded to
   oneself runs, the guard already admits another forward; when the first one is
   then answered, the handle's one entry is in the completion queue twice.
   */
  lemma SelfForwardedTwice() returns (states: seq<Handle>, acts: seq<Action>)
    ensures Run(states, acts) && AlwaysTimely(states)
    ensures var h, a := states[|acts|], DoForward(false, WholeInput);
            && Guard(h) && Possible(h, a) && !SelfFree(h)
            && Possible(Apply(h, a), DoRespond(false)) && Apply(Apply(h, a), DoRespond(false)).queue == 2
  {
    states, acts := [Created(Self)], [];
    states, acts := ExtendTimely(states, acts, DoForward(false, WholeInput));
    states, acts := ExtendTimely(states, acts, DoTriggerStart(true, false));
  }
}
