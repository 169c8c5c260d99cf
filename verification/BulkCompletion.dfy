/**
 Completion of a bulk transfer made of several NA operations
 (hg_bulk_transfer_cb of src/mercury_bulk.c): every callback runs on some
 thread, one atomic action per step, in any interleaving.
 */
module BulkCompletion {

  /** Return codes in the order of hg_return_t. */
  const SUCCESS: nat := 0
  const CANCELED: nat := 21

  datatype Pc =
    | Waiting   // NA has not called back
    | Marking   // set the ERRORED bit
    | Recording // compare-and-swap of ret_status from success
    | Counting  // increment op_completed_count and compare it with op_count
    | Reading   // the last one: read ret_status
    | Over

  /** One NA operation: what NA reports for it, and where its callback stands. */
  datatype Op = Op(outcome: nat, pc: Pc)

  /**
   `failures` are the codes in the order of their compare-and-swap, `readers` the
   operations that saw the full count, `reports` the calls of hg_bulk_complete.
   */
  datatype State = State(
    ops: seq<Op>, errored: bool, retStatus: nat, completed: nat,
    failures: seq<nat>, readers: seq<nat>, reports: seq<nat>)

  function Goto(s: State, i: nat, pc: Pc): State
    requires i < |s.ops|
  {
    s.(ops := s.ops[i := s.ops[i].(pc := pc)])
  }

  /** Lines 2374-2410: what operation `i` does next. */
  function Step(s: State, i: nat): State
    requires i < |s.ops|
  {
    var code := s.ops[i].outcome;
    match s.ops[i].pc
    case Waiting => Goto(s, i, if code == SUCCESS then Counting else if code == CANCELED then Recording else Marking)
    case Marking => Goto(s.(errored := true), i, Recording)
    case Recording =>
      Goto(s.(retStatus := if s.retStatus == SUCCESS then code else s.retStatus, failures := s.failures + [code]), i, Counting)
    case Counting =>
      if s.completed + 1 == |s.ops| then Goto(s.(completed := s.completed + 1, readers := s.readers + [i]), i, Reading)
      else Goto(s.(completed := s.completed + 1), i, Over)
    case Reading => Goto(s.(reports := s.reports + [s.retStatus]), i, Over)
    case Over => s
  }

  /** Lines 1965-1971 and 2212: the operations have been issued. */
  ghost predicate Init(s: State)
  {
    && |s.ops| > 0
    && (forall i :: 0 <= i < |s.ops| ==> s.ops[i].pc.Waiting?)
    && s == State(s.ops, false, SUCCESS, 0, [], [], [])
  }

  ghost predicate Run(states: seq<State>, steps: seq<nat>)
  {
    && |states| == |steps| + 1
    && Init(states[0])
    && (forall j :: 0 <= j < |steps| ==> steps[j] < |states[j].ops| && states[j + 1] == Step(states[j], steps[j]))
  }

  // ---------------------------------------------------------------- counting

  predicate Counted(pc: Pc)
  {
    pc.Reading? || pc.Over?
  }

  function Bit(b: bool): nat
  {
    if b then 1 else 0
  }

  /** How many of the operations have incremented the count. */
  function HowMany(ops: seq<Op>): nat
  {
    if ops == [] then 0 else HowMany(ops[..|ops| - 1]) + Bit(Counted(ops[|ops| - 1].pc))
  }

  lemma {:induction false} HowManyUpdate(ops: seq<Op>, i: nat, op: Op)
    requires i < |ops|
    ensures HowMany(ops[i := op]) + Bit(Counted(ops[i].pc)) == HowMany(ops) + Bit(Counted(op.pc))
  {
    var n := |ops| - 1;
    if i < n {
      HowManyUpdate(ops[..n], i, op);
      assert ops[i := op][..n] == ops[..n][i := op];
    } else {
      assert ops[i := op][..n] == ops[..n];
    }
  }

  lemma {:induction false} HowManyBound(ops: seq<Op>, i: nat)
    requires i < |ops|
    ensures HowMany(ops) <= |ops|
    ensures HowMany(ops) == |ops| ==> Counted(ops[i].pc)
  {
    if |ops| > 1 {
      HowManyBound(ops[..|ops| - 1], if i < |ops| - 1 then i else 0);
    }
  }

  lemma {:induction false} AllCounted(ops: seq<Op>)
    requires forall i :: 0 <= i < |ops| ==> Counted(ops[i].pc)
    ensures HowMany(ops) == |ops|
  {
    if ops != [] {
      AllCounted(ops[..|ops| - 1]);
    }
  }

  lemma {:induction false} NoneCounted(ops: seq<Op>)
    requires forall i :: 0 <= i < |ops| ==> !Counted(ops[i].pc)
    ensures HowMany(ops) == 0
  {
    if ops != [] {
      NoneCounted(ops[..|ops| - 1]);
    }
  }

  // ---------------------------------------------------------------- invariant

  /** What one operation has already made true. */
  ghost predicate OpOk(s: State, op: Op)
  {
    && (op.pc.Marking? || op.pc.Recording? ==> op.outcome != SUCCESS)
    && (op.pc.Counting? || Counted(op.pc) ==> op.outcome == SUCCESS || op.outcome in s.failures)
    && (op.pc.Recording? || op.pc.Counting? || Counted(op.pc) ==> op.outcome == SUCCESS || op.outcome == CANCELED || s.errored)
    && (op.pc.Marking? ==> op.outcome != CANCELED)
  }

  ghost predicate Recorded(s: State)
  {
    && s.retStatus == (if s.failures == [] then SUCCESS else s.failures[0])
    && (forall f :: f in s.failures ==> f != SUCCESS)
    && (forall i :: 0 <= i < |s.ops| ==> OpOk(s, s.ops[i]))
  }

  /** At most one operation sees the full count, and it reports once, after everyone has counted. */
  ghost predicate Reader(s: State)
  {
    && s.completed == HowMany(s.ops)
    && |s.readers| == (if s.completed == |s.ops| then 1 else 0)
    && (forall i :: 0 <= i < |s.ops| && s.ops[i].pc.Reading? ==> s.readers == [i])
    && (s.readers == [] ==> s.reports == [])
    && (s.readers != [] ==>
          && s.readers[0] < |s.ops| && Counted(s.ops[s.readers[0]].pc)
          && s.reports == (if s.ops[s.readers[0]].pc.Reading? then [] else [s.retStatus]))
  }

  ghost predicate Inv(s: State)
  {
    |s.ops| > 0 && Recorded(s) && Reader(s)
  }

  /** An operation that has still to count leaves the count short. */
  lemma StillToCount(s: State, i: nat)
    requires Reader(s) && i < |s.ops| && !Counted(s.ops[i].pc)
    ensures s.completed < |s.ops| && s.readers == [] && s.reports == []
  {
    HowManyBound(s.ops, i);
  }

  lemma StepKeepsRecorded(s: State, i: nat)
    requires Recorded(s) && i < |s.ops|
    ensures Recorded(Step(s, i))
  {
    var s' := Step(s, i);
    assert OpOk(s, s.ops[i]);
    assert s.failures != [] ==> s.failures[0] in s.failures && s'.failures[0] == s.failures[0];
    forall a | 0 <= a < |s'.ops|
      ensures OpOk(s', s'.ops[a])
    {
      assert OpOk(s, s.ops[a]);
    }
  }

  lemma EarlyStepKeepsReader(s: State, i: nat)
    requires Reader(s) && i < |s.ops| && !Counted(s.ops[i].pc) && !s.ops[i].pc.Counting?
    ensures Reader(Step(s, i))
  {
    StillToCount(s, i);
    HowManyUpdate(s.ops, i, Step(s, i).ops[i]);
  }

  lemma CountKeepsReader(s: State, i: nat)
    requires Reader(s) && i < |s.ops| && s.ops[i].pc.Counting?
    ensures Reader(Step(s, i))
  {
    StillToCount(s, i);
    HowManyUpdate(s.ops, i, Step(s, i).ops[i]);
  }

  lemma ReadKeepsReader(s: State, i: nat)
    requires Reader(s) && i < |s.ops| && s.ops[i].pc.Reading?
    ensures Reader(Step(s, i))
  {
    HowManyUpdate(s.ops, i, Step(s, i).ops[i]);
  }

  lemma StepKeepsReader(s: State, i: nat)
    requires Reader(s) && i < |s.ops|
    ensures Reader(Step(s, i))
  {
    if s.ops[i].pc.Counting? {
      CountKeepsReader(s, i);
    } else if s.ops[i].pc.Reading? {
      ReadKeepsReader(s, i);
    } else if !s.ops[i].pc.Over? {
      EarlyStepKeepsReader(s, i);
    }
  }

  lemma {:induction false} RunsKeepInv(states: seq<State>, steps: seq<nat>, j: nat)
    requires Run(states, steps) && j < |states|
    ensures Inv(states[j])
  {
    if j == 0 {
      NoneCounted(states[0].ops);
    } else {
      RunsKeepInv(states, steps, j - 1);
      StepKeepsRecorded(states[j - 1], steps[j - 1]);
      StepKeepsReader(states[j - 1], steps[j - 1]);
    }
  }

  /** A report is made after every operation has counted itself, which it did after recording its failure. */
  lemma ReportIsFinal(s: State, i: nat)
    requires Inv(s) && s.reports != [] && i < |s.ops|
    ensures Counted(s.ops[i].pc) && (s.ops[i].outcome != SUCCESS ==> s.ops[i].outcome in s.failures)
  {
    HowManyBound(s.ops, i);
    assert OpOk(s, s.ops[i]);
  }

  /**
   In every interleaving: hg_bulk_complete runs at most once, only after every
   operation has counted itself, and when all are over it has run.  It reports
   success exactly when all operations succeeded, and otherwise the failure
   that was recorded first.
   */
  lemma CompletesOnceAfterTheLast(states: seq<State>, steps: seq<nat>, j: nat)
    requires Run(states, steps) && j < |states|
    ensures var s := states[j];
            && |s.reports| <= 1
            && (s.reports != [] ==> forall i :: 0 <= i < |s.ops| ==> Counted(s.ops[i].pc))
            && ((forall i :: 0 <= i < |s.ops| ==> s.ops[i].pc.Over?) ==> |s.reports| == 1)
            && (s.reports == [SUCCESS] || s.reports == [] || (s.failures != [] && s.reports == [s.failures[0]]))
            && (s.reports != [] ==> (s.reports == [SUCCESS] <==> forall i :: 0 <= i < |s.ops| ==> s.ops[i].outcome == SUCCESS))
  {
    RunsKeepInv(states, steps, j);
    FailuresAreOutcomes(states, steps, j);
    var s := states[j];
    assert s.failures != [] ==> s.failures[0] in s.failures;
    if s.reports != [] {
      forall i | 0 <= i < |s.ops|
        ensures Counted(s.ops[i].pc) && (s.ops[i].outcome != SUCCESS ==> s.ops[i].outcome in s.failures)
      {
        ReportIsFinal(s, i);
      }
    }
    if forall i :: 0 <= i < |s.ops| ==> s.ops[i].pc.Over? {
      AllCounted(s.ops);
    }
  }

  lemma {:induction false} FailuresAreOutcomes(states: seq<State>, steps: seq<nat>, j: nat)
    requires Run(states, steps) && j < |states|
    ensures forall f :: f in states[j].failures ==> exists i :: 0 <= i < |states[j].ops| && states[j].ops[i].outcome == f
  {
    if j > 0 {
      FailuresAreOutcomes(states, steps, j - 1);
      var s, s' := states[j - 1], states[j];
      assert s' == Step(s, steps[j - 1]);
      forall f | f in s'.failures
        ensures exists i :: 0 <= i < |s'.ops| && s'.ops[i].outcome == f
      {
        var i :| 0 <= i < |s.ops| && s.ops[i].outcome == f;
        assert s'.ops[i].outcome == f;
      }
    }
  }

  // ------------------------------------------------------- the ERRORED bit, and progress

  /** NA reports an error for the operation, not a cancellation. */
  predicate Failed(op: Op)
  {
    op.outcome != SUCCESS && op.outcome != CANCELED
  }

  lemma StepKeepsCause(s: State, i: nat)
    requires Recorded(s) && i < |s.ops| && (s.errored ==> exists a :: 0 <= a < |s.ops| && Failed(s.ops[a]))
    ensures Step(s, i).errored ==> exists a :: 0 <= a < |Step(s, i).ops| && Failed(Step(s, i).ops[a])
  {
    assert OpOk(s, s.ops[i]);
    if s.errored {
      var a :| 0 <= a < |s.ops| && Failed(s.ops[a]);
      assert Failed(Step(s, i).ops[a]);
    } else if Step(s, i).errored {
      assert Failed(Step(s, i).ops[i]);
    }
  }

  lemma {:induction false} ErroredHasCause(states: seq<State>, steps: seq<nat>, j: nat)
    requires Run(states, steps) && j < |states|
    ensures states[j].errored ==> exists a :: 0 <= a < |states[j].ops| && Failed(states[j].ops[a])
  {
    if j > 0 {
      ErroredHasCause(states, steps, j - 1);
      RunsKeepInv(states, steps, j - 1);
      StepKeepsCause(states[j - 1], steps[j - 1]);
    }
  }

  /** When the transfer is reported, ERRORED is set exactly if an operation failed; a cancellation does not set it. */
  lemma ErroredIff(states: seq<State>, steps: seq<nat>, j: nat)
    requires Run(states, steps) && j < |states| && states[j].reports != []
    ensures states[j].errored <==> exists a :: 0 <= a < |states[j].ops| && Failed(states[j].ops[a])
  {
    RunsKeepInv(states, steps, j);
    ErroredHasCause(states, steps, j);
    if a :| 0 <= a < |states[j].ops| && Failed(states[j].ops[a]) {
      ReportIsFinal(states[j], a);
      assert OpOk(states[j], states[j].ops[a]);
    }
  }

  /** Steps that an operation's callback has at most ahead of it. */
  function Ahead(pc: Pc): nat
  {
    match pc
    case Waiting => 5
    case Marking => 4
    case Recording => 3
    case Counting => 2
    case Reading => 1
    case Over => 0
  }

  /** A callback never waits for another: every step of it brings it nearer to its end and leaves the others alone. */
  lemma StepsEnd(s: State, i: nat)
    requires i < |s.ops| && !s.ops[i].pc.Over?
    ensures |Step(s, i).ops| == |s.ops| && Ahead(Step(s, i).ops[i].pc) < Ahead(s.ops[i].pc)
    ensures Step(s, i).ops[i].outcome == s.ops[i].outcome
    ensures forall a :: 0 <= a < |s.ops| && a != i ==> Step(s, i).ops[a] == s.ops[a]
  {
  }
}
