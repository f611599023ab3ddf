/** What a FAILED row says about its message: a failed delivery may have stored it, and nothing follows. */
module FailedRows {
  import opened Prelude
  import opened MessageLog
  import opened Messaging
  import opened MessagingInvariant
  import opened SchedulerTheorems

  // -------------------------------------------------- at the step that fails

  lemma HoldsNoMessage(w: World, r: nat)
    requires Inv(w) && (StageOf(w, r).Claimed? || StageOf(w, r).Waiting?)
    requires StageOf(w, r).Waiting? ==>
               StageOf(w, r).call in w.log.calls && !w.log.calls[StageOf(w, r).call].pc.Returned?
    ensures !Stored(w, StageOf(w, r).row)
  {
    OwnReplicaOk(w, r);
    var stage := StageOf(w, r);
    forall k | CallFor(w.log, k, stage.row)
      ensures !w.log.calls[k].pc.Returned?
    {
      assert stage.Waiting? && CallFor(w.log, stage.call, stage.row);
    }
    if Stored(w, stage.row) {
      StoredHasCall(w, stage.row);
    }
  }

  /**
   A delivery fails with its message stored exactly when it fails behind the insert: when the
   notifications throw, or the update to SENT does. Before that nothing of it is stored.
   */
  lemma FailureLeavesMessage(w: World, r: nat, a: DispatchAction)
    requires Reachable(w) && StageOf(w, r).Held().Some? && !StageOf(w, r).Failing?
    requires StageOf(Step(w, Dispatch(r, a)), r) == Failing(StageOf(w, r).row)
    ensures Stored(Step(w, Dispatch(r, a)), StageOf(w, r).row) <==> StageOf(w, r).Notifying? || StageOf(w, r).Marking?
  {
    ReachableInv(w);
    OwnReplicaOk(w, r);
    var stage := StageOf(w, r);
    assert NextLog(w, r, a) == w.log;
    if stage.Notifying? || stage.Marking? {
      var m :| m in w.log.messages && m.id == stage.message && m.input.origin == Schedule(stage.row);
    } else {
      HoldsNoMessage(w, r);
    }
  }

  // ------------------------------------------------------- in every state

  /** No call delivers the row any more. */
  ghost predicate Ended(w: World, s: nat) {
    forall k {:trigger CallFor(w.log, k, s)} :: CallFor(w.log, k, s) ==> !Running(w.log.calls[k])
  }

  predicate Past(stage: Stage) {
    stage.Notifying? || stage.Marking? || stage.Failing?
  }

  ghost predicate Unheld(w: World, s: nat) {
    forall r :: r in w.replicas ==> w.replicas[r].stage.Held() != Some(s)
  }

  ghost predicate PastOk(w: World, r: nat) {
    r in w.replicas && Past(w.replicas[r].stage) ==> Ended(w, w.replicas[r].stage.row)
  }

  ghost predicate FailedOk(w: World, s: nat) {
    s in w.rows && w.rows[s].status == FAILED ==> Ended(w, s) && Unheld(w, s)
  }

  ghost predicate EndInv(w: World) {
    (forall r: nat {:trigger PastOk(w, r)} :: PastOk(w, r)) && (forall s: nat {:trigger FailedOk(w, s)} :: FailedOk(w, s))
  }

  lemma FinishedStays(l: Log, a: LogAction, k: nat)
    requires k in l.calls && !Running(l.calls[k])
    ensures k in LogStep(l, a).calls && !Running(LogStep(l, a).calls[k])
  {
  }

  lemma EndedStays(w: World, a: Action, s: nat)
    requires Inv(w) && Ended(w, s) && s in w.rows && w.rows[s].status != PENDING
    requires forall r :: r in w.replicas ==> w.replicas[r].stage != Claimed(s)
    ensures Ended(Step(w, a), s)
  {
    var v := Step(w, a);
    StepMovesLog(w, a);
    StepCalls(w, a, s);
    forall k | CallFor(v.log, k, s)
      ensures !Running(v.log.calls[k])
    {
      assert CallFor(w.log, k, s);
      if LogPart(w, a).Some? {
        FinishedStays(w.log, LogPart(w, a).value, k);
      }
    }
  }

  lemma UnheldStays(w: World, a: Action, s: nat)
    requires Unheld(w, s) && s in w.rows && w.rows[s].status != PENDING
    ensures Unheld(Step(w, a), s)
  {
    match a {
      case Dispatch(r, d) => NextReplicaHeld(w, r, d);
      case Chat(_) =>
      case _ => OtherStepCalls(w, a);
    }
  }

  /** The holder of a row, past its insert, is the only one that could have claimed it. */
  lemma PastHolder(w: World, r: nat)
    requires Inv(w) && r in w.replicas && Past(w.replicas[r].stage)
    ensures var s := w.replicas[r].stage.row;
            s in w.rows && w.rows[s].status != PENDING &&
            forall q :: q in w.replicas ==> w.replicas[q].stage != Claimed(s)
  {
    var s := w.replicas[r].stage.row;
    assert ReplicaOk(w, w.replicas[r]);
    forall q | q in w.replicas
      ensures w.replicas[q].stage != Claimed(s)
    {
      if q != r && w.replicas[q].stage == Claimed(s) {
        HeldByOne(w, r, q, s);
      }
    }
  }

  /** The replica that gets past its insert has seen its one call end. */
  lemma GetsPast(w: World, r: nat, d: DispatchAction)
    requires Inv(w) && !Past(StageOf(w, r)) && Past(StageOf(Step(w, Dispatch(r, d)), r))
    ensures Ended(Step(w, Dispatch(r, d)), StageOf(Step(w, Dispatch(r, d)), r).row)
  {
    OwnReplicaOk(w, r);
    var stage := StageOf(w, r);
    assert NextLog(w, r, d) == w.log;
    forall k | CallFor(w.log, k, stage.row)
      ensures !Running(w.log.calls[k])
    {
      assert stage.Waiting? && CallFor(w.log, stage.call, stage.row);
    }
  }

  lemma OthersMoveNothing(w: World, a: Action, r: nat)
    requires !(a.Dispatch? && a.replica == r)
    ensures r in Step(w, a).replicas <==> r in w.replicas
    ensures ReplicaOf(Step(w, a), r) == ReplicaOf(w, r)
  {
  }

  lemma StillPast(w: World, a: Action, r: nat)
    requires r in w.replicas && Past(w.replicas[r].stage) && Past(StageOf(Step(w, a), r))
    ensures StageOf(Step(w, a), r).row == w.replicas[r].stage.row
  {
    if a.Dispatch? && a.replica == r {
      NextReplicaHeld(w, r, a.dispatch);
    } else {
      OthersMoveNothing(w, a, r);
    }
  }

  lemma StepKeepsPast(w: World, a: Action, r: nat)
    requires Inv(w) && PastOk(w, r)
    ensures PastOk(Step(w, a), r)
  {
    if Past(StageOf(Step(w, a), r)) {
      if Past(StageOf(w, r)) {
        PastHolder(w, r);
        EndedStays(w, a, w.replicas[r].stage.row);
        StillPast(w, a, r);
      } else {
        if !(a.Dispatch? && a.replica == r) {
          OthersMoveNothing(w, a, r);
        }
        GetsPast(w, r, a.dispatch);
      }
    }
  }

  lemma StepKeepsFailed(w: World, a: Action, s: nat)
    requires Inv(w) && FailedOk(w, s) && forall r: nat :: PastOk(w, r)
    ensures FailedOk(Step(w, a), s)
  {
    var v := Step(w, a);
    if s in v.rows && v.rows[s].status == FAILED {
      if s in w.rows && w.rows[s].status == FAILED {
        assert forall r :: r in w.replicas && w.replicas[r].stage == Claimed(s) ==> w.replicas[r].stage.Held() == Some(s);
        EndedStays(w, a, s);
        UnheldStays(w, a, s);
      } else {
        TurnsFailed(w, a, s);
      }
    }
  }

  lemma TurnsFailed(w: World, a: Action, s: nat)
    requires Inv(w) && (s in w.rows ==> w.rows[s].status != FAILED) && forall r: nat :: PastOk(w, r)
    requires s in Step(w, a).rows && Step(w, a).rows[s].status == FAILED
    ensures Ended(Step(w, a), s) && Unheld(Step(w, a), s)
  {
    var v := Step(w, a);
    OnlyMarkFailedFails(w, a, s);
    var r := a.replica;
    assert PastOk(w, r);
    PastHolder(w, r);
    EndedStays(w, a, s);
    forall q | q in v.replicas
      ensures v.replicas[q].stage.Held() != Some(s)
    {
      if q != r && w.replicas[q].stage.Held() == Some(s) {
        HeldByOne(w, r, q, s);
      }
    }
  }

  lemma PlanNeverFails(w: World, p: PlanAction, s: nat)
    requires Inv(w) && s in PlanStep(w, p).rows && PlanStep(w, p).rows[s].status == FAILED
    ensures s in w.rows && w.rows[s].status == FAILED
  {
    forall q | q in w.drafts
      ensures w.drafts[q].status == PENDING
    {
      assert Fresh(w.drafts[q]);
    }
  }

  lemma DispatchFails(w: World, r: nat, d: DispatchAction, s: nat)
    requires s in NextRows(w, r, d) && NextRows(w, r, d)[s].status == FAILED
    requires s in w.rows ==> w.rows[s].status != FAILED
    ensures d.MarkFailed? && StageOf(w, r) == Failing(s) && r in w.replicas
  {
  }

  lemma OnlyMarkFailedFails(w: World, a: Action, s: nat)
    requires Inv(w) && (s in w.rows ==> w.rows[s].status != FAILED)
    requires s in Step(w, a).rows && Step(w, a).rows[s].status == FAILED
    ensures a.Dispatch? && a.dispatch.MarkFailed? && StageOf(w, a.replica) == Failing(s) && a.replica in w.replicas
  {
    match a {
      case Plan(p) => PlanNeverFails(w, p, s);
      case Threads(t) => ThreadMovesLog(w, t);
      case Dispatch(r, d) => DispatchFails(w, r, d, s);
      case _ =>
    }
  }

  lemma StepKeepsEnd(w: World, a: Action)
    requires Inv(w) && EndInv(w)
    ensures EndInv(Step(w, a))
  {
    forall r: nat ensures PastOk(Step(w, a), r) {
      assert PastOk(w, r);
      StepKeepsPast(w, a, r);
    }
    forall s: nat ensures FailedOk(Step(w, a), s) {
      assert FailedOk(w, s);
      StepKeepsFailed(w, a, s);
    }
  }

  lemma {:induction false} ExecKeepsEnd(w: World, acts: seq<Action>)
    requires Inv(w) && EndInv(w)
    ensures Inv(Exec(w, acts)) && EndInv(Exec(w, acts))
    decreases |acts|
  {
    if acts != [] {
      StepKeepsInv(w, acts[0]);
      StepKeepsEnd(w, acts[0]);
      ExecKeepsEnd(Step(w, acts[0]), acts[1..]);
    }
  }

  lemma ReachableEnd(w: World)
    requires Reachable(w)
    ensures Inv(w) && EndInv(w)
  {
    var acts: seq<Action> :| w == Exec(START, acts);
    EmptyLogInv();
    ExecKeepsEnd(START, acts);
  }

  /**
   A FAILED row has its message stored iff its delivery's call returned, and that is final: no
   continuation stores a message for it that is not there already.
   */
  lemma FailedIsFinal(w: World, s: nat, acts: seq<Action>)
    requires Reachable(w) && s in w.rows && w.rows[s].status == FAILED
    ensures Stored(w, s) <==> exists k :: CallFor(w.log, k, s) && w.log.calls[k].pc.Returned?
    ensures Stored(Exec(w, acts), s) <==> Stored(w, s)
  {
    ReachableEnd(w);
    assert FailedOk(w, s);
    if Stored(w, s) {
      StoredHasCall(w, s);
      ExecExtends(w, acts);
      var m :| m in w.log.messages && m.input.origin == Schedule(s);
      assert m in Exec(w, acts).log.messages;
    } else {
      forall k | CallFor(w.log, k, s)
        ensures !CanReturn(w.log, k)
      {
        if w.log.calls[k].pc.Returned? {
          ReturnedMessage(w.log, k, s);
        }
      }
      assert forall r :: r in w.replicas && w.replicas[r].stage == Claimed(s) ==> w.replicas[r].stage.Held() == Some(s);
      NotInDeliveryForever(w, acts, s);
    }
  }
}
