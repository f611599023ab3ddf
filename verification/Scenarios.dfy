/**
 Runs from the empty database into the situations where the services do not do what a caller
 might expect: each shows that the failing side of an exact condition is met by real states.
 */
module Scenarios {
  import opened Prelude
  import opened Text
  import opened MessageLog
  import opened LogTheorems
  import opened Messaging
  import opened MessagingInvariant
  import opened SchedulerTheorems
  import opened Dispatcher

  const PLANNED := Row(0, 0, "x", None, None, LEAD_MS, PENDING, None)
  const DELIVERY := Input(0, 0, "x", None, None, Schedule(0))

  lemma StartIsReachable()
    ensures Reachable(START)
  {
    assert Exec(START, []) == START;
  }

  /** A row is scheduled, comes due, and its author opens a cancel. */
  lemma CancelOpened() returns (w: World)
    ensures Reachable(w) && w.log == EMPTY && w.threads == [] && w.replicas == map[]
    ensures w.rows == map[0 := PLANNED] && w.cancels == map[0 := 0] && w.clock == LEAD_MS
  {
    StartIsReachable();
    assert Trim("x") == "x";
    var w1 := Step(START, Plan(Draft(0, PLANNED)));
    assert w1 == START.(drafts := map[0 := PLANNED]);
    ReachableStep(START, Plan(Draft(0, PLANNED)));
    var w2 := Step(w1, Plan(Create(0, 0)));
    assert w2.rows == map[0 := PLANNED];
    ReachableStep(w1, Plan(Create(0, 0)));
    var w3 := Step(w2, Advance(LEAD_MS));
    ReachableStep(w2, Advance(LEAD_MS));
    w := Step(w3, Plan(CancelRead(0, 0, 0)));
    ReachableStep(w3, Plan(CancelRead(0, 0, 0)));
  }

  /** A replica has claimed the row before the cancel writes. */
  lemma ClaimedBeforeCancel() returns (w: World)
    ensures Reachable(w) && w.log == EMPTY && w.threads == [] && ReplicaOf(w, 0) == Replica(Claimed(0), [])
    ensures w.rows == map[0 := PLANNED.(status := PROCESSING)] && w.cancels == map[0 := 0] && 0 in w.replicas
  {
    var w1 := CancelOpened();
    assert IsBatch(w1, [0]);
    var w2 := Step(w1, Dispatch(0, StartTick([0])));
    ReachableStep(w1, Dispatch(0, StartTick([0])));
    assert w2.rows == w1.rows && ReplicaOf(w2, 0) == Replica(Looping, [0]);
    w := Step(w2, Dispatch(0, Claim));
    ReachableStep(w2, Dispatch(0, Claim));
  }

  /** A cancel that does not keep the message from being sent: the row is in delivery when it writes. */
  lemma CancelDuringDelivery() returns (w: World)
    ensures Reachable(w) && 0 in w.cancels && w.cancels[0] in w.rows && InDelivery(w, w.cancels[0])
    ensures !NeverStored(Step(w, Plan(CancelWrite(0))), w.cancels[0])
    ensures 0 in Step(w, Plan(CancelWrite(0))).rows && Step(w, Plan(CancelWrite(0))).rows[0].status == CANCELED
  {
    w := ClaimedBeforeCancel();
    assert w.replicas[0].stage == Claimed(0);
    CancelIsFinalIffNotInDelivery(w, 0);
  }

  const CALL := Call(Messaging, DELIVERY, 0, Reading, 0, [], 0)

  /** The delivery has begun its call. */
  lemma DeliveryBegun() returns (w: World)
    ensures Reachable(w) && w.log == Log([], map[0 := CALL]) && StageOf(w, 0) == Waiting(0, 0)
  {
    var w1 := ClaimedBeforeCancel();
    var load := Dispatch(0, Load(0, true));
    w := Step(w1, load);
    ReachableStep(w1, load);
    assert LoadStarts(w1, 0, 0, true);
    assert LoadInput(w1, 0) == DELIVERY;
  }

  /** The claimed row's message is stored, its notifications are still to come. */
  lemma DeliveredButNotNotified() returns (w: World)
    ensures Reachable(w) && StageOf(w, 0) == Notifying(0, 0)
  {
    var w2 := DeliveryBegun();
    var w3 := Step(w2, Chat(Query(0)));
    ReachableStep(w2, Chat(Query(0)));
    assert w3.log == Log([], map[0 := CALL.(pc := Inserting(1))]);
    var w4 := Step(w3, Chat(Store(0, 0)));
    ReachableStep(w3, Chat(Store(0, 0)));
    assert w4.log.calls == map[0 := CALL.(pc := Returned(0))];
    assert StageOf(w4, 0) == Waiting(0, 0);
    w := Step(w4, Dispatch(0, Collect));
    ReachableStep(w4, Dispatch(0, Collect));
  }

  /** And a replica about to write SENT, where that update can throw. */
  lemma NotifiedButNotMarked() returns (w: World)
    ensures Reachable(w) && StageOf(w, 0) == Marking(0, 0)
  {
    var w1 := DeliveredButNotNotified();
    w := Step(w1, Dispatch(0, Notify(true)));
    ReachableStep(w1, Dispatch(0, Notify(true)));
  }

  /** A row that is FAILED although its message is in the channel. */
  lemma FailedWithMessage() returns (w: World)
    ensures Reachable(w) && 0 in w.rows && w.rows[0].status == FAILED && Stored(w, 0)
  {
    var w1 := DeliveredButNotNotified();
    FailedThoughStored(w1, 0, []);
    var late := Dispatch(0, LateFailure(StageOf(w1, 0)));
    w := Step(Step(w1, late), Dispatch(0, MarkFailed));
    ReachableStep(w1, late);
    ReachableStep(Step(w1, late), Dispatch(0, MarkFailed));
  }
}
