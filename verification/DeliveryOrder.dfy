/**
 With one running replica and timely creates, scheduled messages are stored in
 non-decreasing sendAt order over the whole run, across tick boundaries.
 */
module DeliveryOrder {
  import opened Prelude
  import opened MessageLog
  import opened LogTheorems
  import opened Messaging
  import opened MessagingInvariant

  /** The dispatcher of r has an insert under way that would outlive a crash. */
  predicate InsertUnderWay(w: World, r: nat) {
    var stage := StageOf(w, r);
    stage.Waiting? && stage.call in w.log.calls && Running(w.log.calls[stage.call])
  }

  /**
   Only replica r dispatches, it does not die with an insert under way, and every create
   of a scheduled row commits no later than the row's sendAt. Clients, cancels and other
   faults are free.
   */
  predicate Steady(w: World, a: Action, r: nat) {
    match a
    case Dispatch(q, d) => q == r && (d.Crash? ==> !InsertUnderWay(w, r))
    case Plan(p) => p.Create? && p.request in w.drafts ==> w.clock <= w.drafts[p.request].sendAt
    case _ => true
  }

  predicate SteadyRun(w: World, acts: seq<Action>, r: nat)
    decreases |acts|
  {
    acts == [] || (Steady(w, acts[0], r) && SteadyRun(Step(w, acts[0]), acts[1..], r))
  }

  function At(w: World, s: nat): nat {
    if s in w.rows then w.rows[s].sendAt else 0
  }

  /** Nothing still to come, in the batch or PENDING, is due before t. */
  ghost predicate Ahead(w: World, batch: seq<nat>, t: nat) {
    && (forall i :: 0 <= i < |batch| ==> t <= At(w, batch[i]))
    && (forall p :: p in w.rows && w.rows[p].status == PENDING ==> t <= w.rows[p].sendAt)
  }

  ghost predicate BatchFirst(w: World, batch: seq<nat>) {
    && (forall i, j :: 0 <= i < j < |batch| ==> At(w, batch[i]) <= At(w, batch[j]))
    && (forall i, p :: 0 <= i < |batch| && p in w.rows && w.rows[p].status == PENDING && p !in batch ==>
          At(w, batch[i]) <= w.rows[p].sendAt)
  }

  ghost predicate Passed(w: World, rep: Replica, t: nat) {
    Ahead(w, rep.batch, t) && (rep.stage.Held().Some? ==> t <= At(w, rep.stage.row))
  }

  ghost predicate InOrder(w: World, m: Message, n: Message) {
    m.input.origin.Schedule? && n.input.origin.Schedule? ==>
      At(w, m.input.origin.row) <= At(w, n.input.origin.row)
  }

  /** Scheduled messages are stored in sendAt order. */
  ghost predicate Ordered(w: World) {
    forall i, j | 0 <= i < j < |w.log.messages| ::
      InOrder(w, w.log.messages[i], w.log.messages[j])
  }

  ghost predicate Behind(w: World, rep: Replica, m: Message) {
    m.input.origin.Schedule? ==> Passed(w, rep, At(w, m.input.origin.row))
  }

  ghost predicate RunningHere(w: World, r: nat, k: nat, s: nat) {
    CallFor(w.log, k, s) && Running(w.log.calls[k]) ==> StageOf(w, r) == Waiting(s, k)
  }

  ghost predicate OrderInv(w: World, r: nat) {
    var rep := ReplicaOf(w, r);
    && Ordered(w)
    && BatchFirst(w, rep.batch)
    && (rep.stage.Held().Some? ==> Ahead(w, rep.batch, At(w, rep.stage.row)))
    && (forall m {:trigger Behind(w, rep, m)} :: m in w.log.messages ==> Behind(w, rep, m))
    && (forall k, s {:trigger RunningHere(w, r, k, s)} :: RunningHere(w, r, k, s))
  }

  /** Rows keep their sendAt, and a row turns PENDING only by being created, not before now. */
  ghost predicate RowsAdvance(w: World, v: World) {
    && (forall s :: s in w.rows ==> At(v, s) == At(w, s))
    && (forall s :: s in v.rows && v.rows[s].status == PENDING ==>
          if s in w.rows then w.rows[s].status == PENDING else w.clock <= v.rows[s].sendAt)
  }

  lemma StepRowsAdvance(w: World, a: Action, r: nat)
    requires Inv(w) && Steady(w, a, r)
    ensures RowsAdvance(w, Step(w, a))
  {
    StepExtends(w, a);
    if a.Threads? {
      ThreadMovesLog(w, a.threads);
    }
  }

  lemma AheadKept(w: World, v: World, batch: seq<nat>, t: nat)
    requires Ahead(w, batch, t) && RowsAdvance(w, v) && t <= w.clock
    requires forall i :: 0 <= i < |batch| ==> batch[i] in w.rows
    ensures Ahead(v, batch, t)
  {
  }

  lemma BatchFirstKept(w: World, v: World, batch: seq<nat>)
    requires BatchFirst(w, batch) && RowsAdvance(w, v)
    requires forall i :: 0 <= i < |batch| ==> batch[i] in w.rows && At(w, batch[i]) <= w.clock
    ensures BatchFirst(v, batch)
  {
  }

  lemma PassedKept(w: World, v: World, rep: Replica, t: nat)
    requires Inv(w) && ReplicaOk(w, rep) && Passed(w, rep, t) && RowsAdvance(w, v) && t <= w.clock
    ensures Passed(v, rep, t)
  {
    AheadKept(w, v, rep.batch, t);
  }

  lemma MessageTime(w: World, m: Message)
    requires Inv(w) && m in w.log.messages && m.input.origin.Schedule?
    ensures m.input.origin.row in w.rows && At(w, m.input.origin.row) <= w.clock
  {
    assert Signed(w.log, m);
    assert CallFor(w.log, m.call, m.input.origin.row);
    assert CallOk(w, m.call, m.input.origin.row);
  }

  /** The log may gain one message, and then only of the row the replica is delivering. */
  ghost predicate LogAdvances(w: World, v: World, r: nat) {
    && (v.log.messages == w.log.messages ||
        (|v.log.messages| == |w.log.messages| + 1 && w.log.messages <= v.log.messages &&
         var m := v.log.messages[|w.log.messages|];
         m.input.origin.Schedule? ==> StageOf(w, r).Held() == Some(m.input.origin.row)))
    && (forall k, s {:trigger CallFor(v.log, k, s)} :: CallFor(v.log, k, s) ==>
          CallFor(w.log, k, s) && (Running(v.log.calls[k]) ==> Running(w.log.calls[k])))
  }

  lemma ChatLogAdvances(w: World, a: ChatAction, r: nat)
    requires Inv(w) && OrderInv(w, r)
    ensures LogAdvances(w, ChatStep(w, a), r)
  {
    var v := ChatStep(w, a);
    ChatSameCalls(w, a);
    if a.Store? && v.log.messages != w.log.messages {
      var m := v.log.messages[|w.log.messages|];
      assert m.input == w.log.calls[a.call].input;
      if m.input.origin.Schedule? {
        assert CallFor(w.log, a.call, m.input.origin.row);
        assert RunningHere(w, r, a.call, m.input.origin.row);
      }
    }
  }

  /** Steps of clients keep the order. */
  lemma ClientKeepsOrder(w: World, v: World, r: nat)
    requires Inv(w) && OrderInv(w, r) && RowsAdvance(w, v) && LogAdvances(w, v, r)
    requires v.replicas == w.replicas
    ensures OrderInv(v, r)
  {
    var rep := ReplicaOf(w, r);
    OwnReplicaOk(w, r);
    BatchFirstKept(w, v, rep.batch);
    if rep.stage.Held().Some? {
      AheadKept(w, v, rep.batch, At(w, rep.stage.row));
    }
    forall m | m in v.log.messages ensures Behind(v, rep, m) {
      if m.input.origin.Schedule? {
        if m in w.log.messages {
          assert Behind(w, rep, m);
          MessageTime(w, m);
          PassedKept(w, v, rep, At(w, m.input.origin.row));
        } else {
          assert m == v.log.messages[|w.log.messages|];
        }
      }
    }
    forall i, j | 0 <= i < j < |v.log.messages| ensures InOrder(v, v.log.messages[i], v.log.messages[j]) {
      var m, n := v.log.messages[i], v.log.messages[j];
      assert m == w.log.messages[i];
      if m.input.origin.Schedule? && n.input.origin.Schedule? {
        MessageTime(w, m);
        if j < |w.log.messages| {
          assert InOrder(w, w.log.messages[i], w.log.messages[j]);
          MessageTime(w, n);
        } else {
          assert Behind(w, rep, m);
        }
      }
    }
    forall k, s ensures RunningHere(v, r, k, s) {
      assert RunningHere(w, r, k, s);
    }
  }

  // --------------------------------------------------- steps of the dispatcher

  ghost predicate Front(w: World, rep: Replica) {
    BatchFirst(w, rep.batch) && (rep.stage.Held().Some? ==> Ahead(w, rep.batch, At(w, rep.stage.row)))
  }

  /** Rows change status only, and none becomes PENDING. */
  ghost predicate OnlyStatus(w: World, v: World) {
    && (forall s :: At(v, s) == At(w, s))
    && (forall s :: s in v.rows && v.rows[s].status == PENDING ==>
          s in w.rows && w.rows[s].status == PENDING && w.rows[s].sendAt == v.rows[s].sendAt)
  }

  lemma DispatchOnlyStatus(w: World, r: nat, a: DispatchAction)
    ensures OnlyStatus(w, DispatchStep(w, r, a))
  {
  }

  lemma TickFront(w: World, r: nat, batch: seq<nat>)
    requires StageOf(w, r).Idle? && IsBatch(w, batch)
    ensures BatchFirst(w, batch)
    ensures forall t :: Passed(w, ReplicaOf(w, r), t) ==> Passed(w, Replica(Looping, batch), t)
  {
    forall i, p | 0 <= i < |batch| && p in w.rows && w.rows[p].status == PENDING && p !in batch
      ensures At(w, batch[i]) <= w.rows[p].sendAt
    {
      if Due(w, p) {
        assert batch[i] in batch;
      }
    }
  }

  lemma ClaimFront(w: World, r: nat)
    requires Front(w, ReplicaOf(w, r)) && StageOf(w, r).Looping? && ReplicaOf(w, r).batch != []
    ensures var v := DispatchStep(w, r, Claim);
            Front(v, NextReplica(w, r, Claim)) &&
            forall t :: Passed(w, ReplicaOf(w, r), t) ==> Passed(v, NextReplica(w, r, Claim), t)
  {
    var v := DispatchStep(w, r, Claim);
    DispatchOnlyStatus(w, r, Claim);
    var batch := ReplicaOf(w, r).batch;
    var rest := batch[1..];
    assert forall p :: p in batch ==> p == batch[0] || p in rest;
    forall p | p in v.rows && v.rows[p].status == PENDING
      ensures At(w, batch[0]) <= v.rows[p].sendAt || !Claims(w, r)
    {
      if p in batch && p != batch[0] {
        var j :| 0 <= j < |batch| && batch[j] == p;
      }
    }
    forall i, p | 0 <= i < |rest| && p in v.rows && v.rows[p].status == PENDING && p !in rest
      ensures At(v, rest[i]) <= v.rows[p].sendAt
    {
      assert p != batch[0];
      assert p !in batch;
      assert rest[i] == batch[i + 1];
    }
  }

  lemma NextBatch(w: World, r: nat, a: DispatchAction)
    ensures var rep, next := ReplicaOf(w, r), NextReplica(w, r, a);
            next.batch == rep.batch || next.batch == [] ||
            (a.StartTick? && rep.stage.Idle? && IsBatch(w, a.batch)) ||
            (a.Claim? && rep.stage.Looping? && rep.batch != [])
  {
  }

  lemma FrontKept(w: World, v: World, rep: Replica, next: Replica)
    requires Front(w, rep) && OnlyStatus(w, v)
    requires next.batch == rep.batch || next.batch == []
    requires next.stage.Held() == None || next.stage.Held() == rep.stage.Held()
    ensures Front(v, next)
    ensures forall t :: Passed(w, rep, t) ==> Passed(v, next, t)
  {
    assert BatchFirst(v, next.batch);
    if next.stage.Held().Some? {
      AheadStill(w, v, rep.batch, next.batch, At(w, rep.stage.row));
    }
    forall t | Passed(w, rep, t) ensures Passed(v, next, t) {
      AheadStill(w, v, rep.batch, next.batch, t);
    }
  }

  lemma AheadStill(w: World, v: World, batch: seq<nat>, next: seq<nat>, t: nat)
    requires Ahead(w, batch, t) && OnlyStatus(w, v) && (next == batch || next == [])
    ensures Ahead(v, next, t)
  {
  }

  lemma DispatchFront(w: World, r: nat, a: DispatchAction)
    requires Front(w, ReplicaOf(w, r))
    ensures var v := DispatchStep(w, r, a);
            Front(v, NextReplica(w, r, a)) &&
            forall t :: Passed(w, ReplicaOf(w, r), t) ==> Passed(v, NextReplica(w, r, a), t)
  {
    var rep := ReplicaOf(w, r);
    if a.StartTick? && rep.stage.Idle? && IsBatch(w, a.batch) {
      TickFront(w, r, a.batch);
    } else if a.Claim? && rep.stage.Looping? && rep.batch != [] {
      ClaimFront(w, r);
    } else {
      DispatchOnlyStatus(w, r, a);
      NextReplicaHeld(w, r, a);
      NextBatch(w, r, a);
      FrontKept(w, DispatchStep(w, r, a), rep, NextReplica(w, r, a));
    }
  }

  lemma DispatchKeepsOrder(w: World, r: nat, a: DispatchAction)
    requires Inv(w) && OrderInv(w, r) && Steady(w, Dispatch(r, a), r)
    ensures OrderInv(DispatchStep(w, r, a), r)
  {
    var v := DispatchStep(w, r, a);
    DispatchOnlyStatus(w, r, a);
    DispatchFront(w, r, a);
    NextCalls(w, r, a);
    assert v.log.messages == w.log.messages;
    forall m | m in v.log.messages ensures Behind(v, NextReplica(w, r, a), m) {
      assert Behind(w, ReplicaOf(w, r), m);
    }
    forall i, j | 0 <= i < j < |v.log.messages| ensures InOrder(v, v.log.messages[i], v.log.messages[j]) {
      assert InOrder(w, w.log.messages[i], w.log.messages[j]);
    }
    forall k, s ensures RunningHere(v, r, k, s) {
      DispatchRunning(w, r, a, k, s);
    }
  }

  lemma DispatchRunning(w: World, r: nat, a: DispatchAction, k: nat, s: nat)
    requires Inv(w) && OrderInv(w, r) && Steady(w, Dispatch(r, a), r)
    ensures RunningHere(DispatchStep(w, r, a), r, k, s)
  {
    NextCalls(w, r, a);
    assert RunningHere(w, r, k, s);
    var v := DispatchStep(w, r, a);
    if CallFor(v.log, k, s) && Running(v.log.calls[k]) && CallFor(w.log, k, s) {
      assert Running(w.log.calls[k]);
      assert StageOf(w, r) == Waiting(s, k);
    }
  }

  lemma PlanKeepsOrder(w: World, p: PlanAction, r: nat)
    requires Inv(w) && OrderInv(w, r) && Steady(w, Plan(p), r)
    ensures OrderInv(PlanStep(w, p), r)
  {
    StepRowsAdvance(w, Plan(p), r);
    PlanMovesLog(w, p);
    ClientKeepsOrder(w, PlanStep(w, p), r);
  }

  lemma StepKeepsOrder(w: World, a: Action, r: nat)
    requires Inv(w) && OrderInv(w, r) && Steady(w, a, r)
    ensures OrderInv(Step(w, a), r)
  {
    match a {
      case Dispatch(q, d) => DispatchKeepsOrder(w, r, d);
      case Chat(c) =>
        StepRowsAdvance(w, a, r);
        ChatLogAdvances(w, c, r);
        ClientKeepsOrder(w, Step(w, a), r);
      case Plan(p) => PlanKeepsOrder(w, p, r);
      case Threads(t) =>
        StepRowsAdvance(w, a, r);
        ThreadMovesLog(w, t);
        ClientKeepsOrder(w, Step(w, a), r);
      case Advance(_) =>
        StepRowsAdvance(w, a, r);
        ClientKeepsOrder(w, Step(w, a), r);
    }
  }

  lemma {:induction false} RunKeepsOrder(w: World, acts: seq<Action>, r: nat)
    requires Inv(w) && OrderInv(w, r) && SteadyRun(w, acts, r)
    ensures Inv(Exec(w, acts)) && OrderInv(Exec(w, acts), r)
    decreases |acts|
  {
    if acts != [] {
      StepKeepsInv(w, acts[0]);
      StepKeepsOrder(w, acts[0], r);
      RunKeepsOrder(Step(w, acts[0]), acts[1..], r);
    }
  }

  /** Over a whole steady run, scheduled messages are committed in sendAt order. */
  lemma DeliveriesInSendAtOrder(acts: seq<Action>, r: nat, i: nat, j: nat)
    requires SteadyRun(START, acts, r) && i < j < |Exec(START, acts).log.messages|
    requires var ms := Exec(START, acts).log.messages;
             ms[i].input.origin.Schedule? && ms[j].input.origin.Schedule?
    ensures var w := Exec(START, acts);
            var s, t := w.log.messages[i].input.origin.row, w.log.messages[j].input.origin.row;
            s in w.rows && t in w.rows && w.rows[s].sendAt <= w.rows[t].sendAt
  {
    EmptyLogInv();
    assert OrderInv(START, r);
    RunKeepsOrder(START, acts, r);
    var w := Exec(START, acts);
    assert InOrder(w, w.log.messages[i], w.log.messages[j]);
    MessageTime(w, w.log.messages[i]);
    MessageTime(w, w.log.messages[j]);
  }

  /** So within a channel a smaller sequence never carries a later sendAt. */
  lemma SequencesRespectSendAt(acts: seq<Action>, r: nat, i: nat, j: nat)
    requires SteadyRun(START, acts, r)
    requires i < |Exec(START, acts).log.messages| && j < |Exec(START, acts).log.messages|
    requires var ms := Exec(START, acts).log.messages;
             ms[i].input.origin.Schedule? && ms[j].input.origin.Schedule? &&
             ms[i].input.channel == ms[j].input.channel && ms[i].sequence < ms[j].sequence
    ensures var w := Exec(START, acts);
            At(w, w.log.messages[i].input.origin.row) <= At(w, w.log.messages[j].input.origin.row)
  {
    EmptyLogInv();
    ExecKeepsInv(START, acts);
    CommitOrderIsSequenceOrder(Exec(START, acts).log.messages, i, j);
    DeliveriesInSendAtOrder(acts, r, i, j);
  }

  /**
   The five-second lead makes a create steady whenever it commits within five seconds of
   its check, whatever happens in between.
   */
  lemma LeadMakesCreateSteady(w: World, p: nat, row: Row, between: seq<Action>, id: nat, r: nat)
    requires p !in w.drafts && p in Step(w, Plan(Draft(p, row))).drafts
    requires forall a :: a in between ==> !(a.Plan? && (a.plan.Create? || a.plan.Draft?) && a.plan.request == p)
    requires var v := Exec(Step(w, Plan(Draft(p, row))), between); v.clock <= w.clock + LEAD_MS
    ensures var v := Exec(Step(w, Plan(Draft(p, row))), between);
            p in v.drafts && v.drafts[p].sendAt == row.sendAt && Steady(v, Plan(Create(p, id)), r)
  {
    DraftKept(Step(w, Plan(Draft(p, row))), between, p);
  }

  lemma {:induction false} DraftKept(w: World, acts: seq<Action>, p: nat)
    requires p in w.drafts
    requires forall a :: a in acts ==> !(a.Plan? && (a.plan.Create? || a.plan.Draft?) && a.plan.request == p)
    ensures p in Exec(w, acts).drafts && Exec(w, acts).drafts[p] == w.drafts[p]
    decreases |acts|
  {
    if acts != [] {
      assert acts[0] in acts;
      StepKeepsDraft(w, acts[0], p);
      DraftKept(Step(w, acts[0]), acts[1..], p);
    }
  }

  lemma StepKeepsDraft(w: World, a: Action, p: nat)
    requires p in w.drafts && !(a.Plan? && (a.plan.Create? || a.plan.Draft?) && a.plan.request == p)
    ensures p in Step(w, a).drafts && Step(w, a).drafts[p] == w.drafts[p]
  {
  }
}
