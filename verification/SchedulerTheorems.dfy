/** Delivery of scheduled rows under any number of replicas, cancels, crashes and clients. */
module SchedulerTheorems {
  import opened Prelude
  import opened MessageLog
  import opened Messaging
  import opened MessagingInvariant

  // ------------------------------------------------------------- at most once

  /** Action a is the conditional claim of row s, and it succeeds. */
  predicate ClaimsRow(w: World, a: Action, s: nat) {
    a.Dispatch? && a.dispatch.Claim? && Claims(w, a.replica) && ReplicaOf(w, a.replica).batch[0] == s
  }

  /** How often row s is claimed along a run. */
  function ClaimCount(w: World, acts: seq<Action>, s: nat): nat
    decreases |acts|
  {
    if acts == [] then 0
    else (if ClaimsRow(w, acts[0], s) then 1 else 0) + ClaimCount(Step(w, acts[0]), acts[1..], s)
  }

  lemma {:induction false} ClaimsAfterPending(w: World, acts: seq<Action>, s: nat)
    requires s in w.rows && w.rows[s].status != PENDING
    ensures ClaimCount(w, acts, s) == 0
    decreases |acts|
  {
    if acts != [] {
      StepExtends(w, acts[0]);
      ClaimsAfterPending(Step(w, acts[0]), acts[1..], s);
    }
  }

  /** In every run, from any state, each row is claimed at most once. */
  lemma {:induction false} ClaimedAtMostOnce(w: World, acts: seq<Action>, s: nat)
    ensures ClaimCount(w, acts, s) <= 1
    decreases |acts|
  {
    if acts != [] {
      if ClaimsRow(w, acts[0], s) {
        ClaimsAfterPending(Step(w, acts[0]), acts[1..], s);
      } else {
        ClaimedAtMostOnce(Step(w, acts[0]), acts[1..], s);
      }
    }
  }

  /** A row that is PENDING at the end of a run was never claimed in it. */
  lemma {:induction false} PendingWasNeverClaimed(w: World, acts: seq<Action>, s: nat)
    requires s in Exec(w, acts).rows && Exec(w, acts).rows[s].status == PENDING
    ensures ClaimCount(w, acts, s) == 0
    decreases |acts|
  {
    if acts != [] {
      var v := Step(w, acts[0]);
      PendingWasNeverClaimed(v, acts[1..], s);
      ExecExtends(v, acts[1..]);
      assert s in v.rows ==> SameRow(v.rows[s], Exec(w, acts).rows[s]);
    }
  }

  /** At most one stored message belongs to a row. */
  lemma AtMostOneMessage(w: World, m: Message, n: Message)
    requires Reachable(w) && m in w.log.messages && n in w.log.messages
    requires m.input.origin.Schedule? && n.input.origin == m.input.origin
    ensures m == n
  {
    ReachableInv(w);
    assert Signed(w.log, m) && Signed(w.log, n);
    var s := m.input.origin.row;
    assert CallFor(w.log, m.call, s) && CallFor(w.log, n.call, s);
  }

  /** It carries the row's channel, author, content and thread, and never precedes the row's sendAt. */
  lemma DeliveredAsScheduled(w: World, m: Message)
    requires Reachable(w) && m in w.log.messages && m.input.origin.Schedule?
    ensures m.input.origin.row in w.rows
    ensures var row := w.rows[m.input.origin.row];
            m.input == Input(row.channel, row.author, row.content, row.threadId, row.parent, m.input.origin) &&
            row.sendAt <= m.createdAt && row.status != PENDING
  {
    ReachableInv(w);
    assert Signed(w.log, m) && OnTime(w, m);
    assert CallFor(w.log, m.call, m.input.origin.row);
    assert CallOk(w, m.call, m.input.origin.row);
  }

  // --------------------------------------------------- status and bookkeeping

  /** sentMessageId names the one message stored for the row; so no two rows share it. */
  lemma SentMessageIsOwn(w: World, s: nat)
    requires Reachable(w) && s in w.rows && w.rows[s].sentMessageId.Some?
    ensures exists m :: m in w.log.messages && m.id == w.rows[s].sentMessageId.value &&
              m.input.channel == w.rows[s].channel && m.input.author == w.rows[s].author &&
              m.input.origin == Schedule(s)
    ensures forall t :: t in w.rows && t != s ==> w.rows[t].sentMessageId != w.rows[s].sentMessageId
  {
    ReachableInv(w);
    assert RowOk(w, s);
    var m :| m in w.log.messages && m.id == w.rows[s].sentMessageId.value && m.input.origin == Schedule(s);
    DeliveredAsScheduled(w, m);
    forall t | t in w.rows && t != s ensures w.rows[t].sentMessageId != w.rows[s].sentMessageId {
      assert RowOk(w, t);
      if w.rows[t].sentMessageId.Some? {
        var n :| n in w.log.messages && n.id == w.rows[t].sentMessageId.value && n.input.origin == Schedule(t);
        assert n != m;
      }
    }
  }

  /** PENDING: no replica has it, no delivery was started, nothing stored, no sentMessageId. */
  lemma PendingMeansUntouched(w: World, s: nat)
    requires Reachable(w) && s in w.rows && w.rows[s].status == PENDING
    ensures w.rows[s].sentMessageId.None?
    ensures forall m :: m in w.log.messages ==> m.input.origin != Schedule(s)
    ensures forall k :: k in w.log.calls ==> w.log.calls[k].input.origin != Schedule(s)
    ensures forall r :: r in w.replicas ==> w.replicas[r].stage.Held() != Some(s)
  {
    ReachableInv(w);
    assert RowOk(w, s);
    forall k | k in w.log.calls ensures w.log.calls[k].input.origin != Schedule(s) {
      assert CallOk(w, k, s);
    }
    forall m | m in w.log.messages ensures m.input.origin != Schedule(s) {
      assert Signed(w.log, m);
    }
    forall r | r in w.replicas ensures w.replicas[r].stage.Held() != Some(s) {
      assert ReplicaOk(w, w.replicas[r]);
    }
  }

  lemma SentMeansStored(w: World, s: nat)
    requires Reachable(w) && s in w.rows && w.rows[s].status == SENT
    ensures w.rows[s].sentMessageId.Some?
    ensures exists m :: m in w.log.messages && m.id == w.rows[s].sentMessageId.value && m.input.origin == Schedule(s)
  {
    ReachableInv(w);
    assert RowOk(w, s);
  }

  // ------------------------------------------------------------------ cancels

  /** Canceled, and nobody is delivering it. */
  ghost predicate Dropped(w: World, s: nat) {
    && s in w.rows && w.rows[s].status == CANCELED
    && (forall k :: !CallFor(w.log, k, s))
    && (forall r :: r in w.replicas ==> w.replicas[r].stage.Held() != Some(s))
  }

  lemma DispatchKeepsDropped(w: World, r: nat, a: DispatchAction, s: nat)
    requires SchedInv(w) && Dropped(w, s)
    ensures Dropped(DispatchStep(w, r, a), s)
  {
    NextReplicaHeld(w, r, a);
    NextCalls(w, r, a);
  }

  lemma DroppedStays(w: World, a: Action, s: nat)
    requires Inv(w) && Dropped(w, s)
    ensures Dropped(Step(w, a), s)
  {
    match a {
      case Dispatch(r, d) => DispatchKeepsDropped(w, r, d, s);
      case Chat(c) => ChatSameCalls(w, c);
      case Plan(p) => PlanMovesLog(w, p);
      case Threads(t) => ThreadMovesLog(w, t);
      case Advance(_) =>
    }
  }

  lemma {:induction false} DroppedForever(w: World, acts: seq<Action>, s: nat)
    requires Inv(w) && Dropped(w, s)
    ensures Inv(Exec(w, acts)) && Dropped(Exec(w, acts), s)
    decreases |acts|
  {
    if acts != [] {
      DroppedStays(w, acts[0], s);
      StepKeepsInv(w, acts[0]);
      DroppedForever(Step(w, acts[0]), acts[1..], s);
    }
  }

  /**
   A cancel whose write lands on a PENDING row is final: in every continuation the row is
   CANCELED and no message is ever stored for it.
   */
  lemma CancelOfPendingIsFinal(w: World, p: nat, acts: seq<Action>)
    requires Reachable(w) && p in w.cancels && w.cancels[p] in w.rows && w.rows[w.cancels[p]].status == PENDING
    ensures var v := Exec(Step(w, Plan(CancelWrite(p))), acts);
            w.cancels[p] in v.rows && v.rows[w.cancels[p]].status == CANCELED &&
            forall m :: m in v.log.messages ==> m.input.origin != Schedule(w.cancels[p])
  {
    var s := w.cancels[p];
    var w1 := Step(w, Plan(CancelWrite(p)));
    ReachableInv(w);
    PendingMeansUntouched(w, s);
    StepKeepsInv(w, Plan(CancelWrite(p)));
    assert Dropped(w1, s);
    DroppedForever(w1, acts, s);
    var v := Exec(w1, acts);
    forall m | m in v.log.messages ensures m.input.origin != Schedule(s) {
      assert Signed(v.log, m);
      assert !CallFor(v.log, m.call, s);
    }
  }

  // ----------------------------------------- exactly which cancels are final

  ghost predicate Stored(w: World, s: nat) {
    exists m :: m in w.log.messages && m.input.origin == Schedule(s)
  }

  /** The call has returned, or still has an attempt that may succeed. */
  predicate CanReturn(l: Log, k: nat)
    requires k in l.calls
  {
    var c := l.calls[k];
    match c.pc
    case Reading => true
    case Inserting(q) => q == |ChannelLog(l.messages, c.input.channel)| + 1 || c.attempt + 1 < Budget(c.service)
    case Returned(_) => true
    case Failed(_) => false
  }

  /** A replica has claimed the row and not yet started it, or a started delivery can still store it. */
  ghost predicate InDelivery(w: World, s: nat) {
    (exists r :: r in w.replicas && w.replicas[r].stage == Claimed(s)) ||
    (exists k :: CallFor(w.log, k, s) && CanReturn(w.log, k))
  }

  lemma StoredHasCall(w: World, s: nat)
    requires LogInv(w.log) && Stored(w, s)
    ensures exists k :: CallFor(w.log, k, s) && w.log.calls[k].pc.Returned?
  {
    var m :| m in w.log.messages && m.input.origin == Schedule(s);
    assert Signed(w.log, m);
    assert CallFor(w.log, m.call, s);
  }

  lemma CanReturnOnlyShrinks(l: Log, a: LogAction, k: nat)
    requires LogInv(l) && k in l.calls && !CanReturn(l, k)
    ensures k in LogStep(l, a).calls && !CanReturn(LogStep(l, a), k)
  {
    var c := l.calls[k];
    assert CallInv(l.messages, k, c);
    if a.Insert? && a.call in l.calls && l.calls[a.call].pc.Inserting? {
      var row := Message(a.id, a.call, l.calls[a.call].input, l.calls[a.call].pc.sequence, a.now);
      if a.call == k {
        DenseExtent(l.messages, c.input.channel);
      } else if TryCreate(l.messages, row).Ok? {
        ChannelLogAppend(l.messages, row, c.input.channel);
      }
    }
  }

  lemma StepCalls(w: World, a: Action, s: nat)
    requires Inv(w) && s in w.rows && w.rows[s].status != PENDING
    requires forall r :: r in w.replicas ==> w.replicas[r].stage != Claimed(s)
    ensures forall k :: CallFor(Step(w, a).log, k, s) ==> CallFor(w.log, k, s)
    ensures forall r :: r in Step(w, a).replicas ==> Step(w, a).replicas[r].stage != Claimed(s)
  {
    match a {
      case Dispatch(r, d) => NextCalls(w, r, d);
      case Chat(c) => ChatSameCalls(w, c);
      case _ => OtherStepCalls(w, a);
    }
  }

  lemma OtherStepCalls(w: World, a: Action)
    requires a.Plan? || a.Threads? || a.Advance?
    ensures Step(w, a).log == w.log && Step(w, a).replicas == w.replicas
  {
  }

  lemma NotInDeliveryStays(w: World, a: Action, s: nat)
    requires Inv(w) && s in w.rows && w.rows[s].status != PENDING && !InDelivery(w, s)
    ensures !InDelivery(Step(w, a), s)
  {
    var v := Step(w, a);
    StepMovesLog(w, a);
    StepCalls(w, a, s);
    forall k | CallFor(v.log, k, s) ensures !CanReturn(v.log, k) {
      assert CallFor(w.log, k, s);
      if LogPart(w, a).Some? {
        CanReturnOnlyShrinks(w.log, LogPart(w, a).value, k);
      }
    }
  }

  lemma {:induction false} NotInDeliveryForever(w: World, acts: seq<Action>, s: nat)
    requires Inv(w) && s in w.rows && w.rows[s].status != PENDING && !InDelivery(w, s)
    ensures !Stored(Exec(w, acts), s)
    decreases |acts|
  {
    if acts == [] {
      assert Exec(w, acts) == w;
      if Stored(w, s) {
        StoredHasCall(w, s);
      }
    } else {
      StepExtends(w, acts[0]);
      StepKeepsInv(w, acts[0]);
      NotInDeliveryStays(w, acts[0], s);
      NotInDeliveryForever(Step(w, acts[0]), acts[1..], s);
      assert Exec(w, acts) == Exec(Step(w, acts[0]), acts[1..]);
    }
  }

  lemma FreshId(ms: seq<Message>) returns (id: nat)
    ensures !HasId(ms, id)
  {
    var ids := set m | m in ms :: m.id;
    id := FreshNat(ids);
    forall m | m in ms ensures m.id != id {
      assert m.id in ids;
    }
  }

  /** A call about to read can store its message if nobody else moves. */
  lemma ReadingCanStore(w: World, k: nat, s: nat) returns (acts: seq<Action>)
    requires Inv(w) && CallFor(w.log, k, s) && w.log.calls[k].pc.Reading?
    ensures Stored(Exec(w, acts), s)
  {
    var w1 := Step(w, Chat(Query(k)));
    StepKeepsInv(w, Chat(Query(k)));
    DenseExtent(w.log.messages, w.log.calls[k].input.channel);
    acts := InsertingCanStore(w1, k, s);
    ExecConcat(w, [Chat(Query(k))], acts);
    assert Exec(w, [Chat(Query(k))]) == w1;
    acts := [Chat(Query(k))] + acts;
  }

  lemma InsertingCanStore(w: World, k: nat, s: nat) returns (acts: seq<Action>)
    requires Inv(w) && CallFor(w.log, k, s) && w.log.calls[k].pc.Inserting?
    requires w.log.calls[k].pc.sequence == |ChannelLog(w.log.messages, w.log.calls[k].input.channel)| + 1
    ensures Stored(Exec(w, acts), s)
  {
    var id := FreshId(w.log.messages);
    DenseExtent(w.log.messages, w.log.calls[k].input.channel);
    acts := [Chat(Store(k, id))];
    var v := Step(w, Chat(Store(k, id)));
    assert Exec(w, acts) == v;
    var row := Message(id, k, w.log.calls[k].input, w.log.calls[k].pc.sequence, w.clock);
    assert v.log.messages == w.log.messages + [row];
    assert row in v.log.messages;
  }

  lemma CallCanStore(w: World, k: nat, s: nat) returns (acts: seq<Action>)
    requires Inv(w) && CallFor(w.log, k, s) && CanReturn(w.log, k)
    ensures Stored(Exec(w, acts), s)
  {
    var c := w.log.calls[k];
    match c.pc {
      case Reading => acts := ReadingCanStore(w, k, s);
      case Returned(_) =>
        ReturnedMessage(w.log, k, s);
        acts := [];
      case Inserting(q) =>
        if q == |ChannelLog(w.log.messages, c.input.channel)| + 1 {
          acts := InsertingCanStore(w, k, s);
        } else {
          assert CallInv(w.log.messages, k, c);
          var id := FreshId(w.log.messages);
          DenseExtent(w.log.messages, c.input.channel);
          Classification();
          var w1 := Step(w, Chat(Store(k, id)));
          StepKeepsInv(w, Chat(Store(k, id)));
          assert w1.log.calls[k].pc.Reading?;
          var rest := ReadingCanStore(w1, k, s);
          assert Exec(w, [Chat(Store(k, id))]) == w1;
          ExecConcat(w, [Chat(Store(k, id))], rest);
          acts := [Chat(Store(k, id))] + rest;
        }
    }
  }

  lemma InDeliveryCanStore(w: World, s: nat) returns (acts: seq<Action>)
    requires Inv(w) && InDelivery(w, s)
    ensures Stored(Exec(w, acts), s)
  {
    if k :| CallFor(w.log, k, s) && CanReturn(w.log, k) {
      acts := CallCanStore(w, k, s);
    } else {
      var r :| r in w.replicas && w.replicas[r].stage == Claimed(s);
      assert ReplicaOk(w, w.replicas[r]);
      var c := FreshNat(w.log.calls.Keys);
      var load := Dispatch(r, Load(c, true));
      assert LinkedRow(w, w.rows[s]);
      RowLooksUp(w, s);
      StepKeepsInv(w, load);
      var w1 := Step(w, load);
      assert CallFor(w1.log, c, s);
      var rest := CallCanStore(w1, c, s);
      assert Exec(w, [load]) == w1;
      ExecConcat(w, [load], rest);
      acts := [load] + rest;
    }
  }

  ghost predicate NeverStored(w: World, s: nat) {
    forall acts :: !Stored(Exec(w, acts), s)
  }

  /** The write of a cancel keeps a message from ever being stored exactly when the row is not in delivery. */
  lemma CancelIsFinalIffNotInDelivery(w: World, p: nat)
    requires Reachable(w) && p in w.cancels && w.cancels[p] in w.rows
    ensures NeverStored(Step(w, Plan(CancelWrite(p))), w.cancels[p]) <==> !InDelivery(w, w.cancels[p])
  {
    var s := w.cancels[p];
    var w1 := Step(w, Plan(CancelWrite(p)));
    ReachableInv(w);
    StepKeepsInv(w, Plan(CancelWrite(p)));
    assert w1.log == w.log && w1.replicas == w.replicas;
    assert InDelivery(w, s) <==> InDelivery(w1, s);
    if InDelivery(w1, s) {
      var acts := InDeliveryCanStore(w1, s);
      assert !NeverStored(w1, s);
    } else {
      forall acts ensures !Stored(Exec(w1, acts), s) {
        NotInDeliveryForever(w1, acts, s);
      }
    }
  }

  /** A row that is PENDING is never in delivery, so the guard a caller can see is sufficient. */
  lemma PendingNotInDelivery(w: World, s: nat)
    requires Reachable(w) && s in w.rows && w.rows[s].status == PENDING
    ensures !InDelivery(w, s)
  {
    PendingMeansUntouched(w, s);
  }
}
