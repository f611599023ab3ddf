/** The invariant of the messaging machine, and that every action of every client keeps it. */
module MessagingInvariant {
  import opened Prelude
  import opened MessageLog
  import opened Messaging

  // ----------------------------------------------------------------- threads

  ghost predicate IsThread(ts: seq<Thread>, id: nat, channel: nat, root: nat) {
    Thread(id, channel, root) in ts
  }

  /** A thread reference: both parts or neither, and the thread has that root in that channel. */
  ghost predicate Linked(ts: seq<Thread>, channel: nat, threadId: Option<nat>, parent: Option<nat>) {
    match threadId
    case None => parent.None?
    case Some(id) => parent.Some? && IsThread(ts, id, channel, parent.value)
  }

  /** A message of the channel that is not itself a reply. */
  ghost predicate IsRoot(ms: seq<Message>, m: Message, id: nat, channel: nat) {
    m in ms && m.id == id && m.input.channel == channel && m.input.threadId.None?
  }

  ghost predicate HasRoot(ms: seq<Message>, id: nat, channel: nat) {
    exists m :: IsRoot(ms, m, id, channel)
  }

  ghost predicate UniqueThreads(ts: seq<Thread>) {
    forall i, j :: 0 <= i < j < |ts| ==> ts[i].id != ts[j].id && ts[i].root != ts[j].root
  }

  /** The thread a request was given is the one rooted at its source's canonical root. */
  ghost predicate OpenedFor(w: World, o: Opening, t: nat, m: Message) {
    m in w.log.messages && m.id == o.source && m.input.channel == o.channel &&
    IsThread(w.threads, t, o.channel, CanonicalRoot(m))
  }

  ghost predicate OpeningOk(w: World, o: Opening) {
    match o.pc
    case Sourced(m) => m in w.log.messages && m.id == o.source && m.input.channel == o.channel
    case Rooted(root) => root == o.source && HasRoot(w.log.messages, root, o.channel)
    case Ready(m) => IsRoot(w.log.messages, m, o.source, o.channel)
    case Opened(t) => exists m :: OpenedFor(w, o, t, m)
    case _ => true
  }

  ghost predicate LinkedInput(w: World, k: nat)
    requires k in w.log.calls
  {
    var i := w.log.calls[k].input;
    Linked(w.threads, i.channel, i.threadId, i.parent)
  }

  ghost predicate LinkedRow(w: World, row: Row) {
    Linked(w.threads, row.channel, row.threadId, row.parent)
  }

  ghost predicate ThreadInv(w: World) {
    && UniqueThreads(w.threads)
    && (forall t {:trigger HasRoot(w.log.messages, t.root, t.channel)} :: t in w.threads ==> HasRoot(w.log.messages, t.root, t.channel))
    && (forall k {:trigger LinkedInput(w, k)} :: k in w.log.calls ==> LinkedInput(w, k))
    && (forall s {:trigger LinkedRow(w, w.rows[s])} :: s in w.rows ==> LinkedRow(w, w.rows[s]))
    && (forall p {:trigger LinkedRow(w, w.drafts[p])} :: p in w.drafts ==> LinkedRow(w, w.drafts[p]))
    && (forall p {:trigger OpeningOk(w, w.openings[p])} :: p in w.openings ==> OpeningOk(w, w.openings[p]))
  }

  lemma RootForLinks(w: World, threadId: Option<nat>, channel: nat)
    requires RootFor(w, threadId, channel).Some?
    ensures Linked(w.threads, channel, threadId, RootFor(w, threadId, channel).value)
  {
  }

  /** What was linked or rooted stays so when messages and threads are only added. */
  lemma ThreadsMonotone(w: World, v: World)
    requires ThreadInv(w) && w.log.messages <= v.log.messages && w.threads <= v.threads
    ensures forall c, t, p {:trigger Linked(v.threads, c, t, p)} :: Linked(w.threads, c, t, p) ==> Linked(v.threads, c, t, p)
    ensures forall id, c {:trigger HasRoot(v.log.messages, id, c)} :: HasRoot(w.log.messages, id, c) ==> HasRoot(v.log.messages, id, c)
    ensures forall o {:trigger OpeningOk(v, o)} :: OpeningOk(w, o) ==> OpeningOk(v, o)
  {
    forall id, c | HasRoot(w.log.messages, id, c) ensures HasRoot(v.log.messages, id, c) {
      var m :| IsRoot(w.log.messages, m, id, c);
      assert IsRoot(v.log.messages, m, id, c);
    }
    forall o | OpeningOk(w, o) ensures OpeningOk(v, o) {
      if o.pc.Opened? {
        var m :| OpenedFor(w, o, o.pc.thread, m);
        assert OpenedFor(v, o, o.pc.thread, m);
      }
    }
  }

  /** Steps that leave threads and openings alone need only link what they add. */
  lemma ThreadInvKept(w: World, v: World)
    requires ThreadInv(w) && w.log.messages <= v.log.messages
    requires v.threads == w.threads && v.openings == w.openings
    requires forall k :: k in v.log.calls && k !in w.log.calls ==> LinkedInput(v, k)
    requires forall k :: k in v.log.calls && k in w.log.calls ==> v.log.calls[k].input == w.log.calls[k].input
    requires forall s :: s in v.rows ==> LinkedRow(v, v.rows[s])
    requires forall p :: p in v.drafts ==> LinkedRow(v, v.drafts[p])
    ensures ThreadInv(v)
  {
    ThreadsMonotone(w, v);
    forall k | k in v.log.calls ensures LinkedInput(v, k) {
      if k in w.log.calls {
        assert LinkedInput(w, k);
      }
    }
    forall t | t in v.threads ensures HasRoot(v.log.messages, t.root, t.channel) {
      assert HasRoot(w.log.messages, t.root, t.channel);
    }
    forall p | p in v.openings ensures OpeningOk(v, v.openings[p]) {
      assert OpeningOk(w, w.openings[p]);
    }
  }

  lemma RowsStayLinked(w: World, v: World)
    requires ThreadInv(w) && v.threads == w.threads
    requires forall s :: s in v.rows ==> s in w.rows && SameRow(w.rows[s], v.rows[s])
    ensures forall s :: s in v.rows ==> LinkedRow(v, v.rows[s])
  {
    forall s | s in v.rows ensures LinkedRow(v, v.rows[s]) {
      assert LinkedRow(w, w.rows[s]);
    }
  }

  lemma DraftsStayLinked(w: World, v: World)
    requires ThreadInv(w) && v.threads == w.threads
    requires forall p :: p in v.drafts ==> p in w.drafts && v.drafts[p] == w.drafts[p]
    ensures forall p :: p in v.drafts ==> LinkedRow(v, v.drafts[p])
  {
    forall p | p in v.drafts ensures LinkedRow(v, v.drafts[p]) {
      assert LinkedRow(w, w.drafts[p]);
    }
  }

  lemma ChatLinks(w: World, a: ChatAction)
    requires ChatPart(w, a).Some? && ChatPart(w, a).value.Begin?
    ensures var i := ChatPart(w, a).value.input; Linked(w.threads, i.channel, i.threadId, i.parent)
  {
    if a.Send? {
      RootForLinks(w, a.threadId, a.channel);
    }
  }

  lemma ChatKeepsInputs(w: World, a: ChatAction)
    requires ThreadInv(w)
    ensures var v := ChatStep(w, a);
            (forall k :: k in v.log.calls && k !in w.log.calls ==> LinkedInput(v, k)) &&
            (forall k :: k in v.log.calls && k in w.log.calls ==> v.log.calls[k].input == w.log.calls[k].input)
  {
    if ChatPart(w, a).Some? {
      LogStepInputs(w.log, ChatPart(w, a).value);
      if ChatPart(w, a).value.Begin? {
        ChatLinks(w, a);
      }
    }
  }

  lemma ChatKeepsTables(w: World, a: ChatAction)
    ensures var v := ChatStep(w, a);
            v.threads == w.threads && v.openings == w.openings && v.rows == w.rows && v.drafts == w.drafts
    ensures ChatPart(w, a).None? ==> ChatStep(w, a).log == w.log
    ensures ChatPart(w, a).Some? ==> ChatStep(w, a).log == LogStep(w.log, ChatPart(w, a).value)
  {
  }

  lemma ChatKeepsThreads(w: World, a: ChatAction)
    requires ThreadInv(w)
    ensures ThreadInv(ChatStep(w, a))
  {
    var v := ChatStep(w, a);
    ChatKeepsTables(w, a);
    if ChatPart(w, a).Some? {
      LogStepGrows(w.log, ChatPart(w, a).value);
    }
    RowsStayLinked(w, v);
    DraftsStayLinked(w, v);
    ChatKeepsInputs(w, a);
    ThreadInvKept(w, v);
  }

  lemma PlanKeepsThreads(w: World, a: PlanAction)
    requires ThreadInv(w)
    ensures ThreadInv(PlanStep(w, a))
  {
    var v := PlanStep(w, a);
    forall p | p in v.drafts ensures LinkedRow(v, v.drafts[p]) {
      if p in w.drafts {
        assert LinkedRow(w, w.drafts[p]);
      } else {
        RootForLinks(w, a.row.threadId, a.row.channel);
      }
    }
    forall s | s in v.rows ensures LinkedRow(v, v.rows[s]) {
      if s in w.rows {
        assert LinkedRow(w, w.rows[s]);
      } else {
        assert LinkedRow(w, w.drafts[a.request]);
      }
    }
    ThreadInvKept(w, v);
  }

  lemma DispatchKeepsThreads(w: World, r: nat, a: DispatchAction)
    requires ThreadInv(w)
    ensures ThreadInv(DispatchStep(w, r, a))
  {
    var v := DispatchStep(w, r, a);
    DispatchExtends(w, r, a);
    RowsStayLinked(w, v);
    DraftsStayLinked(w, v);
    forall k | k in v.log.calls && k !in w.log.calls ensures LinkedInput(v, k) {
      var row := w.rows[StageOf(w, r).row];
      RootForLinks(w, row.threadId, row.channel);
      assert LinkedRow(w, row);
    }
    ThreadInvKept(w, v);
  }

  lemma NextOpeningOk(w: World, p: nat, newThread: nat)
    requires LogInv(w.log) && ThreadInv(w) && p in w.openings
    ensures OpeningOk(ThreadStep(w, OpenNext(p, newThread)), ThreadStep(w, OpenNext(p, newThread)).openings[p])
  {
    var v := ThreadStep(w, OpenNext(p, newThread));
    var o := w.openings[p];
    assert OpeningOk(w, o);
    match o.pc {
      case Sourced(m) =>
        assert Signed(w.log, m) && LinkedInput(w, m.call);
        if m.input.threadId.Some? {
          var t := FindThread(w.threads, m.input.threadId.value);
          assert IsThread(w.threads, m.input.threadId.value, o.channel, m.input.parent.value);
          assert OpenedFor(v, v.openings[p], m.input.threadId.value, m);
        } else {
          assert IsRoot(w.log.messages, m, o.source, o.channel);
        }
      case Rooted(root) =>
        var m :| IsRoot(w.log.messages, m, o.source, o.channel);
        var f := FindMessage(w.log.messages, root);
        assert f.Some? && f.value == m;
      case Ready(m) =>
        assert Signed(w.log, m) && LinkedInput(w, m.call);
        match FindByRoot(w.threads, m.id) {
          case Some(t) =>
            assert HasRoot(w.log.messages, t.root, t.channel);
            var x :| IsRoot(w.log.messages, x, t.root, t.channel);
            assert x == m;
            assert OpenedFor(v, v.openings[p], t.id, m);
          case None =>
            if FindThread(w.threads, newThread).None? {
              assert OpenedFor(v, v.openings[p], newThread, m);
            }
        }
      case Opened(t) =>
        var m :| OpenedFor(w, o, t, m);
        assert OpenedFor(v, v.openings[p], t, m);
      case _ =>
    }
  }

  lemma ThreadKeepsThreads(w: World, a: ThreadAction)
    requires LogInv(w.log) && ThreadInv(w)
    ensures ThreadInv(ThreadStep(w, a))
  {
    var v := ThreadStep(w, a);
    ThreadMovesLog(w, a);
    ThreadsMonotone(w, v);
    forall k | k in v.log.calls ensures LinkedInput(v, k) { assert LinkedInput(w, k); }
    forall s | s in v.rows ensures LinkedRow(v, v.rows[s]) { assert LinkedRow(w, w.rows[s]); }
    forall p | p in v.drafts ensures LinkedRow(v, v.drafts[p]) { assert LinkedRow(w, w.drafts[p]); }
    forall p | p in v.openings ensures OpeningOk(v, v.openings[p]) {
      if a.OpenNext? && p == a.request {
        NextOpeningOk(w, p, a.newThread);
      } else if p in w.openings {
        assert OpeningOk(w, w.openings[p]);
      }
    }
    forall t | t in v.threads ensures HasRoot(v.log.messages, t.root, t.channel) {
      if t in w.threads {
        assert HasRoot(w.log.messages, t.root, t.channel);
      } else {
        assert OpeningOk(w, w.openings[a.request]);
      }
    }
  }

  // --------------------------------------------------------------- scheduler

  ghost predicate CallFor(l: Log, k: nat, s: nat) {
    k in l.calls && l.calls[k].input.origin == Schedule(s)
  }

  ghost predicate MessageFor(l: Log, id: nat, s: nat) {
    exists m :: m in l.messages && m.id == id && m.input.origin == Schedule(s)
  }

  /** Row s has left PENDING and its time has come. */
  ghost predicate Taken(w: World, s: nat) {
    s in w.rows && w.rows[s].status != PENDING && w.rows[s].sendAt <= w.clock
  }

  ghost predicate Delivers(i: Input, row: Row) {
    i.channel == row.channel && i.author == row.author && i.content == row.content &&
    i.threadId == row.threadId && i.parent == row.parent
  }

  ghost predicate CallOk(w: World, k: nat, s: nat) {
    CallFor(w.log, k, s) ==> Taken(w, s) && Delivers(w.log.calls[k].input, w.rows[s])
  }

  ghost predicate RowOk(w: World, s: nat)
    requires s in w.rows
  {
    var row := w.rows[s];
    && (row.status == PENDING ==> row.sentMessageId.None?)
    && (row.status == SENT ==> row.sentMessageId.Some?)
    && (row.sentMessageId.Some? ==> MessageFor(w.log, row.sentMessageId.value, s))
  }

  ghost predicate ReplicaOk(w: World, rep: Replica) {
    var stage := rep.stage;
    && (forall i :: 0 <= i < |rep.batch| ==> rep.batch[i] in w.rows && w.rows[rep.batch[i]].sendAt <= w.clock)
    && (stage.Held().Some? ==> Taken(w, stage.row))
    && (stage.Claimed? ==> forall k :: !CallFor(w.log, k, stage.row))
    && (stage.Waiting? ==> CallFor(w.log, stage.call, stage.row))
    && (stage.Notifying? || stage.Marking? ==> MessageFor(w.log, stage.message, stage.row))
  }

  /** A stored message of row s is dated no earlier than the row's sendAt. */
  ghost predicate OnTime(w: World, m: Message) {
    m.input.origin.Schedule? ==>
      m.input.origin.row in w.rows && w.rows[m.input.origin.row].sendAt <= m.createdAt
  }

  ghost predicate Fresh(row: Row) {
    row.status == PENDING && row.sentMessageId.None?
  }

  ghost predicate SchedInv(w: World) {
    && (forall k, s {:trigger CallOk(w, k, s)} :: CallOk(w, k, s))
    && (forall j, k, s {:trigger CallFor(w.log, j, s), CallFor(w.log, k, s)} ::
          CallFor(w.log, j, s) && CallFor(w.log, k, s) ==> j == k)
    && (forall s {:trigger RowOk(w, s)} :: s in w.rows ==> RowOk(w, s))
    && (forall p {:trigger Fresh(w.drafts[p])} :: p in w.drafts ==> Fresh(w.drafts[p]))
    && (forall r {:trigger ReplicaOk(w, w.replicas[r])} :: r in w.replicas ==> ReplicaOk(w, w.replicas[r]))
    && (forall q, r :: q in w.replicas && r in w.replicas && q != r && w.replicas[q].stage.Held().Some? ==>
          w.replicas[q].stage.Held() != w.replicas[r].stage.Held())
    && (forall m {:trigger OnTime(w, m)} :: m in w.log.messages ==> OnTime(w, m))
  }

  /** The one step that starts a delivery is the dispatcher's Load. */
  ghost predicate SameCalls(l: Log, v: Log) {
    forall k, s {:trigger CallFor(v, k, s)} :: CallFor(v, k, s) <==> CallFor(l, k, s)
  }

  lemma MessagesStay(l: Log, v: Log)
    requires l.messages <= v.messages
    ensures forall id, s {:trigger MessageFor(v, id, s)} :: MessageFor(l, id, s) ==> MessageFor(v, id, s)
  {
    forall id, s | MessageFor(l, id, s) ensures MessageFor(v, id, s) {
      var m :| m in l.messages && m.id == id && m.input.origin == Schedule(s);
      assert m in v.messages;
    }
  }

  lemma CallsKeepOk(w: World, v: World)
    requires SchedInv(w) && Extends(w, v) && SameCalls(w.log, v.log)
    ensures forall k, s {:trigger CallOk(v, k, s)} :: CallOk(v, k, s)
  {
    forall k, s ensures CallOk(v, k, s) {
      if CallFor(v.log, k, s) {
        assert CallFor(w.log, k, s);
        assert CallOk(w, k, s);
      }
    }
  }

  lemma ReplicaStaysOk(w: World, v: World, rep: Replica)
    requires ReplicaOk(w, rep) && Extends(w, v)
    requires rep.stage.Claimed? ==> forall k :: !CallFor(v.log, k, rep.stage.row)
    ensures ReplicaOk(v, rep)
  {
    MessagesStay(w.log, v.log);
  }

  /** Steps of clients: replicas untouched, no delivery started. */
  lemma SchedInvKept(w: World, v: World)
    requires SchedInv(w) && Extends(w, v) && SameCalls(w.log, v.log) && v.replicas == w.replicas
    requires forall s :: s in v.rows ==> if s in w.rows then v.rows[s].sentMessageId == w.rows[s].sentMessageId &&
                                            (v.rows[s].status == w.rows[s].status || v.rows[s].status == CANCELED)
                                          else Fresh(v.rows[s])
    requires forall p :: p in v.drafts ==> Fresh(v.drafts[p])
    requires forall m :: m in v.log.messages && m !in w.log.messages ==> OnTime(v, m)
    ensures SchedInv(v)
  {
    CallsKeepOk(w, v);
    MessagesStay(w.log, v.log);
    forall j, k, s | CallFor(v.log, j, s) && CallFor(v.log, k, s) ensures j == k {
      assert CallFor(w.log, j, s) && CallFor(w.log, k, s);
    }
    forall s | s in v.rows ensures RowOk(v, s) {
      if s in w.rows {
        assert RowOk(w, s);
      }
    }
    forall r | r in v.replicas ensures ReplicaOk(v, v.replicas[r]) {
      assert ReplicaOk(w, w.replicas[r]);
      ReplicaStaysOk(w, v, w.replicas[r]);
    }
    forall m | m in v.log.messages ensures OnTime(v, m) {
      if m in w.log.messages {
        assert OnTime(w, m);
      }
    }
  }

  lemma ChatSameCalls(w: World, a: ChatAction)
    ensures SameCalls(w.log, ChatStep(w, a).log)
  {
    ChatInputs(w, a);
    if ChatPart(w, a).Some? {
      LogStepInputs(w.log, ChatPart(w, a).value);
    }
  }

  lemma ChatKeepsSched(w: World, a: ChatAction)
    requires LogInv(w.log) && SchedInv(w)
    ensures SchedInv(ChatStep(w, a))
  {
    var v := ChatStep(w, a);
    ChatExtends(w, a);
    ChatSameCalls(w, a);
    forall m | m in v.log.messages && m !in w.log.messages ensures OnTime(v, m) {
      assert a.Store? && m.call == a.call && m.createdAt == w.clock && m.input == w.log.calls[a.call].input;
      if m.input.origin.Schedule? {
        assert CallFor(w.log, a.call, m.input.origin.row);
        assert CallOk(w, a.call, m.input.origin.row);
      }
    }
    forall p | p in v.drafts ensures Fresh(v.drafts[p]) { assert Fresh(w.drafts[p]); }
    SchedInvKept(w, v);
  }

  lemma PlanKeepsSched(w: World, a: PlanAction)
    requires SchedInv(w)
    ensures SchedInv(PlanStep(w, a))
  {
    var v := PlanStep(w, a);
    PlanExtends(w, a);
    assert SameCalls(w.log, v.log);
    forall p | p in v.drafts ensures Fresh(v.drafts[p]) {
      if p in w.drafts {
        assert Fresh(w.drafts[p]);
      }
    }
    forall s | s in v.rows && s !in w.rows ensures Fresh(v.rows[s]) {
      assert Fresh(w.drafts[a.request]);
    }
    SchedInvKept(w, v);
  }

  lemma ThreadKeepsSched(w: World, a: ThreadAction)
    requires SchedInv(w)
    ensures SchedInv(ThreadStep(w, a))
  {
    var v := ThreadStep(w, a);
    ThreadMovesLog(w, a);
    assert SameCalls(w.log, v.log);
    forall p | p in v.drafts ensures Fresh(v.drafts[p]) { assert Fresh(w.drafts[p]); }
    SchedInvKept(w, v);
  }

  /** No other replica holds a row that is still PENDING or that replica r holds. */
  lemma HeldByOne(w: World, r: nat, q: nat, s: nat)
    requires SchedInv(w) && q != r && q in w.replicas && w.replicas[q].stage.Held() == Some(s)
    ensures s in w.rows && w.rows[s].status != PENDING
    ensures StageOf(w, r).Held() != Some(s)
  {
    assert ReplicaOk(w, w.replicas[q]);
  }

  lemma OwnReplicaOk(w: World, r: nat)
    requires SchedInv(w)
    ensures ReplicaOk(w, ReplicaOf(w, r))
  {
    if r in w.replicas {
      assert ReplicaOk(w, w.replicas[r]);
    }
  }

  lemma NextReplicaHeld(w: World, r: nat, a: DispatchAction)
    ensures var held := NextReplica(w, r, a).stage.Held();
            held == None || held == StageOf(w, r).Held() ||
            (a.Claim? && Claims(w, r) && held == Some(ReplicaOf(w, r).batch[0]))
  {
  }

  lemma ClaimedOk(w: World, r: nat)
    requires SchedInv(w) && Claims(w, r)
    ensures ReplicaOk(DispatchStep(w, r, Claim), NextReplica(w, r, Claim))
  {
    OwnReplicaOk(w, r);
    var s := ReplicaOf(w, r).batch[0];
    forall k ensures !CallFor(w.log, k, s) {
      assert CallOk(w, k, s);
    }
  }

  lemma ReturnedMessage(l: Log, k: nat, s: nat)
    requires LogInv(l) && CallFor(l, k, s) && l.calls[k].pc.Returned?
    ensures MessageFor(l, l.calls[k].pc.id, s)
  {
    assert CallInv(l.messages, k, l.calls[k]);
    var m :| m in l.messages && m.id == l.calls[k].pc.id && m.call == k;
    assert Signed(l, m);
  }

  lemma LoadedOk(w: World, r: nat, call: nat, allowed: bool)
    requires SchedInv(w)
    ensures ReplicaOk(DispatchStep(w, r, Load(call, allowed)), NextReplica(w, r, Load(call, allowed)))
  {
    OwnReplicaOk(w, r);
    DispatchExtends(w, r, Load(call, allowed));
    MessagesStay(w.log, DispatchStep(w, r, Load(call, allowed)).log);
  }

  lemma CollectedOk(w: World, r: nat)
    requires LogInv(w.log) && SchedInv(w)
    ensures ReplicaOk(DispatchStep(w, r, Collect), NextReplica(w, r, Collect))
  {
    OwnReplicaOk(w, r);
    var stage := StageOf(w, r);
    if stage.Waiting? && w.log.calls[stage.call].pc.Returned? {
      ReturnedMessage(w.log, stage.call, stage.row);
    }
  }

  lemma StartedOk(w: World, r: nat, batch: seq<nat>)
    requires SchedInv(w)
    ensures ReplicaOk(DispatchStep(w, r, StartTick(batch)), NextReplica(w, r, StartTick(batch)))
  {
    OwnReplicaOk(w, r);
  }

  lemma MarkedOk(w: World, r: nat, a: DispatchAction)
    requires SchedInv(w) && (a.Mark? || a.MarkBroken? || a.MarkFailed?)
    ensures ReplicaOk(DispatchStep(w, r, a), NextReplica(w, r, a))
  {
    OwnReplicaOk(w, r);
  }

  lemma MovedOk(w: World, r: nat, a: DispatchAction)
    requires SchedInv(w) && (a.Notify? || a.Finish? || a.Crash? || (a.Claim? && !Claims(w, r)))
    ensures ReplicaOk(DispatchStep(w, r, a), NextReplica(w, r, a))
  {
    OwnReplicaOk(w, r);
  }

  lemma NextReplicaOk(w: World, r: nat, a: DispatchAction)
    requires LogInv(w.log) && SchedInv(w)
    ensures ReplicaOk(DispatchStep(w, r, a), NextReplica(w, r, a))
  {
    match a {
      case StartTick(batch) => StartedOk(w, r, batch);
      case Claim => if Claims(w, r) { ClaimedOk(w, r); } else { MovedOk(w, r, a); }
      case Load(call, allowed) => LoadedOk(w, r, call, allowed);
      case Collect => CollectedOk(w, r);
      case Mark => MarkedOk(w, r, a);
      case MarkBroken => MarkedOk(w, r, a);
      case MarkFailed => MarkedOk(w, r, a);
      case _ => MovedOk(w, r, a);
    }
  }

  lemma NextRowsOk(w: World, r: nat, a: DispatchAction)
    requires SchedInv(w)
    ensures forall s :: s in NextRows(w, r, a) ==> RowOk(DispatchStep(w, r, a), s)
  {
    var v := DispatchStep(w, r, a);
    OwnReplicaOk(w, r);
    DispatchExtends(w, r, a);
    MessagesStay(w.log, v.log);
    forall s | s in v.rows ensures RowOk(v, s) {
      assert RowOk(w, s);
    }
  }

  lemma ThreadRootUnique(ts: seq<Thread>, id: nat, c: nat, root: nat, d: nat, other: nat)
    requires UniqueThreads(ts) && IsThread(ts, id, c, root) && IsThread(ts, id, d, other)
    ensures c == d && root == other
  {
    var i :| 0 <= i < |ts| && ts[i] == Thread(id, c, root);
    var j :| 0 <= j < |ts| && ts[j] == Thread(id, d, other);
  }

  /** A stored row's thread is always found again. */
  lemma RowLooksUp(w: World, s: nat)
    requires ThreadInv(w) && s in w.rows
    ensures RootFor(w, w.rows[s].threadId, w.rows[s].channel).Some?
  {
    var row := w.rows[s];
    assert LinkedRow(w, row);
    if row.threadId.Some? {
      var t := FindThread(w.threads, row.threadId.value);
      assert IsThread(w.threads, row.threadId.value, row.channel, row.parent.value);
      ThreadRootUnique(w.threads, row.threadId.value, row.channel, row.parent.value, t.value.channel, t.value.root);
    }
  }

  lemma LoadDelivers(w: World, s: nat)
    requires ThreadInv(w) && s in w.rows && RootFor(w, w.rows[s].threadId, w.rows[s].channel).Some?
    ensures Delivers(LoadInput(w, s), w.rows[s])
  {
    var row := w.rows[s];
    RootForLinks(w, row.threadId, row.channel);
    assert LinkedRow(w, row);
    if row.threadId.Some? {
      ThreadRootUnique(w.threads, row.threadId.value, row.channel, RootFor(w, row.threadId, row.channel).value.value,
                       row.channel, row.parent.value);
    }
  }

  lemma NextCalls(w: World, r: nat, a: DispatchAction)
    requires SchedInv(w)
    ensures var v := DispatchStep(w, r, a);
            if a.Load? && LoadStarts(w, r, a.call, a.allowed) then
              (forall k, s {:trigger CallFor(v.log, k, s)} :: CallFor(v.log, k, s) <==>
                 CallFor(w.log, k, s) || (k == a.call && s == StageOf(w, r).row)) &&
              forall k :: !CallFor(w.log, k, StageOf(w, r).row)
            else SameCalls(w.log, v.log)
  {
    OwnReplicaOk(w, r);
  }

  lemma NextCallsOk(w: World, r: nat, a: DispatchAction)
    requires ThreadInv(w) && SchedInv(w)
    ensures var v := DispatchStep(w, r, a);
            forall k, s {:trigger CallOk(v, k, s)} :: CallOk(v, k, s)
  {
    var v := DispatchStep(w, r, a);
    OwnReplicaOk(w, r);
    DispatchExtends(w, r, a);
    NextCalls(w, r, a);
    if a.Load? && LoadStarts(w, r, a.call, a.allowed) {
      LoadDelivers(w, StageOf(w, r).row);
    }
    forall k, s ensures CallOk(v, k, s) {
      assert CallOk(w, k, s);
      assert CallFor(v.log, k, s) ==> CallFor(w.log, k, s) || (k == a.call && s == StageOf(w, r).row);
    }
  }

  lemma OtherReplicasOk(w: World, r: nat, a: DispatchAction, q: nat)
    requires SchedInv(w) && q != r && q in w.replicas
    ensures ReplicaOk(DispatchStep(w, r, a), w.replicas[q])
    ensures w.replicas[q].stage.Held().Some? ==> w.replicas[q].stage.Held() != NextReplica(w, r, a).stage.Held()
  {
    DispatchExtends(w, r, a);
    NextCalls(w, r, a);
    NextReplicaHeld(w, r, a);
    assert ReplicaOk(w, w.replicas[q]);
    if w.replicas[q].stage.Held().Some? {
      HeldByOne(w, r, q, w.replicas[q].stage.row);
    }
    ReplicaStaysOk(w, DispatchStep(w, r, a), w.replicas[q]);
  }

  lemma DispatchCallsUnique(w: World, r: nat, a: DispatchAction)
    requires SchedInv(w)
    ensures var v := DispatchStep(w, r, a);
            forall j, k, s {:trigger CallFor(v.log, j, s), CallFor(v.log, k, s)} ::
              CallFor(v.log, j, s) && CallFor(v.log, k, s) ==> j == k
  {
    var v := DispatchStep(w, r, a);
    NextCalls(w, r, a);
    forall j, k, s | CallFor(v.log, j, s) && CallFor(v.log, k, s)
      ensures j == k
    {
      assert CallFor(w.log, j, s) && CallFor(w.log, k, s) ==> j == k;
    }
  }

  lemma DispatchKeepsSched(w: World, r: nat, a: DispatchAction)
    requires LogInv(w.log) && ThreadInv(w) && SchedInv(w)
    ensures SchedInv(DispatchStep(w, r, a))
  {
    var v := DispatchStep(w, r, a);
    DispatchExtends(w, r, a);
    NextCallsOk(w, r, a);
    DispatchCallsUnique(w, r, a);
    NextRowsOk(w, r, a);
    NextReplicaOk(w, r, a);
    forall p | p in v.drafts ensures Fresh(v.drafts[p]) { assert Fresh(w.drafts[p]); }
    forall q | q in v.replicas && q != r
      ensures ReplicaOk(v, v.replicas[q])
      ensures v.replicas[q].stage.Held().Some? ==> v.replicas[q].stage.Held() != v.replicas[r].stage.Held()
    {
      OtherReplicasOk(w, r, a, q);
    }
    forall m | m in v.log.messages ensures OnTime(v, m) {
      assert OnTime(w, m);
    }
  }

  // ------------------------------------------------------------ the invariant

  ghost predicate Inv(w: World) {
    LogInv(w.log) && ThreadInv(w) && SchedInv(w)
  }

  lemma StepKeepsInv(w: World, a: Action)
    requires Inv(w)
    ensures Inv(Step(w, a))
  {
    StepMovesLog(w, a);
    if LogPart(w, a).Some? {
      LogStepKeepsInv(w.log, LogPart(w, a).value);
    }
    match a {
      case Chat(c) => ChatKeepsThreads(w, c); ChatKeepsSched(w, c);
      case Threads(t) => ThreadKeepsThreads(w, t); ThreadKeepsSched(w, t);
      case Plan(p) => PlanKeepsThreads(w, p); PlanKeepsSched(w, p);
      case Dispatch(r, d) => DispatchKeepsThreads(w, r, d); DispatchKeepsSched(w, r, d);
      case Advance(_) => AdvanceKeepsInv(w, a);
    }
  }

  lemma AdvanceKeepsInv(w: World, a: Action)
    requires Inv(w) && a.Advance?
    ensures Inv(Step(w, a))
  {
    var v := Step(w, a);
    RowsStayLinked(w, v);
    DraftsStayLinked(w, v);
    ThreadInvKept(w, v);
    forall p | p in v.drafts ensures Fresh(v.drafts[p]) { assert Fresh(w.drafts[p]); }
    SchedInvKept(w, v);
  }

  lemma {:induction false} ExecKeepsInv(w: World, acts: seq<Action>)
    requires Inv(w)
    ensures Inv(Exec(w, acts))
    decreases |acts|
  {
    if acts != [] {
      StepKeepsInv(w, acts[0]);
      ExecKeepsInv(Step(w, acts[0]), acts[1..]);
    }
  }

  /** Some interleaving of clients leads from the empty database to w. */
  ghost predicate Reachable(w: World) {
    exists acts :: w == Exec(START, acts)
  }

  lemma ReachableInv(w: World)
    requires Reachable(w)
    ensures Inv(w)
  {
    var acts :| w == Exec(START, acts);
    EmptyLogInv();
    ExecKeepsInv(START, acts);
  }

  lemma ReachableStep(w: World, a: Action)
    requires Reachable(w)
    ensures Reachable(Step(w, a))
  {
    var acts :| w == Exec(START, acts);
    ExecConcat(START, acts, [a]);
    assert Exec(w, [a]) == Step(w, a);
  }

  lemma ReachableExec(w: World, more: seq<Action>)
    requires Reachable(w)
    ensures Reachable(Exec(w, more))
  {
    var acts :| w == Exec(START, acts);
    ExecConcat(START, acts, more);
  }
}
