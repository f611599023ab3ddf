/** What single requests of clients do: whose cancels count, and what ends up in rows and messages. */
module Requests {
  import opened Prelude
  import opened Text
  import opened MessageLog
  import opened LogTheorems
  import opened Messaging
  import opened MessagingInvariant

  // ------------------------------------------------------------------ cancels

  /** The row's own author asks to cancel it while it is neither SENT nor CANCELED. */
  predicate Asks(w: World, a: Action, s: nat) {
    a.Plan? && a.plan.CancelRead? && a.plan.id == s && s in w.rows && w.rows[s].author == a.plan.user &&
    w.rows[s].status != SENT && w.rows[s].status != CANCELED
  }

  predicate WasAsked(w: World, acts: seq<Action>, s: nat)
    decreases |acts|
  {
    acts != [] && (Asks(w, acts[0], s) || WasAsked(Step(w, acts[0]), acts[1..], s))
  }

  /** The row is not CANCELED and no cancel of it is under way. */
  ghost predicate Uncanceled(w: World, s: nat) {
    (s in w.rows ==> w.rows[s].status != CANCELED) && forall p :: p in w.cancels ==> w.cancels[p] != s
  }

  lemma PlanLeavesUncanceled(w: World, p: PlanAction, s: nat)
    requires Inv(w) && Uncanceled(w, s) && !Asks(w, Plan(p), s)
    ensures Uncanceled(PlanStep(w, p), s)
  {
    forall q | q in w.drafts
      ensures w.drafts[q].status == PENDING
    {
      assert Fresh(w.drafts[q]);
    }
  }

  lemma DispatchLeavesUncanceled(w: World, r: nat, d: DispatchAction, s: nat)
    requires Uncanceled(w, s)
    ensures Uncanceled(DispatchStep(w, r, d), s)
  {
  }

  lemma StepLeavesUncanceled(w: World, a: Action, s: nat)
    requires Inv(w) && Uncanceled(w, s) && !Asks(w, a, s)
    ensures Uncanceled(Step(w, a), s)
  {
    match a {
      case Plan(p) => PlanLeavesUncanceled(w, p, s);
      case Dispatch(r, d) => DispatchLeavesUncanceled(w, r, d, s);
      case Threads(t) => ThreadMovesLog(w, t);
      case _ =>
    }
  }

  lemma {:induction false} NobodyCancels(w: World, acts: seq<Action>, s: nat)
    requires Inv(w) && Uncanceled(w, s) && !WasAsked(w, acts, s)
    ensures Uncanceled(Exec(w, acts), s)
    decreases |acts|
  {
    if acts != [] {
      StepLeavesUncanceled(w, acts[0], s);
      StepKeepsInv(w, acts[0]);
      NobodyCancels(Step(w, acts[0]), acts[1..], s);
    }
  }

  /** In every run a row is CANCELED only if its own author asked for it before it was SENT. */
  lemma CanceledWasAsked(acts: seq<Action>, s: nat)
    requires s in Exec(START, acts).rows && Exec(START, acts).rows[s].status == CANCELED
    ensures WasAsked(START, acts, s)
  {
    EmptyLogInv();
    if !WasAsked(START, acts, s) {
      NobodyCancels(START, acts, s);
    }
  }

  /** Left alone, a cancel cancels exactly the author's own row that is neither SENT nor CANCELED. */
  lemma CancelAlone(w: World, p: nat, s: nat, user: nat)
    requires p !in w.cancels
    ensures var v := Step(Step(w, Plan(CancelRead(p, s, user))), Plan(CancelWrite(p)));
            v == if Asks(w, Plan(CancelRead(p, s, user)), s)
                 then w.(rows := w.rows[s := w.rows[s].(status := CANCELED)]) else w
  {
    var u := Step(w, Plan(CancelRead(p, s, user)));
    assert u.cancels - {p} == w.cancels;
  }

  // ---------------------------------------------------------------- schedules

  /** What scheduleMessage asks of a request. */
  ghost predicate MayBeScheduled(w: World, row: Row) {
    Trim(row.content) != "" && row.sendAt >= w.clock + 5000 &&
    (row.threadId.Some? ==> exists root :: IsThread(w.threads, row.threadId.value, row.channel, root))
  }

  lemma FoundThread(w: World, id: nat, channel: nat, root: nat)
    requires ThreadInv(w) && IsThread(w.threads, id, channel, root)
    ensures FindThread(w.threads, id) == Some(Thread(id, channel, root))
  {
    var t := FindThread(w.threads, id).value;
    assert IsThread(w.threads, t.id, t.channel, t.root);
    ThreadRootUnique(w.threads, id, channel, root, t.channel, t.root);
  }

  lemma RootForMeans(w: World, threadId: Option<nat>, channel: nat)
    requires ThreadInv(w)
    ensures RootFor(w, threadId, channel).Some? <==>
            threadId.None? || exists root :: IsThread(w.threads, threadId.value, channel, root)
    ensures RootFor(w, threadId, channel).Some? ==>
              Linked(w.threads, channel, threadId, RootFor(w, threadId, channel).value)
  {
    if threadId.Some? {
      if root :| IsThread(w.threads, threadId.value, channel, root) {
        FoundThread(w, threadId.value, channel, root);
      }
      if RootFor(w, threadId, channel).Some? {
        var t := FindThread(w.threads, threadId.value).value;
        assert IsThread(w.threads, t.id, t.channel, t.root);
      }
    }
  }

  /** Left alone, a schedule stores one PENDING row with the trimmed content, the thread's root and the given rest, or nothing. */
  lemma ScheduleAlone(w: World, p: nat, s: nat, row: Row)
    requires ThreadInv(w) && p !in w.drafts && s !in w.rows
    ensures var v := Step(Step(w, Plan(Draft(p, row))), Plan(Create(p, s)));
            if MayBeScheduled(w, row) then
              s in v.rows && v == w.(rows := w.rows[s := v.rows[s]]) &&
              v.rows[s].status == PENDING && v.rows[s].sentMessageId.None? && v.rows[s].content == Trim(row.content) &&
              v.rows[s].channel == row.channel && v.rows[s].author == row.author && v.rows[s].sendAt == row.sendAt &&
              v.rows[s].threadId == row.threadId && Linked(v.threads, row.channel, row.threadId, v.rows[s].parent)
            else v == w
  {
    RootForMeans(w, row.threadId, row.channel);
    var u := Step(w, Plan(Draft(p, row)));
    assert u.drafts - {p} == w.drafts;
  }

  // -------------------------------------------------------------------- sends

  predicate IsRequest(a: ChatAction) {
    a.Send? || a.Reply? || a.BotSend?
  }

  /** What sendMessage, replyInThread and the bots' send ask of a request. */
  ghost predicate MayBeSent(w: World, a: ChatAction)
    requires IsRequest(a)
  {
    match a
    case Send(_, _, channel, content, threadId) =>
      Trim(content) != "" && (threadId.Some? ==> exists root :: IsThread(w.threads, threadId.value, channel, root))
    case Reply(_, _, thread, content) =>
      Trim(content) != "" && exists channel, root :: IsThread(w.threads, thread, channel, root)
    case _ => true
  }

  /** What the request asked to be stored. */
  ghost predicate IsWhatWasAsked(w: World, a: ChatAction, i: Input)
    requires IsRequest(a)
  {
    i.origin == Client && i.author == a.author &&
    match a
    case Send(_, _, channel, content, threadId) =>
      i.channel == channel && i.content == Trim(content) && i.threadId == threadId &&
      Linked(w.threads, channel, threadId, i.parent)
    case Reply(_, _, thread, content) =>
      i.content == Trim(content) && i.threadId == Some(thread) && i.parent.Some? &&
      IsThread(w.threads, thread, i.channel, i.parent.value)
    case BotSend(_, _, channel, content) =>
      i.channel == channel && i.content == content && i.threadId.None? && i.parent.None?
  }

  /** The call a request makes, if it makes one. */
  ghost predicate BeginsAsAsked(w: World, a: ChatAction)
    requires IsRequest(a)
  {
    if MayBeSent(w, a) then
      ChatPart(w, a).Some? && ChatPart(w, a).value.Begin? && ChatPart(w, a).value.call == a.call &&
      IsWhatWasAsked(w, a, ChatPart(w, a).value.input) &&
      ChatPart(w, a).value.service == if a.BotSend? then Bots else Messaging
    else ChatPart(w, a).None?
  }

  lemma SendBegins(w: World, a: ChatAction)
    requires ThreadInv(w) && a.Send?
    ensures BeginsAsAsked(w, a)
  {
    RootForMeans(w, a.threadId, a.channel);
  }

  lemma ReplyBegins(w: World, a: ChatAction)
    requires ThreadInv(w) && a.Reply?
    ensures BeginsAsAsked(w, a)
  {
    if channel, root :| IsThread(w.threads, a.thread, channel, root) {
      FoundThread(w, a.thread, channel, root);
    }
    if FindThread(w.threads, a.thread).Some? {
      var t := FindThread(w.threads, a.thread).value;
      assert IsThread(w.threads, t.id, t.channel, t.root);
    }
  }

  /** A request begins its call exactly when it is admissible, in the right service and with what was asked. */
  lemma RequestBegins(w: World, a: ChatAction)
    requires ThreadInv(w) && IsRequest(a) && a.call !in w.log.calls
    ensures var v := Step(w, Chat(a));
            (a.call in v.log.calls <==> MayBeSent(w, a)) &&
            (a.call in v.log.calls ==>
               IsWhatWasAsked(w, a, v.log.calls[a.call].input) &&
               v.log.calls[a.call].service == if a.BotSend? then Bots else Messaging)
  {
    if a.Send? {
      SendBegins(w, a);
    } else if a.Reply? {
      ReplyBegins(w, a);
    }
    assert BeginsAsAsked(w, a);
  }

  /** Whatever happens meanwhile, the message the request stores is the one that was asked for. */
  lemma StoredAsAsked(w: World, a: ChatAction, acts: seq<Action>, m: Message)
    requires Reachable(w) && IsRequest(a) && a.call !in w.log.calls && MayBeSent(w, a)
    requires m in Exec(Step(w, Chat(a)), acts).log.messages && m.call == a.call
    ensures IsWhatWasAsked(w, a, m.input)
  {
    ReachableInv(w);
    RequestBegins(w, a);
    var u := Step(w, Chat(a));
    ReachableStep(w, Chat(a));
    ReachableExec(u, acts);
    ReachableInv(Exec(u, acts));
    ExecExtends(u, acts);
    assert Signed(Exec(u, acts).log, m);
  }

  /** Left alone, an admissible request stores its message as the next of the channel. */
  lemma RequestAlone(w: World, a: ChatAction, id: nat)
    requires Inv(w) && IsRequest(a) && a.call !in w.log.calls && MayBeSent(w, a) && !HasId(w.log.messages, id)
    ensures var v := Step(Step(Step(w, Chat(a)), Chat(Query(a.call))), Chat(Store(a.call, id)));
            exists input {:trigger IsWhatWasAsked(w, a, input)} :: IsWhatWasAsked(w, a, input) &&
              v.log.messages == w.log.messages +
                [Message(id, a.call, input, |ChannelLog(w.log.messages, input.channel)| + 1, w.clock)]
  {
    RequestBegins(w, a);
    var u := Step(w, Chat(a));
    StepKeepsInv(w, Chat(a));
    var input := u.log.calls[a.call].input;
    assert IsWhatWasAsked(w, a, input);
    RequestJustBegan(w, a);
    AloneStores(u, a.call, id);
  }

  lemma RequestJustBegan(w: World, a: ChatAction)
    requires IsRequest(a) && a.call !in w.log.calls && a.call in Step(w, Chat(a)).log.calls
    ensures Step(w, Chat(a)).log.messages == w.log.messages && Step(w, Chat(a)).clock == w.clock
    ensures Step(w, Chat(a)).log.calls[a.call].pc.Reading?
  {
  }

  lemma AloneStores(u: World, call: nat, id: nat)
    requires Inv(u) && call in u.log.calls && u.log.calls[call].pc.Reading? && !HasId(u.log.messages, id)
    ensures var v := Step(Step(u, Chat(Query(call))), Chat(Store(call, id)));
            var input := u.log.calls[call].input;
            v.log.messages == u.log.messages +
              [Message(id, call, input, |ChannelLog(u.log.messages, input.channel)| + 1, u.clock)]
  {
    DenseExtent(u.log.messages, u.log.calls[call].input.channel);
  }
}
