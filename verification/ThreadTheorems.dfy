/** The shape of the thread forest, and which thread createThread answers. */
module ThreadTheorems {
  import opened Prelude
  import opened MessageLog
  import opened Messaging
  import opened MessagingInvariant

  /**
   Whichever of send, reply or scheduled delivery stored a message: it has a thread exactly
   when it has a parent, the parent is that thread's root, lies in the same channel, and is
   itself no reply.
   */
  lemma ForestHasDepthOne(w: World, m: Message)
    requires Reachable(w) && m in w.log.messages
    ensures m.input.threadId.Some? <==> m.input.parent.Some?
    ensures m.input.threadId.Some? ==>
              Thread(m.input.threadId.value, m.input.channel, m.input.parent.value) in w.threads
    ensures m.input.parent.Some? ==>
              exists root :: root in w.log.messages && root.id == m.input.parent.value &&
                             root.input.channel == m.input.channel &&
                             root.input.threadId.None? && root.input.parent.None?
  {
    ReachableInv(w);
    assert Signed(w.log, m) && LinkedInput(w, m.call);
    if m.input.threadId.Some? {
      assert IsThread(w.threads, m.input.threadId.value, m.input.channel, m.input.parent.value);
      assert HasRoot(w.log.messages, m.input.parent.value, m.input.channel);
      var root :| IsRoot(w.log.messages, root, m.input.parent.value, m.input.channel);
      assert Signed(w.log, root) && LinkedInput(w, root.call);
    }
  }

  lemma SameId(w: World, m: Message, n: Message)
    requires UniqueIds(w.log.messages) && m in w.log.messages && n in w.log.messages && m.id == n.id
    ensures m == n
  {
  }

  /** What a finished createThread request answered: the thread of its source's canonical root. */
  lemma OpenedThread(w: World, p: nat, m: Message)
    requires Reachable(w) && p in w.openings && w.openings[p].pc.Opened?
    requires m in w.log.messages && m.id == w.openings[p].source
    ensures m.input.channel == w.openings[p].channel
    ensures Thread(w.openings[p].pc.thread, m.input.channel, CanonicalRoot(m)) in w.threads
  {
    ReachableInv(w);
    assert OpeningOk(w, w.openings[p]);
    var n :| OpenedFor(w, w.openings[p], w.openings[p].pc.thread, n);
    SameId(w, m, n);
  }

  /**
   Two finished requests, on a root or on any of its replies, in any order and however they
   interleaved, answered the same thread exactly when their canonical roots are the same.
   */
  lemma ThreadsAreCanonical(w: World, p: nat, q: nat, m: Message, n: Message)
    requires Reachable(w) && p in w.openings && q in w.openings
    requires w.openings[p].pc.Opened? && w.openings[q].pc.Opened?
    requires m in w.log.messages && m.id == w.openings[p].source
    requires n in w.log.messages && n.id == w.openings[q].source
    ensures w.openings[p].pc.thread == w.openings[q].pc.thread <==> CanonicalRoot(m) == CanonicalRoot(n)
  {
    ReachableInv(w);
    OpenedThread(w, p, m);
    OpenedThread(w, q, n);
    var ts := w.threads;
    var i :| 0 <= i < |ts| && ts[i] == Thread(w.openings[p].pc.thread, m.input.channel, CanonicalRoot(m));
    var j :| 0 <= j < |ts| && ts[j] == Thread(w.openings[q].pc.thread, n.input.channel, CanonicalRoot(n));
  }

  /** The answer never changes afterwards, and its thread is never removed. */
  lemma AnswersLast(w: World, acts: seq<Action>, t: Thread)
    requires t in w.threads
    ensures t in Exec(w, acts).threads
  {
    ExecExtends(w, acts);
  }

  /**
   A request whose source is stored in its channel is never refused and never stuck: each
   OpenNext with an unused thread id moves it on, and at most four reach an answer.
   */
  lemma FourStepsOpen(w: World, p: nat, id: nat, m: Message)
    requires Reachable(w) && p in w.openings && w.openings[p].pc.Asked?
    requires m in w.log.messages && m.id == w.openings[p].source && m.input.channel == w.openings[p].channel
    requires forall t :: t in w.threads ==> t.id != id
    ensures var next := Threads(OpenNext(p, id));
            Step(Step(Step(Step(w, next), next), next), next).openings[p].pc.Opened?
  {
    ReachableInv(w);
    var next := Threads(OpenNext(p, id));
    AskedFindsSource(w, p, id, m);
    var w1 := Step(w, next);
    StepKeepsInv(w, next);
    assert w1.log == w.log && w1.threads == w.threads && Signed(w.log, m);
    SourcedMovesOn(w1, p, id, m);
  }

  lemma AskedFindsSource(w: World, p: nat, id: nat, m: Message)
    requires Inv(w) && p in w.openings && w.openings[p].pc.Asked?
    requires m in w.log.messages && m.id == w.openings[p].source && m.input.channel == w.openings[p].channel
    ensures var w1 := Step(w, Threads(OpenNext(p, id)));
            w1 == w.(openings := w.openings[p := w.openings[p].(pc := Sourced(m))])
  {
    var f := FindMessage(w.log.messages, m.id);
    SameId(w, m, f.value);
  }

  lemma SourcedMovesOn(w1: World, p: nat, id: nat, m: Message)
    requires UniqueIds(w1.log.messages) && ThreadInv(w1) && m in w1.log.messages && Signed(w1.log, m)
    requires p in w1.openings && w1.openings[p].pc == Sourced(m) && m.id == w1.openings[p].source
    requires m.input.channel == w1.openings[p].channel && forall t :: t in w1.threads ==> t.id != id
    ensures var next := Threads(OpenNext(p, id)); Step(Step(Step(w1, next), next), next).openings[p].pc.Opened?
  {
    var next := Threads(OpenNext(p, id));
    var w2 := Step(w1, next);
    assert LinkedInput(w1, m.call);
    if m.input.threadId.Some? {
      assert IsThread(w1.threads, m.input.threadId.value, m.input.channel, m.input.parent.value);
    } else {
      assert w2.openings[p].pc == Rooted(m.id);
      SameId(w2, m, FindMessage(w2.log.messages, m.id).value);
      var w3 := Step(w2, next);
      assert w3.openings[p].pc == Ready(m);
    }
  }

  // ------------------------------------------ among arbitrary other clients

  ghost predicate SourceStored(w: World, p: nat, m: Message) {
    p in w.openings && m in w.log.messages && m.id == w.openings[p].source && m.input.channel == w.openings[p].channel
  }

  function Rank(pc: OpenPc): nat {
    match pc
    case Asked => 4
    case Sourced(_) => 3
    case Rooted(_) => 2
    case Ready(_) => 1
    case _ => 0
  }

  /** The request moves, with an unused id in case it has to insert. */
  predicate Turn(w: World, a: Action, p: nat) {
    a.Threads? && a.threads.OpenNext? && a.threads.request == p && FindThread(w.threads, a.threads.newThread).None?
  }

  function Turns(w: World, acts: seq<Action>, p: nat): nat
    decreases |acts|
  {
    if acts == [] then 0
    else (if Turn(w, acts[0], p) then 1 else 0) + Turns(Step(w, acts[0]), acts[1..], p)
  }

  lemma RootFound(w: World, o: Opening)
    requires Inv(w) && OpeningOk(w, o) && o.pc.Rooted?
    ensures NextPc(w, o, 0).Ready?
  {
    var m :| IsRoot(w.log.messages, m, o.pc.root, o.channel);
    SameId(w, m, FindMessage(w.log.messages, o.pc.root).value);
  }

  lemma OwnTurn(w: World, p: nat, newThread: nat, m: Message)
    requires Inv(w) && SourceStored(w, p, m) && !w.openings[p].pc.Refused?
    ensures var next := NextPc(w, w.openings[p], newThread);
            !next.Refused? && Rank(next) <= Rank(w.openings[p].pc) &&
            (FindThread(w.threads, newThread).None? && Rank(w.openings[p].pc) > 0 ==> Rank(next) < Rank(w.openings[p].pc))
  {
    var o := w.openings[p];
    assert OpeningOk(w, o);
    match o.pc {
      case Asked => SameId(w, m, FindMessage(w.log.messages, o.source).value);
      case Rooted(_) => RootFound(w, o);
      case _ =>
    }
  }

  predicate Own(a: Action, p: nat) {
    a.Threads? && a.threads.OpenNext? && a.threads.request == p
  }

  lemma OthersLeaveOpening(w: World, a: Action, p: nat)
    requires p in w.openings && !Own(a, p)
    ensures p in Step(w, a).openings && Step(w, a).openings[p] == w.openings[p]
  {
  }

  lemma OwnMove(w: World, a: Action, p: nat)
    requires p in w.openings && Own(a, p)
    ensures p in Step(w, a).openings
    ensures Step(w, a).openings[p] == w.openings[p].(pc := NextPc(w, w.openings[p], a.threads.newThread))
  {
  }

  lemma StepMovesOn(w: World, a: Action, p: nat, m: Message)
    requires Inv(w) && SourceStored(w, p, m) && !w.openings[p].pc.Refused?
    ensures var v := Step(w, a);
            SourceStored(v, p, m) && !v.openings[p].pc.Refused? && Rank(v.openings[p].pc) <= Rank(w.openings[p].pc) &&
            (Turn(w, a, p) && Rank(w.openings[p].pc) > 0 ==> Rank(v.openings[p].pc) < Rank(w.openings[p].pc))
  {
    StepExtends(w, a);
    if Own(a, p) {
      OwnMove(w, a, p);
      OwnTurn(w, p, a.threads.newThread, m);
    } else {
      OthersLeaveOpening(w, a, p);
    }
  }

  /**
   A request whose source is stored in its channel is never refused, whoever moves in between,
   and has its answer once it has had as many turns as it has round trips left, four at most.
   */
  lemma {:induction false} NeverRefused(w: World, acts: seq<Action>, p: nat, m: Message)
    requires Inv(w) && SourceStored(w, p, m) && !w.openings[p].pc.Refused?
    ensures var v := Exec(w, acts);
            p in v.openings && !v.openings[p].pc.Refused? &&
            (Turns(w, acts, p) >= Rank(w.openings[p].pc) ==> v.openings[p].pc.Opened?)
    decreases |acts|
  {
    if acts != [] {
      StepMovesOn(w, acts[0], p, m);
      StepKeepsInv(w, acts[0]);
      NeverRefused(Step(w, acts[0]), acts[1..], p, m);
    }
  }

  /** The first look refuses a request exactly when no message of its channel is its source. */
  lemma RefusedIffNoSource(w: World, p: nat, id: nat)
    requires Inv(w) && p in w.openings && w.openings[p].pc.Asked?
    ensures var v := Step(w, Threads(OpenNext(p, id)));
            p in v.openings && (v.openings[p].pc.Refused? <==> forall m :: !SourceStored(w, p, m))
  {
    var found := FindMessage(w.log.messages, w.openings[p].source);
    if m :| SourceStored(w, p, m) {
      SameId(w, m, found.value);
    }
    if found.Some? && found.value.input.channel == w.openings[p].channel {
      assert SourceStored(w, p, found.value);
    }
  }
}
