/**
 The messaging service as one shared database with many clients: the message log,
 threads, scheduled rows, and the program counters of every request and of every
 replica's dispatcher. Each action is one database round trip or one local step, so a
 list of actions is an interleaving. An action that is not enabled changes nothing.
 */
module Messaging {
  import opened Prelude
  import opened Text
  import opened MessageLog

  const BATCH := 20
  const LEAD_MS := 5000

  datatype Thread = Thread(id: nat, channel: nat, root: nat)

  datatype Status = PENDING | PROCESSING | SENT | CANCELED | FAILED

  datatype Row = Row(
    channel: nat,
    author: nat,
    content: string,
    threadId: Option<nat>,
    parent: Option<nat>,
    sendAt: nat,
    status: Status,
    sentMessageId: Option<nat>)

  /** Where one replica's dispatcher is; Idle is the in-flight flag being clear. */
  datatype Stage =
    | Idle
    | Looping
    | Claimed(row: nat)
    | Waiting(row: nat, call: nat)
    | Notifying(row: nat, message: nat)
    | Marking(row: nat, message: nat)
    | Failing(row: nat)
  {
    function Held(): Option<nat> {
      if Idle? || Looping? then None else Some(row)
    }
  }

  datatype Replica = Replica(stage: Stage, batch: seq<nat>)

  /** Where one createThread request is. */
  datatype OpenPc =
    | Asked
    | Sourced(message: Message)
    | Rooted(root: nat)
    | Ready(message: Message)
    | Opened(thread: nat)
    | Refused

  datatype Opening = Opening(channel: nat, source: nat, pc: OpenPc)

  datatype World = World(
    log: Log,
    threads: seq<Thread>,
    openings: map<nat, Opening>,
    rows: map<nat, Row>,
    drafts: map<nat, Row>,
    replicas: map<nat, Replica>,
    cancels: map<nat, nat>,
    clock: nat)

  const START := World(EMPTY, [], map[], map[], map[], map[], map[], 0)

  /** Requests that append to the log. */
  datatype ChatAction =
    | Send(call: nat, author: nat, channel: nat, content: string, threadId: Option<nat>)
    | Reply(call: nat, author: nat, thread: nat, content: string)
    | BotSend(call: nat, author: nat, channel: nat, content: string)
    | Query(call: nat)
    | Store(call: nat, id: nat)
    | Abort(call: nat)

  /** createThread. */
  datatype ThreadAction =
    | Open(request: nat, channel: nat, source: nat)
    | OpenNext(request: nat, newThread: nat)

  /** scheduleMessage and cancelScheduledMessage: a read and a later write each. */
  datatype PlanAction =
    | Draft(request: nat, row: Row)
    | Create(request: nat, id: nat)
    | CancelRead(request: nat, id: nat, user: nat)
    | CancelWrite(request: nat)

  /** One replica's dispatcher. */
  datatype DispatchAction =
    | StartTick(batch: seq<nat>)
    | Claim
    | Load(call: nat, allowed: bool)
    | Collect
    | Notify(ok: bool)
    | Mark
    | MarkBroken
    | MarkFailed
    | Finish
    | Crash

  datatype Action =
    | Chat(chat: ChatAction)
    | Threads(threads: ThreadAction)
    | Plan(plan: PlanAction)
    | Dispatch(replica: nat, dispatch: DispatchAction)
    | Advance(ms: nat)

  // ----------------------------------------------------------------- lookups

  function FindMessage(ms: seq<Message>, id: nat): (r: Option<Message>)
    ensures r.Some? ==> r.value in ms && r.value.id == id
    ensures r.None? ==> !HasId(ms, id)
  {
    if ms == [] then None
    else if ms[0].id == id then Some(ms[0])
    else FindMessage(ms[1..], id)
  }

  function FindThread(ts: seq<Thread>, id: nat): (r: Option<Thread>)
    ensures r.Some? ==> r.value in ts && r.value.id == id
    ensures r.None? ==> forall t :: t in ts ==> t.id != id
  {
    if ts == [] then None
    else if ts[0].id == id then Some(ts[0])
    else FindThread(ts[1..], id)
  }

  function FindByRoot(ts: seq<Thread>, root: nat): (r: Option<Thread>)
    ensures r.Some? ==> r.value in ts && r.value.root == root
    ensures r.None? ==> forall t :: t in ts ==> t.root != root
  {
    if ts == [] then None
    else if ts[0].root == root then Some(ts[0])
    else FindByRoot(ts[1..], root)
  }

  function ReplicaOf(w: World, r: nat): Replica {
    if r in w.replicas then w.replicas[r] else Replica(Idle, [])
  }

  function StageOf(w: World, r: nat): Stage {
    ReplicaOf(w, r).stage
  }

  /** ensureThreadInChannel, for an optional thread id: the thread's root, or no answer. */
  function RootFor(w: World, threadId: Option<nat>, channel: nat): Option<Option<nat>> {
    match threadId
    case None => Some(None)
    case Some(id) =>
      match FindThread(w.threads, id)
      case None => None
      case Some(t) => if t.channel == channel then Some(Some(t.root)) else None
  }

  predicate Due(w: World, s: nat) {
    s in w.rows && w.rows[s].status == PENDING && w.rows[s].sendAt <= w.clock
  }

  /** A possible answer to "PENDING and due, ordered by sendAt, take 20". */
  predicate IsBatch(w: World, batch: seq<nat>) {
    && |batch| <= BATCH
    && (forall i :: 0 <= i < |batch| ==> Due(w, batch[i]))
    && (forall i, j :: 0 <= i < j < |batch| ==> batch[i] != batch[j] && w.rows[batch[i]].sendAt <= w.rows[batch[j]].sendAt)
    && (forall s :: s in w.rows && Due(w, s) && s !in batch ==>
          |batch| == BATCH && forall b :: b in batch ==> w.rows[b].sendAt <= w.rows[s].sendAt)
  }

  // ------------------------------------------------------------------- steps

  /** The step a chat request takes in the log, if it gets that far. */
  function ChatPart(w: World, a: ChatAction): Option<LogAction> {
    match a
    case Send(call, author, channel, content, threadId) =>
      (match RootFor(w, threadId, channel)
       case None => None
       case Some(root) =>
         if Trim(content) == "" then None
         else Some(Begin(call, Messaging, Input(channel, author, Trim(content), threadId, root, Client))))
    case Reply(call, author, thread, content) =>
      (match FindThread(w.threads, thread)
       case None => None
       case Some(t) =>
         if Trim(content) == "" then None
         else Some(Begin(call, Messaging, Input(t.channel, author, Trim(content), Some(t.id), Some(t.root), Client))))
    case BotSend(call, author, channel, content) =>
      Some(Begin(call, Bots, Input(channel, author, content, None, None, Client)))
    case Query(call) => Some(Read(call))
    case Store(call, id) => Some(Insert(call, id, w.clock))
    case Abort(call) => Some(Break(call))
  }

  function ChatStep(w: World, a: ChatAction): World {
    match ChatPart(w, a)
    case None => w
    case Some(x) => w.(log := LogStep(w.log, x))
  }

  function CanonicalRoot(m: Message): nat {
    match m.input.parent
    case None => m.id
    case Some(p) => p
  }

  /** The next program counter of a createThread request; `newThread` is the id an insert would use. */
  function NextPc(w: World, o: Opening, newThread: nat): OpenPc {
    match o.pc
    case Asked =>
      (match FindMessage(w.log.messages, o.source)
       case None => Refused
       case Some(m) => if m.input.channel != o.channel then Refused else Sourced(m))
    case Sourced(m) =>
      if m.input.threadId.Some? && FindThread(w.threads, m.input.threadId.value).Some?
      then Opened(m.input.threadId.value) else Rooted(CanonicalRoot(m))
    case Rooted(root) =>
      (match FindMessage(w.log.messages, root)
       case None => Refused
       case Some(m) => if m.input.channel != o.channel then Refused else Ready(m))
    case Ready(m) =>
      (match FindByRoot(w.threads, m.id)
       case Some(t) => Opened(t.id)
       case None => if FindThread(w.threads, newThread).Some? then Ready(m) else Opened(newThread))
    case _ => o.pc
  }

  /** thread.upsert on the unique root message: the thread a request inserts, if any. */
  function NewThreads(w: World, o: Opening, newThread: nat): seq<Thread> {
    if o.pc.Ready? && FindByRoot(w.threads, o.pc.message.id).None? && FindThread(w.threads, newThread).None?
    then [Thread(newThread, o.channel, o.pc.message.id)] else []
  }

  function ThreadStep(w: World, a: ThreadAction): World {
    match a
    case Open(p, channel, source) =>
      if p in w.openings then w else w.(openings := w.openings[p := Opening(channel, source, Asked)])
    case OpenNext(p, newThread) =>
      if p in w.openings then
        var o := w.openings[p];
        w.(threads := w.threads + NewThreads(w, o, newThread), openings := w.openings[p := o.(pc := NextPc(w, o, newThread))])
      else w
  }

  /** scheduleMessage up to its create: trimmed content, five seconds of lead, thread looked up. */
  function DraftStep(w: World, request: nat, row: Row): World {
    match RootFor(w, row.threadId, row.channel)
    case None => w
    case Some(root) =>
      if request in w.drafts || Trim(row.content) == "" || row.sendAt < w.clock + LEAD_MS then w
      else
        var planned := Row(row.channel, row.author, Trim(row.content), row.threadId, root, row.sendAt, PENDING, None);
        w.(drafts := w.drafts[request := planned])
  }

  function PlanStep(w: World, a: PlanAction): World {
    match a
    case Draft(p, row) => DraftStep(w, p, row)
    case Create(p, s) =>
      if p in w.drafts && s !in w.rows then w.(rows := w.rows[s := w.drafts[p]], drafts := w.drafts - {p}) else w
    case CancelRead(p, s, user) =>
      if p !in w.cancels && s in w.rows && w.rows[s].author == user &&
         w.rows[s].status != CANCELED && w.rows[s].status != SENT
      then w.(cancels := w.cancels[p := s]) else w
    case CancelWrite(p) =>
      if p in w.cancels && w.cancels[p] in w.rows
      then SetStatus(w, w.cancels[p], CANCELED).(cancels := w.cancels - {p}) else w
  }

  function SetStatus(w: World, s: nat, status: Status): World
    requires s in w.rows
  {
    w.(rows := w.rows[s := w.rows[s].(status := status)])
  }

  /** The message input of a scheduled row; its parent is looked up again when it has a thread. */
  function LoadInput(w: World, s: nat): Input
    requires s in w.rows && RootFor(w, w.rows[s].threadId, w.rows[s].channel).Some?
  {
    var row := w.rows[s];
    var root := RootFor(w, row.threadId, row.channel).value;
    Input(row.channel, row.author, row.content, row.threadId, if row.threadId.Some? then root else row.parent, Schedule(s))
  }

  predicate LoadStarts(w: World, r: nat, call: nat, allowed: bool) {
    var stage := StageOf(w, r);
    stage.Claimed? && stage.row in w.rows && allowed && call !in w.log.calls &&
    RootFor(w, w.rows[stage.row].threadId, w.rows[stage.row].channel).Some?
  }

  /** The conditional claim of the batch's first row finds it still PENDING. */
  predicate Claims(w: World, r: nat) {
    var rep := ReplicaOf(w, r);
    rep.stage.Looping? && rep.batch != [] && rep.batch[0] in w.rows && w.rows[rep.batch[0]].status == PENDING
  }

  /** Another row already carries the message id: the unique constraint would refuse the update. */
  predicate SentTwice(w: World, s: nat, m: nat) {
    exists t :: t in w.rows && t != s && w.rows[t].sentMessageId == Some(m)
  }

  function NextReplica(w: World, r: nat, a: DispatchAction): Replica {
    var rep := ReplicaOf(w, r);
    var stage := rep.stage;
    match a
    case StartTick(batch) => if stage.Idle? && IsBatch(w, batch) then Replica(Looping, batch) else rep
    case Claim =>
      if !stage.Looping? || rep.batch == [] then rep
      else Replica(if Claims(w, r) then Claimed(rep.batch[0]) else Looping, rep.batch[1..])
    case Load(call, allowed) =>
      if !stage.Claimed? then rep
      else if LoadStarts(w, r, call, allowed) then rep.(stage := Waiting(stage.row, call))
      else if allowed && call in w.log.calls then rep
      else rep.(stage := Failing(stage.row))
    case Collect =>
      if !stage.Waiting? || stage.call !in w.log.calls then rep
      else
        (match w.log.calls[stage.call].pc
         case Returned(id) => rep.(stage := Notifying(stage.row, id))
         case Failed(_) => rep.(stage := Failing(stage.row))
         case _ => rep)
    case Notify(ok) =>
      if !stage.Notifying? then rep
      else rep.(stage := if ok then Marking(stage.row, stage.message) else Failing(stage.row))
    case Mark =>
      if !stage.Marking? || stage.row !in w.rows then rep
      else rep.(stage := if SentTwice(w, stage.row, stage.message) then Failing(stage.row) else Looping)
    case MarkBroken => if stage.Marking? then rep.(stage := Failing(stage.row)) else rep
    case MarkFailed => if stage.Failing? && stage.row in w.rows then rep.(stage := Looping) else rep
    case Finish => if stage.Looping? && rep.batch == [] then rep.(stage := Idle) else rep
    case Crash => Replica(Idle, [])
  }

  /** The rows after a dispatcher step: at most the replica's current row is written. */
  function NextRows(w: World, r: nat, a: DispatchAction): map<nat, Row> {
    var rep := ReplicaOf(w, r);
    var stage := rep.stage;
    match a
    case Claim =>
      if Claims(w, r) then w.rows[rep.batch[0] := w.rows[rep.batch[0]].(status := PROCESSING)] else w.rows
    case Mark =>
      if !stage.Marking? || stage.row !in w.rows || SentTwice(w, stage.row, stage.message) then w.rows
      else w.rows[stage.row := w.rows[stage.row].(status := SENT, sentMessageId := Some(stage.message))]
    case MarkFailed =>
      if stage.Failing? && stage.row in w.rows
      then w.rows[stage.row := w.rows[stage.row].(status := FAILED)] else w.rows
    case _ => w.rows
  }

  function NextLog(w: World, r: nat, a: DispatchAction): Log {
    if a.Load? && LoadStarts(w, r, a.call, a.allowed)
    then LogStep(w.log, Begin(a.call, Messaging, LoadInput(w, StageOf(w, r).row)))
    else w.log
  }

  function DispatchStep(w: World, r: nat, a: DispatchAction): World {
    w.(log := NextLog(w, r, a), rows := NextRows(w, r, a), replicas := w.replicas[r := NextReplica(w, r, a)])
  }

  function Step(w: World, a: Action): World {
    match a
    case Chat(c) => ChatStep(w, c)
    case Threads(t) => ThreadStep(w, t)
    case Plan(p) => PlanStep(w, p)
    case Dispatch(r, d) => DispatchStep(w, r, d)
    case Advance(ms) => w.(clock := w.clock + ms)
  }

  function Exec(w: World, acts: seq<Action>): World
    decreases |acts|
  {
    if acts == [] then w else Exec(Step(w, acts[0]), acts[1..])
  }

  lemma {:induction false} ExecConcat(w: World, a: seq<Action>, b: seq<Action>)
    ensures Exec(w, a + b) == Exec(Exec(w, a), b)
    decreases |a|
  {
    if a == [] {
      assert a + b == b;
    } else {
      assert (a + b)[0] == a[0] && (a + b)[1..] == a[1..] + b;
      ExecConcat(Step(w, a[0]), a[1..], b);
    }
  }

  // -------------------------------------------------- what no step ever undoes

  ghost predicate LogGrows(l: Log, v: Log) {
    && l.messages <= v.messages
    && (forall k :: k in l.calls ==> k in v.calls && v.calls[k].input == l.calls[k].input)
    && (forall k :: k in l.calls && !Running(l.calls[k]) ==> v.calls[k].pc == l.calls[k].pc)
  }

  ghost predicate SameRow(a: Row, b: Row) {
    && b == a.(status := b.status, sentMessageId := b.sentMessageId)
    && (a.status != PENDING ==> b.status != PENDING)
  }

  ghost predicate Extends(w: World, v: World) {
    && LogGrows(w.log, v.log)
    && w.threads <= v.threads
    && (forall s :: s in w.rows ==> s in v.rows && SameRow(w.rows[s], v.rows[s]))
    && w.clock <= v.clock
  }

  lemma LogStepGrows(l: Log, a: LogAction)
    ensures LogGrows(l, LogStep(l, a))
  {
  }

  /** Only Begin adds a call, and no step changes what a call was asked to store. */
  lemma LogStepInputs(l: Log, a: LogAction)
    ensures forall k :: k in LogStep(l, a).calls <==> k in l.calls || (a.Begin? && k == a.call)
    ensures forall k :: k in l.calls ==> LogStep(l, a).calls[k].input == l.calls[k].input
    ensures a.Begin? && a.call !in l.calls ==> LogStep(l, a).calls[a.call].input == a.input
  {
  }

  lemma ChatInputs(w: World, a: ChatAction)
    ensures var part := ChatPart(w, a);
            part.Some? && part.value.Begin? ==> part.value.input.origin == Client
  {
  }

  /** The log action a step performs, if any. */
  function LogPart(w: World, a: Action): Option<LogAction> {
    match a
    case Chat(c) => ChatPart(w, c)
    case Dispatch(r, d) =>
      if d.Load? && LoadStarts(w, r, d.call, d.allowed)
      then Some(Begin(d.call, Messaging, LoadInput(w, StageOf(w, r).row))) else None
    case _ => None
  }

  lemma PlanMovesLog(w: World, a: PlanAction)
    ensures PlanStep(w, a).log == w.log && PlanStep(w, a).threads == w.threads
  {
  }

  lemma ThreadMovesLog(w: World, a: ThreadAction)
    ensures ThreadStep(w, a).log == w.log && w.threads <= ThreadStep(w, a).threads
    ensures ThreadStep(w, a).rows == w.rows && ThreadStep(w, a).clock == w.clock
  {
  }

  lemma StepMovesLog(w: World, a: Action)
    ensures Step(w, a).log == match LogPart(w, a) case None => w.log case Some(x) => LogStep(w.log, x)
  {
    match a {
      case Plan(p) => PlanMovesLog(w, p);
      case Threads(t) => ThreadMovesLog(w, t);
      case _ =>
    }
  }

  lemma DispatchExtends(w: World, r: nat, a: DispatchAction)
    ensures Extends(w, DispatchStep(w, r, a))
  {
    if a.Load? {
      if LoadStarts(w, r, a.call, a.allowed) {
        LogStepGrows(w.log, Begin(a.call, Messaging, LoadInput(w, StageOf(w, r).row)));
      }
    }
  }

  lemma PlanExtends(w: World, a: PlanAction)
    ensures Extends(w, PlanStep(w, a))
  {
  }

  lemma ChatExtends(w: World, a: ChatAction)
    ensures Extends(w, ChatStep(w, a))
  {
    if ChatPart(w, a).Some? {
      LogStepGrows(w.log, ChatPart(w, a).value);
    }
  }

  lemma StepExtends(w: World, a: Action)
    ensures Extends(w, Step(w, a))
  {
    match a {
      case Chat(c) => ChatExtends(w, c);
      case Plan(p) => PlanExtends(w, p);
      case Threads(t) => ThreadMovesLog(w, t);
      case Dispatch(r, d) => DispatchExtends(w, r, d);
      case Advance(_) =>
    }
  }

  lemma {:induction false} ExecExtends(w: World, acts: seq<Action>)
    ensures Extends(w, Exec(w, acts))
    decreases |acts|
  {
    if acts != [] {
      StepExtends(w, acts[0]);
      ExecExtends(Step(w, acts[0]), acts[1..]);
    }
  }

}
