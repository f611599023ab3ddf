/**
 The message table and the two retry loops that append to it, as a machine of
 atomic database round trips.

 A *call* is one run of createMessageWithSequence (messaging service) or of
 createBotMessageWithRetry (bots service). Between two of its round trips any
 other call may take any number of steps, so an arbitrary list of actions is an
 arbitrary interleaving. `began`, `lost` and `collisions` in a call, and `call`
 in a message, only record history; no step reads them.
 */
module MessageLog {
  import opened Prelude

  datatype Service = Messaging | Bots

  function Budget(service: Service): (n: nat) {
    match service
    case Messaging => 6
    case Bots => 5
  }

  /** Who asked for a message: a client or bot, or the dispatcher for a scheduled row. */
  datatype Origin = Client | Schedule(row: nat)

  datatype Input = Input(
    channel: nat,
    author: nat,
    content: string,
    threadId: Option<nat>,
    parent: Option<nat>,
    origin: Origin)

  datatype Message = Message(id: nat, call: nat, input: Input, sequence: nat, createdAt: nat)

  // ------------------------------------------------------------------ errors

  datatype Target = Columns(names: seq<string>) | Text(text: string) | Unknown

  datatype PrismaError = KnownRequest(code: string, target: Target) | Foreign

  const UNIQUE_VIOLATION := "P2002"
  const ID_TAKEN := KnownRequest(UNIQUE_VIOLATION, Columns(["id"]))
  const SEQUENCE_TAKEN := KnownRequest(UNIQUE_VIOLATION, Columns(["channelId", "sequence"]))

  predicate Contains(text: string, part: string) {
    |part| <= |text| && (text[..|part|] == part || (text != [] && Contains(text[1..], part)))
  }

  /** The messaging service's test; an unrecognised target counts as a conflict. */
  predicate IsMessageSequenceConflict(e: PrismaError) {
    e.KnownRequest? && e.code == UNIQUE_VIOLATION &&
    match e.target
    case Columns(names) => "channelId" in names && "sequence" in names
    case Text(text) => Contains(text, "channelId") && Contains(text, "sequence")
    case Unknown => true
  }

  /** The bots service retries on every unique violation. */
  predicate IsUniqueViolation(e: PrismaError) {
    e.KnownRequest? && e.code == UNIQUE_VIOLATION
  }

  predicate Retryable(service: Service, e: PrismaError) {
    match service
    case Messaging => IsMessageSequenceConflict(e)
    case Bots => IsUniqueViolation(e)
  }

  // ------------------------------------------------------------------- table

  /** The rows of one channel in commit order. */
  function ChannelLog(ms: seq<Message>, c: nat): (log: seq<Message>) {
    if ms == [] then []
    else
      var rest := ChannelLog(ms[..|ms| - 1], c);
      var last := ms[|ms| - 1];
      if last.input.channel == c then rest + [last] else rest
  }

  lemma {:induction false} ChannelLogMembers(ms: seq<Message>, c: nat)
    ensures forall m :: m in ChannelLog(ms, c) <==> m in ms && m.input.channel == c
  {
    if ms != [] {
      ChannelLogMembers(ms[..|ms| - 1], c);
      assert forall m :: m in ms <==> m in ms[..|ms| - 1] || m == ms[|ms| - 1];
    }
  }

  /** findFirst ordered by sequence, descending; 0 when the channel is empty. */
  function Latest(ms: seq<Message>, c: nat): (s: nat) {
    if ms == [] then 0
    else
      var rest := Latest(ms[..|ms| - 1], c);
      var last := ms[|ms| - 1];
      if last.input.channel == c && last.sequence > rest then last.sequence else rest
  }

  lemma {:induction false} LatestIsMaximum(ms: seq<Message>, c: nat)
    ensures forall m :: m in ms && m.input.channel == c ==> m.sequence <= Latest(ms, c)
    ensures Latest(ms, c) == 0 || HasSequence(ms, c, Latest(ms, c))
  {
    if ms != [] {
      var front, last := ms[..|ms| - 1], ms[|ms| - 1];
      LatestIsMaximum(front, c);
      assert forall m :: m in ms <==> m in front || m == last;
      if HasSequence(front, c, Latest(front, c)) {
        var m :| m in front && m.input.channel == c && m.sequence == Latest(front, c);
        assert m in ms;
      }
    }
  }

  predicate HasId(ms: seq<Message>, id: nat) {
    exists m :: m in ms && m.id == id
  }

  predicate HasSequence(ms: seq<Message>, c: nat, s: nat) {
    exists m :: m in ms && m.input.channel == c && m.sequence == s
  }

  /** message.create under the primary key and the unique (channelId, sequence). */
  function TryCreate(ms: seq<Message>, row: Message): Result<Message, PrismaError> {
    if HasId(ms, row.id) then Err(ID_TAKEN)
    else if HasSequence(ms, row.input.channel, row.sequence) then Err(SEQUENCE_TAKEN)
    else Ok(row)
  }

  // ----------------------------------------------------------------- machine

  datatype Failure = Unallocated | Raised(error: PrismaError)

  datatype Pc = Reading | Inserting(sequence: nat) | Returned(id: nat) | Failed(failure: Failure)

  datatype Call = Call(
    service: Service,
    input: Input,
    attempt: nat,
    pc: Pc,
    began: nat,
    lost: seq<nat>,
    collisions: nat)

  datatype Log = Log(messages: seq<Message>, calls: map<nat, Call>)

  const EMPTY := Log([], map[])

  datatype LogAction =
    | Begin(call: nat, service: Service, input: Input)
    | Read(call: nat)
    | Insert(call: nat, id: nat, now: nat)
    | Break(call: nat)

  /** The retry branch: one more attempt is spent, and the last one ends the call. */
  function Spend(c: Call, sequenceTaken: bool, exhausted: Failure): Call
    requires c.pc.Inserting?
  {
    var tried := c.attempt + 1;
    c.(attempt := tried,
       pc := if tried < Budget(c.service) then Reading else Failed(exhausted),
       lost := if sequenceTaken then c.lost + [c.pc.sequence] else c.lost,
       collisions := if sequenceTaken then c.collisions else c.collisions + 1)
  }

  /** What a call does after its insert raised `e`. */
  function AfterError(c: Call, e: PrismaError): Call
    requires c.pc.Inserting?
  {
    if !Retryable(c.service, e) then c.(pc := Failed(Raised(e)))
    else Spend(c, e == SEQUENCE_TAKEN, if c.service.Messaging? then Unallocated else Raised(e))
  }

  predicate Running(c: Call) {
    c.pc.Reading? || c.pc.Inserting?
  }

  /** One atomic step; an action whose call is not at that point changes nothing. */
  function LogStep(l: Log, a: LogAction): Log {
    match a
    case Begin(k, service, input) =>
      if k in l.calls then l
      else l.(calls := l.calls[k := Call(service, input, 0, Reading, |ChannelLog(l.messages, input.channel)|, [], 0)])
    case Read(k) =>
      if k in l.calls && l.calls[k].pc.Reading? then
        l.(calls := l.calls[k := l.calls[k].(pc := Inserting(Latest(l.messages, l.calls[k].input.channel) + 1))])
      else l
    case Insert(k, id, now) =>
      if k in l.calls && l.calls[k].pc.Inserting? then
        var c := l.calls[k];
        (match TryCreate(l.messages, Message(id, k, c.input, c.pc.sequence, now))
         case Ok(m) => Log(l.messages + [m], l.calls[k := c.(pc := Returned(id))])
         case Err(e) => l.(calls := l.calls[k := AfterError(c, e)]))
      else l
    case Break(k) =>
      if k in l.calls && Running(l.calls[k]) then
        l.(calls := l.calls[k := l.calls[k].(pc := Failed(Raised(Foreign)))])
      else l
  }

  function LogExec(l: Log, acts: seq<LogAction>): Log
    decreases |acts|
  {
    if acts == [] then l else LogExec(LogStep(l, acts[0]), acts[1..])
  }

  lemma {:induction false} LogExecConcat(l: Log, a: seq<LogAction>, b: seq<LogAction>)
    ensures LogExec(l, a + b) == LogExec(LogExec(l, a), b)
    decreases |a|
  {
    if a == [] {
      assert a + b == b;
    } else {
      assert (a + b)[0] == a[0] && (a + b)[1..] == a[1..] + b;
      LogExecConcat(LogStep(l, a[0]), a[1..], b);
    }
  }

  // --------------------------------------------------------------- invariant

  /** Position i of a channel's log carries sequence i + 1: no gap, no duplicate. */
  ghost predicate Numbered(log: seq<Message>) {
    forall i :: 0 <= i < |log| ==> log[i].sequence == i + 1
  }

  ghost predicate Dense(ms: seq<Message>) {
    forall c: nat {:trigger Numbered(ChannelLog(ms, c))} :: Numbered(ChannelLog(ms, c))
  }

  ghost predicate UniqueIds(ms: seq<Message>) {
    forall i, j :: 0 <= i < j < |ms| ==> ms[i].id != ms[j].id
  }

  ghost predicate AllBelow(lost: seq<nat>, sequence: nat) {
    forall i :: 0 <= i < |lost| ==> lost[i] < sequence
  }

  ghost predicate CallInv(ms: seq<Message>, k: nat, c: Call) {
    var n := |ChannelLog(ms, c.input.channel)|;
    && c.began <= n
    && |c.lost| + c.collisions == c.attempt <= Budget(c.service)
    && (c.service.Messaging? ==> c.collisions == 0)
    && Increasing(c.lost)
    && (forall i :: 0 <= i < |c.lost| ==> c.began < c.lost[i] <= n)
    && (Running(c) ==> c.attempt < Budget(c.service))
    && (c.pc.Inserting? ==> c.began < c.pc.sequence <= n + 1)
    && (c.pc.Inserting? ==> AllBelow(c.lost, c.pc.sequence))
    && (c.pc.Returned? ==> exists m :: m in ms && m.id == c.pc.id && m.call == k && AllBelow(c.lost, m.sequence))
    && (c.pc.Failed? && c.pc.failure.Unallocated? ==> c.service.Messaging? && c.attempt == 6)
  }

  ghost predicate Signed(l: Log, m: Message) {
    m.call in l.calls && l.calls[m.call].input == m.input &&
    l.calls[m.call].pc == Returned(m.id) && l.calls[m.call].began < m.sequence
  }

  ghost predicate LogInv(l: Log) {
    && Dense(l.messages)
    && UniqueIds(l.messages)
    && (forall m {:trigger Signed(l, m)} :: m in l.messages ==> Signed(l, m))
    && (forall k {:trigger CallInv(l.messages, k, l.calls[k])} :: k in l.calls ==> CallInv(l.messages, k, l.calls[k]))
  }

  /** Under density, the stored sequences of a channel are exactly 1..n and the maximum is n. */
  lemma DenseExtent(ms: seq<Message>, c: nat)
    requires Dense(ms)
    ensures Latest(ms, c) == |ChannelLog(ms, c)|
    ensures forall s: nat :: HasSequence(ms, c, s) <==> 1 <= s <= |ChannelLog(ms, c)|
  {
    var log := ChannelLog(ms, c);
    assert Numbered(log);
    ChannelLogMembers(ms, c);
    LatestIsMaximum(ms, c);
    forall s: nat
      ensures HasSequence(ms, c, s) <==> 1 <= s <= |log|
    {
      if 1 <= s <= |log| {
        assert log[s - 1] in ms && log[s - 1].sequence == s;
      }
      if HasSequence(ms, c, s) {
        var m :| m in ms && m.input.channel == c && m.sequence == s;
        assert m in log;
      }
    }
    if |log| > 0 {
      assert log[|log| - 1] in ms;
    }
  }

  lemma ChannelLogAppend(ms: seq<Message>, m: Message, c: nat)
    ensures ChannelLog(ms + [m], c) == if m.input.channel == c then ChannelLog(ms, c) + [m] else ChannelLog(ms, c)
  {
    assert (ms + [m])[..|ms|] == ms;
  }

  lemma DenseAppend(ms: seq<Message>, m: Message)
    requires Dense(ms) && m.sequence == |ChannelLog(ms, m.input.channel)| + 1
    ensures Dense(ms + [m])
  {
    forall c: nat ensures Numbered(ChannelLog(ms + [m], c)) {
      ChannelLogAppend(ms, m, c);
      assert Numbered(ChannelLog(ms, c));
    }
  }

  /** An insert that succeeds takes exactly the next number of its channel. */
  lemma InsertTakesNext(l: Log, k: nat, id: nat, now: nat)
    requires LogInv(l) && k in l.calls && l.calls[k].pc.Inserting?
    requires TryCreate(l.messages, Message(id, k, l.calls[k].input, l.calls[k].pc.sequence, now)).Ok?
    ensures l.calls[k].pc.sequence == |ChannelLog(l.messages, l.calls[k].input.channel)| + 1
  {
    var c := l.calls[k];
    DenseExtent(l.messages, c.input.channel);
    assert CallInv(l.messages, k, c);
  }

  lemma CallInvGrows(ms: seq<Message>, m: Message, k: nat, c: Call)
    requires CallInv(ms, k, c)
    ensures CallInv(ms + [m], k, c)
  {
    ChannelLogAppend(ms, m, c.input.channel);
    assert forall x :: x in ms ==> x in ms + [m];
  }

  /** Which of the two unique violations each service retries. */
  lemma Classification()
    ensures Retryable(Messaging, SEQUENCE_TAKEN) && !Retryable(Messaging, ID_TAKEN)
    ensures Retryable(Bots, SEQUENCE_TAKEN) && Retryable(Bots, ID_TAKEN)
    ensures SEQUENCE_TAKEN != ID_TAKEN
  {
    var names := SEQUENCE_TAKEN.target.names;
    assert names[0] == "channelId" && names[1] == "sequence";
    var ids := ID_TAKEN.target.names;
    assert |ids| == 1 && ids[0] == "id" && |ids[0]| != |"channelId"|;
    assert "channelId" !in ids;
  }

  predicate PartAt(text: string, part: string, i: nat) {
    i + |part| <= |text| && text[i..i + |part|] == part
  }

  ghost predicate HasPart(text: string, part: string) {
    exists i: nat :: PartAt(text, part, i)
  }

  lemma {:induction false} ContainsMeansPart(text: string, part: string)
    ensures Contains(text, part) <==> HasPart(text, part)
  {
    if |part| <= |text| {
      if text[..|part|] == part {
        assert PartAt(text, part, 0);
      } else if text != "" {
        var rest := text[1..];
        ContainsMeansPart(rest, part);
        if i: nat :| PartAt(text, part, i) {
          assert i > 0 && rest[i - 1..i - 1 + |part|] == text[i..i + |part|];
          assert PartAt(rest, part, i - 1);
        }
        if j: nat :| PartAt(rest, part, j) {
          assert text[j + 1..j + 1 + |part|] == rest[j..j + |part|];
          assert PartAt(text, part, j + 1);
        }
      }
    }
  }

  /**
   What the messaging service takes for a sequence conflict: a unique violation whose target
   names both columns, as list or as text, or is missing. The bots service asks for no target.
   */
  lemma ConflictIsByTarget(e: PrismaError)
    ensures IsMessageSequenceConflict(e) <==>
            exists target {:trigger KnownRequest(UNIQUE_VIOLATION, target)} :: e == KnownRequest(UNIQUE_VIOLATION, target) &&
              (target.Columns? ==> "channelId" in target.names && "sequence" in target.names) &&
              (target.Text? ==> HasPart(target.text, "channelId") && HasPart(target.text, "sequence"))
    ensures IsUniqueViolation(e) <==> e.KnownRequest? && e.code == UNIQUE_VIOLATION
    ensures IsMessageSequenceConflict(e) ==> IsUniqueViolation(e)
  {
    if e.KnownRequest? && e.target.Text? {
      ContainsMeansPart(e.target.text, "channelId");
      ContainsMeansPart(e.target.text, "sequence");
    }
    if e.KnownRequest? && e.code == UNIQUE_VIOLATION {
      assert e == KnownRequest(UNIQUE_VIOLATION, e.target);
    }
  }

  lemma SpendKeepsInv(ms: seq<Message>, k: nat, c: Call, taken: bool, f: Failure)
    requires Dense(ms) && CallInv(ms, k, c) && c.pc.Inserting?
    requires taken ==> HasSequence(ms, c.input.channel, c.pc.sequence)
    requires c.service.Messaging? ==> taken
    requires f.Unallocated? ==> c.service.Messaging?
    ensures CallInv(ms, k, Spend(c, taken, f))
  {
    DenseExtent(ms, c.input.channel);
  }

  lemma AfterErrorKeepsInv(ms: seq<Message>, k: nat, c: Call, e: PrismaError)
    requires Dense(ms) && CallInv(ms, k, c) && c.pc.Inserting?
    requires e == ID_TAKEN || (e == SEQUENCE_TAKEN && HasSequence(ms, c.input.channel, c.pc.sequence))
    ensures CallInv(ms, k, AfterError(c, e))
  {
    Classification();
    if Retryable(c.service, e) {
      SpendKeepsInv(ms, k, c, e == SEQUENCE_TAKEN, if c.service.Messaging? then Unallocated else Raised(e));
    }
  }

  /** A call that has not returned may be replaced by another that meets its invariant. */
  lemma UpdateCall(l: Log, k: nat, c: Call)
    requires LogInv(l) && CallInv(l.messages, k, c)
    requires k in l.calls ==> Running(l.calls[k])
    ensures LogInv(l.(calls := l.calls[k := c]))
  {
    var l' := l.(calls := l.calls[k := c]);
    forall m | m in l'.messages ensures Signed(l', m) {
      assert Signed(l, m);
    }
    forall j | j in l'.calls ensures CallInv(l'.messages, j, l'.calls[j]) {
      if j != k {
        assert CallInv(l.messages, j, l.calls[j]);
      }
    }
  }

  lemma AppendKeepsInv(l: Log, k: nat, row: Message)
    requires LogInv(l) && k in l.calls && l.calls[k].pc == Inserting(row.sequence)
    requires row.call == k && row.input == l.calls[k].input
    requires !HasId(l.messages, row.id)
    requires row.sequence == |ChannelLog(l.messages, row.input.channel)| + 1
    ensures LogInv(Log(l.messages + [row], l.calls[k := l.calls[k].(pc := Returned(row.id))]))
  {
    var ms := l.messages + [row];
    var l' := Log(ms, l.calls[k := l.calls[k].(pc := Returned(row.id))]);
    DenseAppend(l.messages, row);
    forall j | j in l'.calls ensures CallInv(ms, j, l'.calls[j]) {
      assert CallInv(l.messages, j, l.calls[j]);
      CallInvGrows(l.messages, row, j, l.calls[j]);
      assert row in ms;
    }
    forall m | m in ms ensures Signed(l', m) {
      assert m == row || Signed(l, m);
      assert CallInv(l.messages, k, l.calls[k]);
    }
  }

  lemma LogStepKeepsInv(l: Log, a: LogAction)
    requires LogInv(l)
    ensures LogInv(LogStep(l, a))
  {
    match a {
      case Begin(k, service, input) =>
        if k !in l.calls {
          UpdateCall(l, k, LogStep(l, a).calls[k]);
        }
      case Read(k) =>
        if k in l.calls && l.calls[k].pc.Reading? {
          DenseExtent(l.messages, l.calls[k].input.channel);
          assert CallInv(l.messages, k, l.calls[k]);
          UpdateCall(l, k, LogStep(l, a).calls[k]);
        }
      case Insert(k, id, now) =>
        if k in l.calls && l.calls[k].pc.Inserting? {
          var c := l.calls[k];
          var row := Message(id, k, c.input, c.pc.sequence, now);
          match TryCreate(l.messages, row) {
            case Ok(_) =>
              InsertTakesNext(l, k, id, now);
              AppendKeepsInv(l, k, row);
            case Err(e) =>
              assert CallInv(l.messages, k, c);
              AfterErrorKeepsInv(l.messages, k, c, e);
              UpdateCall(l, k, AfterError(c, e));
          }
        }
      case Break(k) =>
        if k in l.calls && Running(l.calls[k]) {
          assert CallInv(l.messages, k, l.calls[k]);
          UpdateCall(l, k, LogStep(l, a).calls[k]);
        }
    }
  }

  lemma {:induction false} LogExecKeepsInv(l: Log, acts: seq<LogAction>)
    requires LogInv(l)
    ensures LogInv(LogExec(l, acts))
    decreases |acts|
  {
    if acts != [] {
      LogStepKeepsInv(l, acts[0]);
      LogExecKeepsInv(LogStep(l, acts[0]), acts[1..]);
    }
  }

  lemma EmptyLogInv()
    ensures LogInv(EMPTY)
  {
    assert forall c: nat :: ChannelLog([], c) == [];
  }
}
