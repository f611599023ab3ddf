/**
 The loops of the two services as they run: each await is a round trip to the shared
 database, and before it the other clients may do anything (`Others`). Every method keeps
 the database reachable in the machine of module Messaging, so all its theorems apply.
 */
module Services {
  import opened Prelude
  import opened MessageLog
  import opened LogTheorems
  import opened Messaging
  import opened MessagingInvariant

  /** An action of somebody else; in quiet times nobody else schedules, cancels or dispatches. */
  predicate IsForeign(a: Action, calls: set<nat>, replicas: set<nat>, quiet: bool) {
    match a
    case Chat(c) => c.Query? || c.Store? || c.Abort? ==> c.call !in calls
    case Threads(_) => true
    case Plan(_) => !quiet
    case Dispatch(r, _) => r !in replicas && !quiet
    case Advance(_) => true
  }

  ghost predicate KeptCalls(l: Log, v: Log, calls: set<nat>) {
    forall k :: k in calls && k in l.calls ==> k in v.calls && v.calls[k] == l.calls[k]
  }

  /** What this process may rely on after others had their turn. */
  ghost predicate Interfered(w: World, v: World, calls: set<nat>, replicas: set<nat>, quiet: bool) {
    && Reachable(v)
    && Extends(w, v)
    && KeptCalls(w.log, v.log, calls)
    && (forall r :: r in replicas ==> ReplicaOf(v, r) == ReplicaOf(w, r))
    && (quiet ==> v.rows == w.rows)
  }

  lemma InterferedTransitive(u: World, v: World, w: World, calls: set<nat>, replicas: set<nat>, quiet: bool)
    requires Interfered(u, v, calls, replicas, quiet) && Interfered(v, w, calls, replicas, quiet)
    ensures Interfered(u, w, calls, replicas, quiet)
  {
  }

  lemma LogStepOwn(l: Log, a: LogAction, k: nat)
    requires k in l.calls && (a.Begin? || a.call != k)
    ensures k in LogStep(l, a).calls && LogStep(l, a).calls[k] == l.calls[k]
  {
  }

  lemma CallsKept(l: Log, x: LogAction, calls: set<nat>)
    requires x.Begin? || x.call !in calls
    ensures KeptCalls(l, LogStep(l, x), calls)
  {
    forall k | k in calls && k in l.calls
      ensures k in LogStep(l, x).calls && LogStep(l, x).calls[k] == l.calls[k]
    {
      LogStepOwn(l, x, k);
    }
  }

  lemma ForeignPart(w: World, c: ChatAction, calls: set<nat>, replicas: set<nat>, quiet: bool)
    requires IsForeign(Chat(c), calls, replicas, quiet) && ChatPart(w, c).Some?
    ensures ChatPart(w, c).value.Begin? || ChatPart(w, c).value.call !in calls
  {
  }

  lemma ChatKeepsCalls(w: World, c: ChatAction, calls: set<nat>, replicas: set<nat>, quiet: bool)
    requires IsForeign(Chat(c), calls, replicas, quiet)
    ensures KeptCalls(w.log, Step(w, Chat(c)).log, calls)
  {
    if ChatPart(w, c).Some? {
      ForeignPart(w, c, calls, replicas, quiet);
      CallsKept(w.log, ChatPart(w, c).value, calls);
    }
  }

  lemma ChatKeepsRest(w: World, c: ChatAction)
    ensures var v := Step(w, Chat(c)); v.rows == w.rows && v.replicas == w.replicas
  {
  }

  lemma ForeignChat(w: World, c: ChatAction, calls: set<nat>, replicas: set<nat>, quiet: bool)
    requires Reachable(w) && IsForeign(Chat(c), calls, replicas, quiet)
    ensures Interfered(w, Step(w, Chat(c)), calls, replicas, quiet)
  {
    ReachableStep(w, Chat(c));
    StepExtends(w, Chat(c));
    ChatKeepsCalls(w, c, calls, replicas, quiet);
    ChatKeepsRest(w, c);
  }

  lemma ForeignDispatch(w: World, r: nat, d: DispatchAction, calls: set<nat>, replicas: set<nat>)
    requires Reachable(w) && r !in replicas
    ensures Interfered(w, Step(w, Dispatch(r, d)), calls, replicas, false)
  {
    ReachableStep(w, Dispatch(r, d));
    DispatchExtends(w, r, d);
    if d.Load? && LoadStarts(w, r, d.call, d.allowed) {
      CallsKept(w.log, Begin(d.call, Messaging, LoadInput(w, StageOf(w, r).row)), calls);
    }
  }

  lemma ForeignThreads(w: World, t: ThreadAction, calls: set<nat>, replicas: set<nat>)
    requires Reachable(w)
    ensures Interfered(w, Step(w, Threads(t)), calls, replicas, true)
  {
    ReachableStep(w, Threads(t));
    ThreadMovesLog(w, t);
  }

  lemma ForeignPlan(w: World, p: PlanAction, calls: set<nat>, replicas: set<nat>)
    requires Reachable(w)
    ensures Interfered(w, Step(w, Plan(p)), calls, replicas, false)
  {
    ReachableStep(w, Plan(p));
    PlanMovesLog(w, p);
    PlanExtends(w, p);
  }

  lemma ForeignAdvance(w: World, ms: nat, calls: set<nat>, replicas: set<nat>)
    requires Reachable(w)
    ensures Interfered(w, Step(w, Advance(ms)), calls, replicas, true)
  {
    ReachableStep(w, Advance(ms));
  }

  lemma QuietOrNot(w: World, v: World, calls: set<nat>, replicas: set<nat>, quiet: bool)
    requires Interfered(w, v, calls, replicas, true)
    ensures Interfered(w, v, calls, replicas, quiet)
  {
  }

  lemma ForeignStep(w: World, a: Action, calls: set<nat>, replicas: set<nat>, quiet: bool)
    requires Reachable(w) && IsForeign(a, calls, replicas, quiet)
    ensures Interfered(w, Step(w, a), calls, replicas, quiet)
  {
    match a {
      case Chat(c) => ForeignChat(w, c, calls, replicas, quiet);
      case Threads(t) => ForeignThreads(w, t, calls, replicas); QuietOrNot(w, Step(w, a), calls, replicas, quiet);
      case Plan(p) => ForeignPlan(w, p, calls, replicas);
      case Dispatch(r, d) => ForeignDispatch(w, r, d, calls, replicas);
      case Advance(ms) => ForeignAdvance(w, ms, calls, replicas); QuietOrNot(w, Step(w, a), calls, replicas, quiet);
    }
  }

  lemma {:induction false} ForeignExec(w: World, acts: seq<Action>, calls: set<nat>, replicas: set<nat>, quiet: bool)
    requires Reachable(w) && forall a :: a in acts ==> IsForeign(a, calls, replicas, quiet)
    ensures Interfered(w, Exec(w, acts), calls, replicas, quiet)
    decreases |acts|
  {
    if acts != [] {
      ForeignStep(w, acts[0], calls, replicas, quiet);
      ForeignExec(Step(w, acts[0]), acts[1..], calls, replicas, quiet);
      InterferedTransitive(w, Step(w, acts[0]), Exec(w, acts), calls, replicas, quiet);
    }
  }

  /** The shared database and everybody who uses it; `quiet` says what these others may do. */
  class Database {
    const quiet: bool
    var world: World
    /** What has gone wrong so far: round trips that failed, generated ids that were taken, deliveries turned away. */
    var outages: nat
    var takenIds: nat
    var refusals: nat

    constructor (quiet: bool)
      ensures world == START && Reachable(world) && this.quiet == quiet
      ensures outages == takenIds == refusals == 0
    {
      this.quiet := quiet;
      outages, takenIds, refusals := 0, 0, 0;
      world := START;
      assert Exec(START, []) == START;
    }

    /** Any number of steps of any other clients. */
    method Others(calls: set<nat>, replicas: set<nat>)
      requires Reachable(world)
      modifies this`world
      ensures Interfered(old(world), world, calls, replicas, quiet)
    {
      var acts: seq<Action> := *;
      if forall a | a in acts :: IsForeign(a, calls, replicas, quiet) {
        ForeignExec(world, acts, calls, replicas, quiet);
        world := Exec(world, acts);
      }
    }

    /** Whether the next round trip fails. */
    method Fails() returns (broken: bool)
      modifies this`outages
      ensures outages == old(outages) + if broken then 1 else 0
    {
      broken := *;
      if broken {
        outages := outages + 1;
      }
    }

    /** The same for the dispatcher's own round trips; in quiet times none fails. */
    method Outage() returns (broken: bool)
      modifies this`outages
      ensures quiet ==> !broken
      ensures outages == old(outages) + if broken then 1 else 0
    {
      broken := false;
      if !quiet {
        broken := Fails();
      }
    }

    /** Whether the author of a scheduled row still has access, or the notifications go out. */
    method Refuses() returns (refused: bool)
      modifies this`refusals
      ensures refusals == old(refusals) + if refused then 1 else 0
    {
      refused := *;
      if refused {
        refusals := refusals + 1;
      }
    }

    ghost function Mishaps(): nat
      reads this
    {
      outages + takenIds + refusals
    }

    /** One round trip of this process. */
    method Perform(a: Action)
      requires Reachable(world)
      modifies this`world
      ensures world == Step(old(world), a) && Reachable(world) && Extends(old(world), world)
    {
      ReachableStep(world, a);
      StepExtends(world, a);
      world := Step(world, a);
    }

    /** message.findFirst ordered by sequence. */
    method FindLatest(call: nat) returns (latest: nat)
      requires Reachable(world) && call in world.log.calls && world.log.calls[call].pc.Reading?
      modifies this`world
      ensures world == Step(old(world), Chat(Query(call))) && Reachable(world) && Extends(old(world), world)
      ensures latest == Latest(old(world).log.messages, old(world).log.calls[call].input.channel)
    {
      latest := Latest(world.log.messages, world.log.calls[call].input.channel);
      Perform(Chat(Query(call)));
    }

    /** message.create under a generated id, which may be taken. */
    method CreateMessage(call: nat, input: Input, sequence: nat) returns (r: Result<Message, PrismaError>, ghost id: nat)
      requires Reachable(world) && call in world.log.calls
      requires world.log.calls[call].pc == Inserting(sequence) && world.log.calls[call].input == input
      modifies this`world, this`takenIds
      ensures world == Step(old(world), Chat(Store(call, id))) && Reachable(world) && Extends(old(world), world)
      ensures r == TryCreate(old(world).log.messages, Message(id, call, input, sequence, old(world).clock))
      ensures takenIds == old(takenIds) + if r == Err(ID_TAKEN) then 1 else 0
    {
      var generated: nat := *;
      id := generated;
      r := TryCreate(world.log.messages, Message(generated, call, input, sequence, world.clock));
      if HasId(world.log.messages, generated) {
        takenIds := takenIds + 1;
      } else {
        Classification();
      }
      Perform(Chat(Store(call, generated)));
    }
  }

  /** A call that has begun and made no round trip yet. */
  ghost predicate JustBegun(w: World, call: nat, service: Service, input: Input) {
    call in w.log.calls &&
    w.log.calls[call] == Call(service, input, 0, Reading, |ChannelLog(w.log.messages, input.channel)|, [], 0)
  }

  /** The outcome a finished call leaves behind. */
  ghost predicate Outcome(w: World, v: World, call: nat, input: Input, r: Result<Message, Failure>) {
    && call in v.log.calls && v.log.calls[call].input == input
    && (r.Ok? ==>
          r.value in v.log.messages && r.value.call == call && r.value.input == input &&
          v.log.calls[call].pc == Returned(r.value.id) &&
          |ChannelLog(w.log.messages, input.channel)| < r.value.sequence <= |ChannelLog(v.log.messages, input.channel)| &&
          ChannelLog(v.log.messages, input.channel)[r.value.sequence - 1] == r.value)
    && (r.Err? ==> v.log.calls[call].pc == Failed(r.error) && forall m :: m in v.log.messages ==> m.call != call)
  }

  /** How many attempts of the call met a taken id. */
  ghost function Collisions(w: World, call: nat): nat {
    if call in w.log.calls then w.log.calls[call].collisions else 0
  }

  /** The part of a call's record the loop keeps in step with its own variables. */
  ghost predicate AtTop(w: World, v: World, call: nat, service: Service, input: Input, attempt: nat) {
    && call in v.log.calls && v.log.calls[call].service == service && v.log.calls[call].input == input
    && v.log.calls[call].attempt == attempt && v.log.calls[call].pc.Reading?
    && v.log.calls[call].began == |ChannelLog(w.log.messages, input.channel)|
  }

  lemma FailedOutcome(w: World, v: World, call: nat, input: Input, f: Failure)
    requires Reachable(v) && call in v.log.calls && v.log.calls[call].input == input
    requires v.log.calls[call].pc == Failed(f)
    ensures Outcome(w, v, call, input, Err(f))
  {
    ReachableInv(v);
    forall m | m in v.log.messages ensures m.call != call {
      assert Signed(v.log, m);
    }
  }

  lemma StoredOutcome(w: World, v: World, call: nat, input: Input, m: Message)
    requires Reachable(v) && m in v.log.messages && m.call == call && m.input == input
    requires call in v.log.calls && v.log.calls[call].began == |ChannelLog(w.log.messages, input.channel)|
    ensures Outcome(w, v, call, input, Ok(m))
  {
    ReachableInv(v);
    assert Signed(v.log, m);
    RowInLog(v.log.messages, m);
  }

  /** A chat step of this process leaves rows, replicas and clock alone. */
  lemma OwnChat(w: World, c: ChatAction, replicas: set<nat>, quiet: bool)
    requires Reachable(w)
    ensures Interfered(w, Step(w, Chat(c)), {}, replicas, quiet)
  {
    ForeignChat(w, c, {}, replicas, quiet);
  }

  /** Waiting does not move this process. */
  lemma AtTopWaits(start: World, w: World, v: World, call: nat, service: Service, input: Input, attempt: nat,
                   replicas: set<nat>, quiet: bool)
    requires AtTop(start, w, call, service, input, attempt)
    requires Interfered(start, w, {}, replicas, quiet) && Interfered(w, v, {call}, replicas, quiet)
    ensures AtTop(start, v, call, service, input, attempt) && Interfered(start, v, {}, replicas, quiet)
    ensures Collisions(v, call) == Collisions(w, call)
  {
    assert call in {call};
  }

  /** After its read, the call holds the number it is going to insert. */
  ghost predicate Holding(start: World, v: World, call: nat, service: Service, input: Input, attempt: nat, sequence: nat) {
    && call in v.log.calls && v.log.calls[call].service == service && v.log.calls[call].input == input
    && v.log.calls[call].attempt == attempt && v.log.calls[call].pc == Inserting(sequence)
    && v.log.calls[call].began == |ChannelLog(start.log.messages, input.channel)|
  }

  lemma ReadHolds(start: World, w: World, call: nat, service: Service, input: Input, attempt: nat)
    requires AtTop(start, w, call, service, input, attempt)
    ensures Holding(start, Step(w, Chat(Query(call))), call, service, input, attempt,
                    Latest(w.log.messages, input.channel) + 1)
    ensures Collisions(Step(w, Chat(Query(call))), call) == Collisions(w, call)
  {
  }

  lemma HoldingWaits(start: World, w: World, v: World, call: nat, service: Service, input: Input, attempt: nat,
                     sequence: nat, replicas: set<nat>, quiet: bool)
    requires Holding(start, w, call, service, input, attempt, sequence)
    requires Interfered(start, w, {}, replicas, quiet) && Interfered(w, v, {call}, replicas, quiet)
    ensures Holding(start, v, call, service, input, attempt, sequence) && Interfered(start, v, {}, replicas, quiet)
    ensures Collisions(v, call) == Collisions(w, call)
  {
    assert call in {call};
  }

  /** The state of a call whose attempt raised e. */
  ghost predicate AfterFailure(start: World, v: World, call: nat, service: Service, input: Input, attempt: nat, e: PrismaError) {
    if Retryable(service, e) && attempt + 1 < Budget(service) then
      AtTop(start, v, call, service, input, attempt + 1)
    else
      Spent(start, v, call, input, if Retryable(service, e) && service.Messaging? then Unallocated else Raised(e)) &&
      (Retryable(service, e) ==> UsedUp(v, call, service))
  }

  ghost predicate Spent(start: World, v: World, call: nat, input: Input, f: Failure) {
    call in v.log.calls && v.log.calls[call].pc == Failed(f) && v.log.calls[call].input == input &&
    v.log.calls[call].began == |ChannelLog(start.log.messages, input.channel)|
  }

  ghost predicate UsedUp(v: World, call: nat, service: Service) {
    call in v.log.calls && v.log.calls[call].service == service && v.log.calls[call].attempt == Budget(service)
  }

  lemma ForeignIsNotRetried(service: Service)
    ensures !Retryable(service, Foreign)
  {
  }

  /** A call of this process that is not over. */
  ghost predicate AtWork(start: World, w: World, call: nat, input: Input) {
    && call in w.log.calls && w.log.calls[call].input == input && Running(w.log.calls[call])
    && w.log.calls[call].began == |ChannelLog(start.log.messages, input.channel)|
  }

  lemma AbortResult(start: World, w: World, call: nat, input: Input)
    requires AtWork(start, w, call, input)
    ensures Spent(start, Step(w, Chat(Abort(call))), call, input, Raised(Foreign))
    ensures Collisions(Step(w, Chat(Abort(call))), call) == Collisions(w, call)
  {
  }

  lemma AttemptsLeft(w: World, call: nat)
    requires Reachable(w) && call in w.log.calls && Running(w.log.calls[call])
    ensures w.log.calls[call].attempt < Budget(w.log.calls[call].service)
  {
    ReachableInv(w);
    assert CallInv(w.log.messages, call, w.log.calls[call]);
  }

  /** The insert, as the machine sees it. */
  lemma InsertResult(start: World, w: World, call: nat, service: Service, input: Input, attempt: nat,
                     sequence: nat, id: nat)
    requires Reachable(w) && Holding(start, w, call, service, input, attempt, sequence)
    ensures var v := Step(w, Chat(Store(call, id)));
            match TryCreate(w.log.messages, Message(id, call, input, sequence, w.clock))
            case Ok(m) => m in v.log.messages && m.call == call && m.input == input &&
                          call in v.log.calls && v.log.calls[call].began == |ChannelLog(start.log.messages, input.channel)|
            case Err(e) => AfterFailure(start, v, call, service, input, attempt, e) &&
                           Collisions(v, call) <= Collisions(w, call) + if e == ID_TAKEN then 1 else 0
  {
    AttemptsLeft(w, call);
    Classification();
  }

  lemma OwnStep(start: World, w: World, c: ChatAction, replicas: set<nat>, quiet: bool)
    requires Interfered(start, w, {}, replicas, quiet)
    ensures Interfered(start, Step(w, Chat(c)), {}, replicas, quiet)
  {
    OwnChat(w, c, replicas, quiet);
    InterferedTransitive(start, w, Step(w, Chat(c)), {}, replicas, quiet);
  }

  lemma ReadStep(start: World, w: World, call: nat, service: Service, input: Input, attempt: nat, replicas: set<nat>, quiet: bool)
    requires AtTop(start, w, call, service, input, attempt) && Interfered(start, w, {}, replicas, quiet)
    ensures var v := Step(w, Chat(Query(call)));
            Holding(start, v, call, service, input, attempt, Latest(w.log.messages, input.channel) + 1) &&
            Interfered(start, v, {}, replicas, quiet) && Collisions(v, call) == Collisions(w, call)
  {
    ReadHolds(start, w, call, service, input, attempt);
    OwnStep(start, w, Query(call), replicas, quiet);
  }

  lemma InsertOutcome(start: World, w: World, call: nat, service: Service, input: Input, attempt: nat, sequence: nat, id: nat)
    requires Reachable(w) && Holding(start, w, call, service, input, attempt, sequence)
    ensures var v := Step(w, Chat(Store(call, id)));
            match TryCreate(w.log.messages, Message(id, call, input, sequence, w.clock))
            case Ok(m) => Outcome(start, v, call, input, Ok(m))
            case Err(e) => AfterFailure(start, v, call, service, input, attempt, e) &&
                           Collisions(v, call) <= Collisions(w, call) + if e == ID_TAKEN then 1 else 0
  {
    InsertResult(start, w, call, service, input, attempt, sequence, id);
    ReachableStep(w, Chat(Store(call, id)));
    var made := TryCreate(w.log.messages, Message(id, call, input, sequence, w.clock));
    if made.Ok? {
      StoredOutcome(start, Step(w, Chat(Store(call, id))), call, input, made.value);
    }
  }

  /** Others have their turn before the read. */
  method WaitAtTop(db: Database, ghost start: World, call: nat, ghost service: Service, ghost input: Input,
                   ghost attempt: nat, replicas: set<nat>)
    requires AtTop(start, db.world, call, service, input, attempt) && Interfered(start, db.world, {}, replicas, db.quiet)
    modifies db`world
    ensures AtTop(start, db.world, call, service, input, attempt)
    ensures Interfered(start, db.world, {}, replicas, db.quiet)
    ensures Collisions(db.world, call) == Collisions(old(db.world), call)
  {
    ghost var before := db.world;
    db.Others({call}, replicas);
    AtTopWaits(start, before, db.world, call, service, input, attempt, replicas, db.quiet);
  }

  /** The read of one attempt: findFirst, plus one. */
  method ReadNext(db: Database, ghost start: World, call: nat, ghost service: Service, ghost input: Input,
                  ghost attempt: nat, replicas: set<nat>)
    returns (sequence: nat)
    requires AtTop(start, db.world, call, service, input, attempt) && Interfered(start, db.world, {}, replicas, db.quiet)
    modifies db`world
    ensures Holding(start, db.world, call, service, input, attempt, sequence)
    ensures Interfered(start, db.world, {}, replicas, db.quiet)
    ensures Collisions(db.world, call) == Collisions(old(db.world), call)
  {
    WaitAtTop(db, start, call, service, input, attempt, replicas);
    ReadStep(start, db.world, call, service, input, attempt, replicas, db.quiet);
    var latest := db.FindLatest(call);
    sequence := latest + 1;
  }

  /** Others have their turn between the read and the insert. */
  method WaitHolding(db: Database, ghost start: World, call: nat, ghost service: Service, ghost input: Input,
                     ghost attempt: nat, ghost sequence: nat, replicas: set<nat>)
    requires Holding(start, db.world, call, service, input, attempt, sequence)
    requires Interfered(start, db.world, {}, replicas, db.quiet)
    modifies db`world
    ensures Holding(start, db.world, call, service, input, attempt, sequence)
    ensures Interfered(start, db.world, {}, replicas, db.quiet)
    ensures Collisions(db.world, call) == Collisions(old(db.world), call)
  {
    ghost var before := db.world;
    db.Others({call}, replicas);
    HoldingWaits(start, before, db.world, call, service, input, attempt, sequence, replicas, db.quiet);
  }

  /** What an attempt came to, and what the database has counted for it. */
  ghost predicate Counted(made: Result<Message, PrismaError>, outages: int, takenIds: int) {
    outages == (if made == Err(Foreign) then 1 else 0) && takenIds == (if made == Err(ID_TAKEN) then 1 else 0) &&
    (made.Err? ==> made.error in {Foreign, ID_TAKEN, SEQUENCE_TAKEN})
  }

  /** The insert of one attempt. */
  method InsertNumber(db: Database, ghost start: World, call: nat, ghost service: Service, input: Input,
                      ghost attempt: nat, sequence: nat, replicas: set<nat>)
    returns (made: Result<Message, PrismaError>)
    requires Holding(start, db.world, call, service, input, attempt, sequence)
    requires Interfered(start, db.world, {}, replicas, db.quiet)
    modifies db`world, db`takenIds
    ensures Interfered(start, db.world, {}, replicas, db.quiet)
    ensures match made
            case Ok(m) => Outcome(start, db.world, call, input, Ok(m))
            case Err(e) => AfterFailure(start, db.world, call, service, input, attempt, e) &&
                           Collisions(db.world, call) <= Collisions(old(db.world), call) + (db.takenIds - old(db.takenIds))
    ensures Counted(made, 0, db.takenIds - old(db.takenIds))
  {
    WaitHolding(db, start, call, service, input, attempt, sequence, replicas);
    ghost var before := db.world;
    ghost var id;
    made, id := db.CreateMessage(call, input, sequence);
    InsertOutcome(start, before, call, service, input, attempt, sequence, id);
    OwnStep(start, before, Store(call, id), replicas, db.quiet);
  }

  /** A round trip has failed with some other error: the call ends with it. */
  method GiveUp(db: Database, ghost start: World, call: nat, ghost input: Input, ghost replicas: set<nat>)
    requires AtWork(start, db.world, call, input) && Interfered(start, db.world, {}, replicas, db.quiet)
    modifies db`world
    ensures Interfered(start, db.world, {}, replicas, db.quiet)
    ensures Spent(start, db.world, call, input, Raised(Foreign))
    ensures Collisions(db.world, call) == Collisions(old(db.world), call)
  {
    OwnStep(start, db.world, Abort(call), replicas, db.quiet);
    AbortResult(start, db.world, call, input);
    db.Perform(Chat(Abort(call)));
  }

  /** One attempt of either loop: read the latest sequence, then insert the next one; either may fail. */
  method TryOnce(db: Database, ghost start: World, call: nat, ghost service: Service, input: Input, ghost attempt: nat,
                 replicas: set<nat>)
    returns (made: Result<Message, PrismaError>)
    requires AtTop(start, db.world, call, service, input, attempt)
    requires Interfered(start, db.world, {}, replicas, db.quiet)
    modifies db`world, db`outages, db`takenIds
    ensures Interfered(start, db.world, {}, replicas, db.quiet)
    ensures match made
            case Ok(m) => Outcome(start, db.world, call, input, Ok(m))
            case Err(e) => AfterFailure(start, db.world, call, service, input, attempt, e) &&
                           Collisions(db.world, call) <= Collisions(old(db.world), call) + (db.takenIds - old(db.takenIds))
    ensures Counted(made, db.outages - old(db.outages), db.takenIds - old(db.takenIds))
  {
    ForeignIsNotRetried(service);
    var broken := db.Fails();
    if broken {
      GiveUp(db, start, call, input, replicas);
      return Err(Foreign);
    }
    var sequence := ReadNext(db, start, call, service, input, attempt, replicas);
    broken := db.Fails();
    if broken {
      GiveUp(db, start, call, input, replicas);
      return Err(Foreign);
    }
    made := InsertNumber(db, start, call, service, input, attempt, sequence, replicas);
  }

  /** The rows by others that giving up implies: one for each attempt that did not meet a taken id. */
  ghost predicate Contended(start: World, v: World, call: nat, input: Input, budget: nat) {
    call in v.log.calls &&
    |ChannelLog(v.log.messages, input.channel)| + v.log.calls[call].collisions
      >= |ChannelLog(start.log.messages, input.channel)| + budget
  }

  lemma SpentMeansContention(start: World, v: World, call: nat, service: Service, input: Input, f: Failure)
    requires Reachable(v) && Spent(start, v, call, input, f) && UsedUp(v, call, service)
    ensures Contended(start, v, call, input, Budget(service))
    ensures service.Messaging? ==> v.log.calls[call].collisions == 0
  {
    ReachableInv(v);
    assert CallInv(v.log.messages, call, v.log.calls[call]);
    var _ := ConflictsAreCharged(v.log, call);
  }

  /** How many rows the channel has gained. */
  ghost function Gained(w: World, v: World, channel: nat): int {
    |ChannelLog(v.log.messages, channel)| - |ChannelLog(w.log.messages, channel)|
  }

  /**
   createMessageWithSequence. It fails with a foreign error iff a round trip failed, with a taken
   id iff one was generated, and otherwise only after six rows of others: it retries.
   */
  method CreateMessageWithSequence(db: Database, call: nat, input: Input, replicas: set<nat>)
    returns (r: Result<Message, Failure>)
    requires Reachable(db.world) && JustBegun(db.world, call, Messaging, input)
    modifies db`world, db`outages, db`takenIds
    ensures Interfered(old(db.world), db.world, {}, replicas, db.quiet)
    ensures Outcome(old(db.world), db.world, call, input, r)
    ensures db.outages == old(db.outages) + if r == Err(Raised(Foreign)) then 1 else 0
    ensures db.takenIds == old(db.takenIds) + if r == Err(Raised(ID_TAKEN)) then 1 else 0
    ensures r.Err? && r.error.Raised? ==> r.error.error in {Foreign, ID_TAKEN}
    ensures r == Err(Unallocated) ==> Gained(old(db.world), db.world, input.channel) >= 6
  {
    ghost var start := db.world;
    ghost var outages, takenIds := db.outages, db.takenIds;
    var attempt := 0;
    while attempt < 6
      invariant 0 <= attempt <= 6
      invariant Interfered(start, db.world, {}, replicas, db.quiet)
      invariant db.outages == outages && db.takenIds == takenIds
      invariant attempt < 6 ==> AtTop(start, db.world, call, Messaging, input, attempt)
      invariant attempt == 6 ==> Spent(start, db.world, call, input, Unallocated) && UsedUp(db.world, call, Messaging)
    {
      var made := TryOnce(db, start, call, Messaging, input, attempt, replicas);
      Classification();
      match made {
        case Ok(m) => return Ok(m);
        case Err(e) =>
          if !IsMessageSequenceConflict(e) {
            FailedOutcome(start, db.world, call, input, Raised(e));
            return Err(Raised(e));
          }
      }
      attempt := attempt + 1;
    }
    FailedOutcome(start, db.world, call, input, Unallocated);
    SpentMeansContention(start, db.world, call, Messaging, input, Unallocated);
    return Err(Unallocated);
  }

  /**
   createBotMessageWithRetry: attempts 1 to 5, the last error is rethrown. It fails with a foreign
   error iff a round trip failed, and otherwise only after five rows of others or taken ids.
   */
  method CreateBotMessageWithRetry(db: Database, call: nat, input: Input)
    returns (r: Result<Message, Failure>)
    requires Reachable(db.world) && JustBegun(db.world, call, Bots, input)
    modifies db`world, db`outages, db`takenIds
    ensures Reachable(db.world) && Extends(old(db.world), db.world)
    ensures Outcome(old(db.world), db.world, call, input, r)
    ensures db.outages == old(db.outages) + if r == Err(Raised(Foreign)) then 1 else 0
    ensures r.Err? ==> r.error.Raised? && r.error.error in {Foreign, ID_TAKEN, SEQUENCE_TAKEN}
    ensures r.Err? && r.error != Raised(Foreign) ==>
              Gained(old(db.world), db.world, input.channel) + (db.takenIds - old(db.takenIds)) >= 5
  {
    ghost var start := db.world;
    ghost var outages, takenIds := db.outages, db.takenIds;
    var attempt := 1;
    while attempt <= 5
      invariant 1 <= attempt <= 5
      invariant Interfered(start, db.world, {}, {}, db.quiet)
      invariant db.outages == outages && Collisions(db.world, call) <= db.takenIds - takenIds
      invariant AtTop(start, db.world, call, Bots, input, attempt - 1)
    {
      var made := TryOnce(db, start, call, Bots, input, attempt - 1, {});
      Classification();
      match made {
        case Ok(m) => return Ok(m);
        case Err(e) =>
          if !IsUniqueViolation(e) || attempt == 5 {
            if IsUniqueViolation(e) {
              SpentMeansContention(start, db.world, call, Bots, input, Raised(e));
            }
            FailedOutcome(start, db.world, call, input, Raised(e));
            return Err(Raised(e));
          }
      }
      attempt := attempt + 1;
    }
    assert false;
    return Err(Unallocated);
  }
}
