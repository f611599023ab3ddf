/** processDueScheduledMessages of one replica, and how fast ticks drain the due rows. */
module Dispatcher {
  import opened Prelude
  import opened MessageLog
  import opened Messaging
  import opened MessagingInvariant
  import opened SchedulerTheorems
  import opened Services

  /** Only row s differs, and only in its status and sentMessageId. */
  ghost predicate OnlyRow(w: World, v: World, s: nat) {
    && v.rows.Keys == w.rows.Keys
    && (forall t :: t in w.rows && t != s ==> v.rows[t] == w.rows[t])
  }

  /** The call that delivered row s gave up after losing six numbers to others. */
  ghost predicate GaveUp(l: Log, s: nat) {
    exists k :: CallFor(l, k, s) && l.calls[k].pc == Failed(Unallocated)
  }

  /**
   A row the dispatcher is through with: SENT and naming its own stored message, or FAILED, and
   then something went wrong or the allocation gave up.
   */
  ghost predicate Closed(v: World, s: nat, mishap: bool) {
    s in v.rows &&
    match v.rows[s].status
    case SENT => v.rows[s].sentMessageId.Some? && MessageFor(v.log, v.rows[s].sentMessageId.value, s)
    case FAILED => mishap || GaveUp(v.log, s)
    case _ => false
  }

  /** The first i rows of the batch are closed; every other row is as it was. */
  ghost predicate Progress(w: World, v: World, batch: seq<nat>, i: nat, mishap: bool)
    requires i <= |batch|
  {
    && v.rows.Keys == w.rows.Keys
    && (forall s :: s in w.rows ==> if s in batch[..i] then Closed(v, s, mishap) else v.rows[s] == w.rows[s])
  }

  /** A quiet tick closes the batch that was due when it looked, and touches nothing else; the clock moves on. */
  ghost predicate TickEffect(w: World, v: World, mishap: bool) {
    Extends(w, v) &&
    exists now: nat, batch: seq<nat> {:trigger IsBatch(w.(clock := now), batch)} ::
      w.clock <= now <= v.clock && IsBatch(w.(clock := now), batch) && Progress(w, v, batch, |batch|, mishap)
  }

  lemma ClosedStays(u: World, v: World, s: nat, before: bool, mishap: bool)
    requires Closed(u, s, before) && Extends(u, v) && s in v.rows && v.rows[s] == u.rows[s] && (before ==> mishap)
    ensures Closed(v, s, mishap)
  {
    MessagesStay(u.log, v.log);
    GaveUpStays(u, v, s);
  }

  class MessagingService {
    const db: Database
    const me: nat
    var schedulerTickInFlight: bool

    /** The flag is set exactly while this replica's dispatcher is at work. */
    ghost predicate Valid()
      reads this, db
    {
      Reachable(db.world) && (schedulerTickInFlight <==> !StageOf(db.world, me).Idle?)
    }

    constructor (db: Database, me: nat)
      requires Reachable(db.world) && StageOf(db.world, me).Idle?
      ensures Valid() && this.db == db && this.me == me && !schedulerTickInFlight
    {
      this.db := db;
      this.me := me;
      schedulerTickInFlight := false;
    }

    /** One step of this replica's dispatcher. */
    method Do(a: DispatchAction)
      requires Reachable(db.world)
      modifies db`world
      ensures db.world == Step(old(db.world), Dispatch(me, a)) && Reachable(db.world) && Extends(old(db.world), db.world)
    {
      db.Perform(Dispatch(me, a));
    }

    /** Loads the claimed row, checks its author's access and its thread, and begins the call. */
    method StartDelivery(s: nat, ghost rest: seq<nat>) returns (call: Option<nat>)
      requires Reachable(db.world) && ReplicaOf(db.world, me) == Replica(Claimed(s), rest)
      modifies db
      ensures Interfered(old(db.world), db.world, {}, {}, db.quiet)
      ensures match call
              case Some(k) => ReplicaOf(db.world, me) == Replica(Waiting(s, k), rest) &&
                              k in db.world.log.calls && JustBegun(db.world, k, Messaging, db.world.log.calls[k].input)
              case None => ReplicaOf(db.world, me) == Replica(Failing(s), rest)
      ensures db.Mishaps() == old(db.Mishaps()) + if call.None? then 1 else 0
    {
      ghost var start := db.world;
      db.Others({}, {me});
      assert ReplicaOf(db.world, me) == Replica(Claimed(s), rest) by { assert me in {me}; }
      ghost var bound := FreshNat(db.world.log.calls.Keys);
      assert bound !in db.world.log.calls;
      var k: nat :| k !in db.world.log.calls;
      var refused := db.Refuses();
      LoadResult(db.world, me, s, rest, k, !refused);
      Do(Load(k, !refused));
      return if refused then None else Some(k);
    }

    /**
     Delivery: sequenced insert, then notifications, which may throw after the insert. It comes
     back with a message unless something goes wrong or the allocation gives up.
     */
    method DeliverScheduledMessage(s: nat, ghost rest: seq<nat>) returns (sent: Option<nat>)
      requires Reachable(db.world) && ReplicaOf(db.world, me) == Replica(Claimed(s), rest)
      modifies db
      ensures Interfered(old(db.world), db.world, {}, {}, db.quiet)
      ensures match sent
              case Some(id) => ReplicaOf(db.world, me) == Replica(Marking(s, id), rest) && db.Mishaps() == old(db.Mishaps())
              case None => ReplicaOf(db.world, me) == Replica(Failing(s), rest) && db.Mishaps() >= old(db.Mishaps()) &&
                           (db.Mishaps() > old(db.Mishaps()) || GaveUp(db.world.log, s))
    {
      var call := StartDelivery(s, rest);
      if call.None? {
        return None;
      }
      var r := InsertMessage(call.value, s, rest);
      if r.Err? {
        return None;
      }
      sent := SendNotifications(s, r.value.id, rest);
    }

    /** The notifications of a stored message. */
    method SendNotifications(s: nat, id: nat, ghost rest: seq<nat>) returns (sent: Option<nat>)
      requires Reachable(db.world) && ReplicaOf(db.world, me) == Replica(Notifying(s, id), rest)
      modifies db
      ensures Interfered(old(db.world), db.world, {}, {}, db.quiet) && sent in {None, Some(id)}
      ensures ReplicaOf(db.world, me) == Replica(if sent.Some? then Marking(s, id) else Failing(s), rest)
      ensures db.Mishaps() == old(db.Mishaps()) + if sent.None? then 1 else 0
    {
      var thrown := db.Refuses();
      NotifyResult(db.world, me, s, id, rest, !thrown);
      NotifyInterferes(db.world, me, !thrown, db.quiet);
      Do(Notify(!thrown));
      return if thrown then None else Some(id);
    }

    /** The call of createMessageWithSequence inside a delivery, up to its return. */
    method InsertMessage(call: nat, ghost s: nat, ghost rest: seq<nat>) returns (r: Result<Message, Failure>)
      requires Reachable(db.world) && ReplicaOf(db.world, me) == Replica(Waiting(s, call), rest)
      requires call in db.world.log.calls && JustBegun(db.world, call, Messaging, db.world.log.calls[call].input)
      modifies db
      ensures Interfered(old(db.world), db.world, {}, {}, db.quiet)
      ensures ReplicaOf(db.world, me) == Replica(if r.Ok? then Notifying(s, r.value.id) else Failing(s), rest)
      ensures db.Mishaps() == old(db.Mishaps()) + if r.Err? && r.error.Raised? then 1 else 0
      ensures r == Err(Unallocated) ==> GaveUp(db.world.log, s)
    {
      ghost var begun := db.world;
      var input := db.world.log.calls[call].input;
      r := CreateMessageWithSequence(db, call, input, {me});
      assert ReplicaOf(db.world, me) == ReplicaOf(begun, me) by { assert me in {me}; }
      CollectResult(begun, db.world, me, s, call, rest, input, r);
      Do(Collect);
    }

    /** The body of the loop after a successful claim. */
    method SettleRow(s: nat, ghost rest: seq<nat>)
      requires Reachable(db.world) && ReplicaOf(db.world, me) == Replica(Claimed(s), rest)
      modifies db
      ensures Reachable(db.world) && ReplicaOf(db.world, me) == Replica(Looping, rest)
      ensures Extends(old(db.world), db.world) && db.Mishaps() >= old(db.Mishaps())
      ensures Closed(db.world, s, db.Mishaps() > old(db.Mishaps()))
      ensures db.quiet ==> OnlyRow(old(db.world), db.world, s)
    {
      ghost var start := db.world;
      var sent := DeliverScheduledMessage(s, rest);
      ghost var delivered := db.world;
      Await();
      GaveUpStays(delivered, db.world, s);
      ghost var waited := db.world;
      var marked := CloseRow(s, rest, sent);
      ExtendsTransitive(start, delivered, waited);
      ExtendsTransitive(start, waited, db.world);
      if !marked {
        StillGaveUp(waited, db.world, s);
      }
    }

    /** Others have their turn; this replica stays where it is. */
    method Await()
      requires Reachable(db.world)
      modifies db`world
      ensures Interfered(old(db.world), db.world, {}, {}, db.quiet) && ReplicaOf(db.world, me) == ReplicaOf(old(db.world), me)
    {
      ghost var before := db.world;
      db.Others({}, {me});
      assert ReplicaOf(db.world, me) == ReplicaOf(before, me) by { assert me in {me}; }
    }

    /**
     SENT with the message's id, unless that update throws; FAILED then, and when there is no
     message to name. Either overwrites whatever status the row has by then.
     */
    method CloseRow(s: nat, ghost rest: seq<nat>, sent: Option<nat>) returns (marked: bool)
      requires Reachable(db.world)
      requires ReplicaOf(db.world, me) == Replica(if sent.Some? then Marking(s, sent.value) else Failing(s), rest)
      modifies db
      ensures Reachable(db.world) && Extends(old(db.world), db.world) && OnlyRow(old(db.world), db.world, s)
      ensures db.world.log == old(db.world).log
      ensures ReplicaOf(db.world, me) == Replica(Looping, rest)
      ensures s in db.world.rows && db.world.rows[s].status == (if marked then SENT else FAILED)
      ensures marked ==> sent.Some? && db.world.rows[s].sentMessageId == sent && MessageFor(db.world.log, sent.value, s)
      ensures db.Mishaps() == old(db.Mishaps()) + if sent.Some? && !marked then 1 else 0
      ensures db.quiet ==> (marked <==> sent.Some?)
    {
      marked := sent.Some?;
      if sent.Some? {
        var outage := db.Outage();
        marked := !outage;
      }
      if marked {
        ghost var m := HeldMessage(db.world, me);
        MarkResult(db.world, me, s, sent.value, rest);
        Do(Mark);
      } else {
        if sent.Some? {
          MarkBrokenResult(db.world, me, s, sent.value, rest);
          Do(MarkBroken);
        }
        MarkFailedResult(db.world, me, s, rest);
        Do(MarkFailed);
      }
    }

    /** The conditional update PENDING to PROCESSING. */
    method ClaimRow(s: nat, ghost rest: seq<nat>) returns (claimed: bool)
      requires Reachable(db.world) && ReplicaOf(db.world, me) == Replica(Looping, [s] + rest)
      modifies db`world
      ensures Reachable(db.world) && Extends(old(db.world), db.world) && OnlyRow(old(db.world), db.world, s)
      ensures claimed <==> s in old(db.world).rows && old(db.world).rows[s].status == PENDING
      ensures ReplicaOf(db.world, me) == Replica(if claimed then Claimed(s) else Looping, rest)
      ensures !claimed ==> db.world.rows == old(db.world).rows
    {
      claimed := s in db.world.rows && db.world.rows[s].status == PENDING;
      ClaimResult(db.world, me, s, rest);
      Do(Claim);
    }

    /** The due rows in sendAt order, at most twenty; ties fall any way. The query may fail. */
    method FindDue() returns (due: Option<seq<nat>>)
      requires Reachable(db.world) && StageOf(db.world, me).Idle?
      modifies db
      ensures Reachable(db.world) && Extends(old(db.world), db.world)
      ensures match due
              case Some(batch) => ReplicaOf(db.world, me) == Replica(Looping, batch) && IsBatch(db.world, batch)
              case None => StageOf(db.world, me).Idle?
      ensures db.Mishaps() == old(db.Mishaps()) + if due.None? then 1 else 0
      ensures db.quiet ==> due.Some?
      ensures db.quiet ==> db.world.rows == old(db.world).rows
    {
      ghost var before := db.world;
      db.Others({}, {me});
      assert ReplicaOf(db.world, me) == ReplicaOf(before, me) by { assert me in {me}; }
      var outage := db.Outage();
      if outage {
        return None;
      }
      var batch := EarliestDue();
      TickStarts(db.world, me, batch);
      Do(StartTick(batch));
      return Some(batch);
    }

    /** What the query returns. */
    method EarliestDue() returns (batch: seq<nat>)
      ensures IsBatch(db.world, batch)
    {
      var w := db.world;
      batch := [];
      var left := set s | s in w.rows && Due(w, s);
      while |batch| < BATCH && left != {}
        invariant db.world == w && |batch| <= BATCH
        invariant forall s :: s in left ==> Due(w, s) && s !in batch
        invariant forall s :: s in w.rows && Due(w, s) ==> s in left || s in batch
        invariant forall i :: 0 <= i < |batch| ==> Due(w, batch[i])
        invariant forall i, j :: 0 <= i < j < |batch| ==>
                    batch[i] != batch[j] && w.rows[batch[i]].sendAt <= w.rows[batch[j]].sendAt
        invariant forall b, s :: b in batch && s in left ==> w.rows[b].sendAt <= w.rows[s].sendAt
        decreases BATCH - |batch|
      {
        assert forall s :: s in left ==> s in w.rows;
        ghost var least := EarliestExists(w, left);
        var next :| next in left && forall s :: s in left ==> w.rows[next].sendAt <= w.rows[s].sendAt;
        batch := batch + [next];
        left := left - {next};
      }
    }

    /** One turn of the loop: the claim and, if it succeeds, delivery and the final update. */
    method HandleRow(s: nat, ghost rest: seq<nat>)
      requires Reachable(db.world) && ReplicaOf(db.world, me) == Replica(Looping, [s] + rest)
      modifies db
      ensures Reachable(db.world) && Extends(old(db.world), db.world)
      ensures ReplicaOf(db.world, me) == Replica(Looping, rest)
      ensures db.Mishaps() >= old(db.Mishaps())
      ensures db.quiet ==> Handled(old(db.world), db.world, s, db.Mishaps() > old(db.Mishaps()))
    {
      var claimed := ClaimRow(s, rest);
      if claimed {
        SettleRow(s, rest);
      }
    }

    /** The others' turn, then ours; an outage throws out of the loop and frees the flag's stage. */
    method Turn(s: nat, ghost rest: seq<nat>) returns (outage: bool)
      requires Reachable(db.world) && ReplicaOf(db.world, me) == Replica(Looping, [s] + rest)
      modifies db
      ensures Reachable(db.world) && Extends(old(db.world), db.world)
      ensures if outage then StageOf(db.world, me).Idle? else ReplicaOf(db.world, me) == Replica(Looping, rest)
      ensures db.Mishaps() >= old(db.Mishaps()) && (outage ==> db.Mishaps() > old(db.Mishaps()))
      ensures db.quiet ==> !outage && Handled(old(db.world), db.world, s, db.Mishaps() > old(db.Mishaps()))
    {
      ghost var before := db.world;
      db.Others({}, {me});
      assert ReplicaOf(db.world, me) == ReplicaOf(before, me) by { assert me in {me}; }
      outage := db.Outage();
      if outage {
        CrashResult(db.world, me);
        Do(Crash);
      } else {
        HandleRow(s, rest);
      }
    }

    /** One turn, seen from the start of the loop. */
    method NextTurn(ghost start: World, ghost mishaps: nat, due: seq<nat>, i: nat) returns (outage: bool)
      requires i < |due| && Reachable(db.world) && Extends(start, db.world) && db.Mishaps() >= mishaps
      requires ReplicaOf(db.world, me) == Replica(Looping, [due[i]] + due[i + 1..])
      requires db.quiet ==> IsBatch(start, due) && Progress(start, db.world, due, i, db.Mishaps() > mishaps)
      modifies db
      ensures Reachable(db.world) && Extends(start, db.world) && db.Mishaps() >= mishaps
      ensures outage ==> db.Mishaps() > mishaps
      ensures if outage then StageOf(db.world, me).Idle? else ReplicaOf(db.world, me) == Replica(Looping, due[i + 1..])
      ensures db.quiet ==> !outage && Progress(start, db.world, due, i + 1, db.Mishaps() > mishaps)
    {
      ghost var top, before := db.world, db.Mishaps();
      outage := Turn(due[i], due[i + 1..]);
      ExtendsTransitive(start, top, db.world);
      if db.quiet {
        ProgressOne(start, top, db.world, due, i, before > mishaps, db.Mishaps() > before, db.Mishaps() > mishaps);
      }
    }

    /** The loop over the batch; an outage leaves it in the middle. */
    method HandleAll(due: seq<nat>) returns (outage: bool)
      requires Reachable(db.world) && ReplicaOf(db.world, me) == Replica(Looping, due)
      requires db.quiet ==> IsBatch(db.world, due)
      modifies db
      ensures Reachable(db.world) && Extends(old(db.world), db.world) && db.Mishaps() >= old(db.Mishaps())
      ensures outage ==> db.Mishaps() > old(db.Mishaps())
      ensures if outage then StageOf(db.world, me).Idle? else ReplicaOf(db.world, me) == Replica(Looping, [])
      ensures db.quiet ==> !outage && Progress(old(db.world), db.world, due, |due|, db.Mishaps() > old(db.Mishaps()))
    {
      ghost var start, mishaps := db.world, db.Mishaps();
      var i := 0;
      while i < |due|
        invariant 0 <= i <= |due|
        invariant Reachable(db.world) && Extends(start, db.world) && db.Mishaps() >= mishaps
        invariant ReplicaOf(db.world, me) == Replica(Looping, due[i..])
        invariant db.quiet ==> Progress(start, db.world, due, i, db.Mishaps() > mishaps)
      {
        assert due[i..] == [due[i]] + due[i + 1..];
        outage := NextTurn(start, mishaps, due, i);
        if outage {
          return;
        }
        i := i + 1;
      }
      outage := false;
    }

    /**
     One tick. A tick that finds the flag set does nothing; any other runs to its end and
     leaves the flag clear, even when the database fails in the middle.
     */
    method ProcessDueScheduledMessages()
      requires Valid()
      modifies this, db
      ensures Valid() && Extends(old(db.world), db.world)
      ensures old(schedulerTickInFlight) ==> schedulerTickInFlight && db.world == old(db.world)
      ensures !old(schedulerTickInFlight) ==> !schedulerTickInFlight
      ensures db.Mishaps() >= old(db.Mishaps())
      ensures !old(schedulerTickInFlight) && db.quiet ==>
                TickEffect(old(db.world), db.world, db.Mishaps() > old(db.Mishaps()))
    {
      if schedulerTickInFlight {
        return;
      }
      schedulerTickInFlight := true;
      WorkThroughDue();
      schedulerTickInFlight := false;
    }

    /** What the flag guards: the query and the loop. */
    method WorkThroughDue()
      requires Reachable(db.world) && StageOf(db.world, me).Idle?
      modifies db
      ensures Reachable(db.world) && StageOf(db.world, me).Idle?
      ensures Extends(old(db.world), db.world) && db.Mishaps() >= old(db.Mishaps())
      ensures db.quiet ==> TickEffect(old(db.world), db.world, db.Mishaps() > old(db.Mishaps()))
    {
      ghost var start, mishaps := db.world, db.Mishaps();
      var due := FindDue();
      if due.None? {
        return;
      }
      ghost var found := db.world;
      var outage := HandleAll(due.value);
      if !outage {
        FinishResult(db.world, me);
        Do(Finish);
      }
      ExtendsTransitive(start, found, db.world);
      if db.quiet {
        TickDone(start, found, db.world, due.value, db.Mishaps() > mishaps);
      }
    }
  }

  lemma TickDone(w: World, found: World, v: World, batch: seq<nat>, mishap: bool)
    requires Extends(w, found) && found.rows == w.rows && Extends(found, v)
    requires IsBatch(found, batch) && Progress(found, v, batch, |batch|, mishap)
    ensures TickEffect(w, v, mishap)
  {
    ExtendsTransitive(w, found, v);
    assert IsBatch(w.(clock := found.clock), batch);
  }

  lemma StillGaveUp(u: World, v: World, s: nat)
    requires u.log == v.log
    ensures GaveUp(v.log, s) == GaveUp(u.log, s)
  {
  }

  lemma GaveUpStays(u: World, v: World, s: nat)
    requires Extends(u, v)
    ensures GaveUp(u.log, s) ==> GaveUp(v.log, s)
  {
    if GaveUp(u.log, s) {
      var k :| CallFor(u.log, k, s) && u.log.calls[k].pc == Failed(Unallocated);
      assert CallFor(v.log, k, s) && v.log.calls[k].pc == Failed(Unallocated);
    }
  }

  /** A row that was PENDING is closed; nothing else moved. */
  ghost predicate Handled(w: World, v: World, s: nat, mishap: bool) {
    OnlyRow(w, v, s) &&
    if s in w.rows && w.rows[s].status == PENDING then Closed(v, s, mishap) else v.rows == w.rows
  }

  lemma ExtendsTransitive(u: World, v: World, w: World)
    requires Extends(u, v) && Extends(v, w)
    ensures Extends(u, w)
  {
  }

  lemma CrashResult(w: World, r: nat)
    ensures StageOf(Step(w, Dispatch(r, Crash)), r).Idle?
  {
  }

  lemma FinishResult(w: World, r: nat)
    requires ReplicaOf(w, r) == Replica(Looping, [])
    ensures var v := Step(w, Dispatch(r, Finish));
            StageOf(v, r).Idle? && v.rows == w.rows && v.clock == w.clock
  {
  }

  lemma {:induction false} EarliestExists(w: World, left: set<nat>) returns (s: nat)
    requires left != {} && forall t :: t in left ==> t in w.rows
    ensures s in left && forall t :: t in left ==> w.rows[s].sendAt <= w.rows[t].sendAt
  {
    var x :| x in left;
    if left == {x} {
      s := x;
    } else {
      var y := EarliestExists(w, left - {x});
      s := if w.rows[x].sendAt <= w.rows[y].sendAt then x else y;
      assert forall t :: t in left ==> t == x || t in left - {x};
    }
  }

  lemma TickStarts(w: World, r: nat, batch: seq<nat>)
    requires StageOf(w, r).Idle? && IsBatch(w, batch)
    ensures var v := Step(w, Dispatch(r, StartTick(batch)));
            v.rows == w.rows && v.clock == w.clock && ReplicaOf(v, r) == Replica(Looping, batch)
  {
  }

  lemma ProgressOne(start: World, top: World, v: World, due: seq<nat>, i: nat, before: bool, now: bool, mishap: bool)
    requires IsBatch(start, due) && i < |due| && Progress(start, top, due, i, before) && Handled(top, v, due[i], now)
    requires Extends(top, v) && (before ==> mishap) && (now ==> mishap)
    ensures Progress(start, v, due, i + 1, mishap)
  {
    assert due[..i + 1] == due[..i] + [due[i]];
    assert due[i] !in due[..i];
    assert Due(start, due[i]);
    forall s | s in start.rows
      ensures if s in due[..i + 1] then Closed(v, s, mishap) else v.rows[s] == start.rows[s]
    {
      if s in due[..i] {
        ClosedStays(top, v, s, before, mishap);
      }
    }
  }

  lemma NotifyInterferes(w: World, r: nat, ok: bool, quiet: bool)
    requires Reachable(w)
    ensures Interfered(w, Step(w, Dispatch(r, Notify(ok))), {}, {}, quiet)
  {
    ReachableStep(w, Dispatch(r, Notify(ok)));
    DispatchExtends(w, r, Notify(ok));
  }

  lemma NotifyResult(w: World, r: nat, s: nat, id: nat, rest: seq<nat>, ok: bool)
    requires ReplicaOf(w, r) == Replica(Notifying(s, id), rest)
    ensures var v := Step(w, Dispatch(r, Notify(ok)));
            v.rows == w.rows && v.clock == w.clock &&
            ReplicaOf(v, r) == Replica(if ok then Marking(s, id) else Failing(s), rest)
  {
  }

  lemma ClaimResult(w: World, r: nat, s: nat, rest: seq<nat>)
    requires ReplicaOf(w, r) == Replica(Looping, [s] + rest)
    ensures var v := Step(w, Dispatch(r, Claim));
            var claimed := s in w.rows && w.rows[s].status == PENDING;
            OnlyRow(w, v, s) && ReplicaOf(v, r) == Replica(if claimed then Claimed(s) else Looping, rest) &&
            (!claimed ==> v.rows == w.rows)
  {
    assert ([s] + rest)[1..] == rest;
  }

  /** The unique sentMessageId is never in the way. */
  lemma NeverSentTwice(w: World, r: nat, s: nat, id: nat)
    requires Reachable(w) && StageOf(w, r) == Marking(s, id)
    ensures s in w.rows && !SentTwice(w, s, id)
  {
    ReachableInv(w);
    OwnReplicaOk(w, r);
    var m :| m in w.log.messages && m.id == id && m.input.origin == Schedule(s);
    forall t | t in w.rows && t != s ensures w.rows[t].sentMessageId != Some(id) {
      assert RowOk(w, t);
      if w.rows[t].sentMessageId.Some? {
        var n :| n in w.log.messages && n.id == w.rows[t].sentMessageId.value && n.input.origin == Schedule(t);
        assert n != m;
      }
    }
  }

  lemma MarkResult(w: World, r: nat, s: nat, id: nat, rest: seq<nat>)
    requires Reachable(w) && ReplicaOf(w, r) == Replica(Marking(s, id), rest)
    ensures var v := Step(w, Dispatch(r, Mark));
            OnlyRow(w, v, s) && s in v.rows && v.rows[s].status == SENT && v.rows[s].sentMessageId == Some(id) &&
            ReplicaOf(v, r) == Replica(Looping, rest)
  {
    NeverSentTwice(w, r, s, id);
  }

  lemma MarkBrokenResult(w: World, r: nat, s: nat, id: nat, rest: seq<nat>)
    requires ReplicaOf(w, r) == Replica(Marking(s, id), rest)
    ensures var v := Step(w, Dispatch(r, MarkBroken));
            v.rows == w.rows && v.clock == w.clock && ReplicaOf(v, r) == Replica(Failing(s), rest)
  {
  }

  lemma MarkFailedResult(w: World, r: nat, s: nat, rest: seq<nat>)
    requires Reachable(w) && ReplicaOf(w, r) == Replica(Failing(s), rest)
    ensures var v := Step(w, Dispatch(r, MarkFailed));
            OnlyRow(w, v, s) && s in v.rows && v.rows[s].status == FAILED && ReplicaOf(v, r) == Replica(Looping, rest)
  {
    ReachableInv(w);
    OwnReplicaOk(w, r);
  }

  lemma CollectResult(start: World, w: World, r: nat, s: nat, call: nat, rest: seq<nat>, input: Input, made: Result<Message, Failure>)
    requires Reachable(w) && ReplicaOf(w, r) == Replica(Waiting(s, call), rest) && Outcome(start, w, call, input, made)
    ensures var v := Step(w, Dispatch(r, Collect));
            v.rows == w.rows && v.clock == w.clock && v.log == w.log &&
            ReplicaOf(v, r) == Replica(if made.Ok? then Notifying(s, made.value.id) else Failing(s), rest)
    ensures made == Err(Unallocated) ==> GaveUp(w.log, s)
  {
    ReachableInv(w);
    OwnReplicaOk(w, r);
    assert CallFor(w.log, call, s);
  }

  lemma ClaimedRowLooksUp(w: World, r: nat, s: nat)
    requires Reachable(w) && StageOf(w, r) == Claimed(s)
    ensures s in w.rows && RootFor(w, w.rows[s].threadId, w.rows[s].channel).Some?
  {
    ReachableInv(w);
    OwnReplicaOk(w, r);
    RowLooksUp(w, s);
  }

  lemma LoadResult(w: World, r: nat, s: nat, rest: seq<nat>, call: nat, allowed: bool)
    requires Reachable(w) && ReplicaOf(w, r) == Replica(Claimed(s), rest) && call !in w.log.calls
    ensures var v := Step(w, Dispatch(r, Load(call, allowed)));
            v.rows == w.rows && v.clock == w.clock &&
            if allowed then ReplicaOf(v, r) == Replica(Waiting(s, call), rest) &&
                            call in v.log.calls && JustBegun(v, call, Messaging, v.log.calls[call].input)
            else ReplicaOf(v, r) == Replica(Failing(s), rest)
  {
    ClaimedRowLooksUp(w, r, s);
  }

  /**
   The interval timer of one replica in quiet times: between the ticks and inside them the
   clock moves and messages are written. Of the d rows due at the start exactly
   max(0, d - 20 n) are left after n ticks; the others are SENT and name their own message, or
   FAILED if something went wrong or the allocation gave up.
   */
  method RunTicks(service: MessagingService, ticks: nat)
    requires service.Valid() && !service.schedulerTickInFlight && service.db.quiet
    modifies service, service.db
    ensures service.Valid() && !service.schedulerTickInFlight && Extends(old(service.db.world), service.db.world)
    ensures service.db.Mishaps() >= old(service.db.Mishaps())
    ensures Left(old(service.db.world), service.db.world, ticks, service.db.Mishaps() > old(service.db.Mishaps()))
  {
    ghost var start, mishaps := service.db.world, service.db.Mishaps();
    var n := 0;
    LeftAtFirst(start);
    while n < ticks
      invariant 0 <= n <= ticks
      invariant service.Valid() && !service.schedulerTickInFlight && Extends(start, service.db.world)
      invariant service.db.Mishaps() >= mishaps
      invariant Left(start, service.db.world, n, service.db.Mishaps() > mishaps)
    {
      NextTick(service, start, mishaps, n);
      n := n + 1;
    }
  }

  /** A pause and a tick, seen from the start. */
  method NextTick(service: MessagingService, ghost start: World, ghost mishaps: nat, ghost n: nat)
    requires service.Valid() && !service.schedulerTickInFlight && service.db.quiet && service.db.Mishaps() >= mishaps
    requires Extends(start, service.db.world) && Left(start, service.db.world, n, service.db.Mishaps() > mishaps)
    modifies service, service.db
    ensures service.Valid() && !service.schedulerTickInFlight && service.db.Mishaps() >= mishaps
    ensures Extends(start, service.db.world) && Left(start, service.db.world, n + 1, service.db.Mishaps() > mishaps)
  {
    ghost var before, so := service.db.world, service.db.Mishaps();
    Pause(service);
    ghost var paused := service.db.world;
    LeftWhilePaused(start, before, paused, n, so > mishaps);
    ExtendsTransitive(start, before, paused);
    service.ProcessDueScheduledMessages();
    TickFromStart(start, paused, service.db.world, n, mishaps, so, service.db.Mishaps());
  }

  lemma TickFromStart(start: World, paused: World, v: World, n: nat, mishaps: nat, so: nat, now: nat)
    requires Extends(start, paused) && Left(start, paused, n, so > mishaps) && TickEffect(paused, v, now > so)
    requires mishaps <= so <= now
    ensures Extends(start, v) && Left(start, v, n + 1, now > mishaps)
  {
    LeftAfterTick(start, paused, v, n, so > mishaps, now > so, now > mishaps);
    ExtendsTransitive(start, paused, v);
  }

  /** The time between two ticks. */
  method Pause(service: MessagingService)
    requires service.Valid() && !service.schedulerTickInFlight
    modifies service.db`world
    ensures service.Valid() && Extends(old(service.db.world), service.db.world)
    ensures service.db.quiet ==> service.db.world.rows == old(service.db.world).rows
  {
    ghost var before := service.db.world;
    service.db.Others({}, {service.me});
    assert ReplicaOf(service.db.world, service.me) == ReplicaOf(before, service.me) by { assert service.me in {service.me}; }
  }

  /** The step at which a delivery throws that has stored its message. */
  function LateFailure(stage: Stage): DispatchAction {
    if stage.Notifying? then Notify(false) else MarkBroken
  }

  /**
   When the notifications or the update to SENT throw, the row ends FAILED although its message
   is stored, and the message is the row's only one in every continuation.
   */
  lemma FailedThoughStored(w: World, r: nat, acts: seq<Action>)
    requires Reachable(w) && (StageOf(w, r).Notifying? || StageOf(w, r).Marking?)
    ensures var s, id := StageOf(w, r).row, StageOf(w, r).message;
            var v := Step(Step(w, Dispatch(r, LateFailure(StageOf(w, r)))), Dispatch(r, MarkFailed));
            s in v.rows && v.rows[s].status == FAILED &&
            exists m :: m in v.log.messages && m.id == id && m.input.origin == Schedule(s) &&
                        forall n :: n in Exec(v, acts).log.messages && n.input.origin == Schedule(s) ==> n == m
  {
    var s, id := StageOf(w, r).row, StageOf(w, r).message;
    var m := HeldMessage(w, r);
    LateFailureEnds(w, r);
    var v := Step(Step(w, Dispatch(r, LateFailure(StageOf(w, r)))), Dispatch(r, MarkFailed));
    ReachableExec(v, acts);
    ExecExtends(v, acts);
    forall n | n in Exec(v, acts).log.messages && n.input.origin == Schedule(s)
      ensures n == m
    {
      AtMostOneMessage(Exec(v, acts), n, m);
    }
  }

  lemma HeldMessage(w: World, r: nat) returns (m: Message)
    requires Reachable(w) && (StageOf(w, r).Notifying? || StageOf(w, r).Marking?)
    ensures m in w.log.messages && m.id == StageOf(w, r).message && m.input.origin == Schedule(StageOf(w, r).row)
  {
    ReachableInv(w);
    OwnReplicaOk(w, r);
    m :| m in w.log.messages && m.id == StageOf(w, r).message && m.input.origin == Schedule(StageOf(w, r).row);
  }

  lemma LateFailureEnds(w: World, r: nat)
    requires Reachable(w) && (StageOf(w, r).Notifying? || StageOf(w, r).Marking?)
    ensures var v := Step(Step(w, Dispatch(r, LateFailure(StageOf(w, r)))), Dispatch(r, MarkFailed));
            Reachable(v) && v.log == w.log && StageOf(w, r).row in v.rows && v.rows[StageOf(w, r).row].status == FAILED
  {
    var late := Dispatch(r, LateFailure(StageOf(w, r)));
    LateFailureFails(w, r);
    ReachableStep(w, late);
    MarkFailedResult(Step(w, late), r, StageOf(w, r).row, ReplicaOf(w, r).batch);
    ReachableStep(Step(w, late), Dispatch(r, MarkFailed));
  }

  lemma LateFailureFails(w: World, r: nat)
    requires StageOf(w, r).Notifying? || StageOf(w, r).Marking?
    ensures var u := Step(w, Dispatch(r, LateFailure(StageOf(w, r))));
            u.log == w.log && ReplicaOf(u, r) == Replica(Failing(StageOf(w, r).row), ReplicaOf(w, r).batch)
  {
  }

  // ------------------------------------------------------------ drain measure

  /** The rows still PENDING of those due at time t. */
  function DueBy(w: World, t: nat): set<nat> {
    set s | s in w.rows && w.rows[s].status == PENDING && w.rows[s].sendAt <= t
  }

  /**
   A batch takes exactly min(20, n) of the n rows that were due at any earlier time: rows that
   became due later come after them.
   */
  lemma BatchTakes(w: World, batch: seq<nat>, t: nat)
    requires IsBatch(w, batch) && t <= w.clock
    ensures |Elements(batch) * DueBy(w, t)| == Min(BATCH, |DueBy(w, t)|)
  {
    var taken, due := Elements(batch), DueBy(w, t);
    DistinctSize(batch);
    if s :| s in due && s !in taken {
      assert Due(w, s) && s !in batch;
      forall b | b in taken
        ensures b in due
      {
        assert w.rows[b].sendAt <= w.rows[s].sendAt;
        var i :| 0 <= i < |batch| && batch[i] == b;
        assert Due(w, batch[i]);
      }
      assert taken * due == taken;
      SubsetSize(taken, due);
    } else {
      assert taken * due == due;
      SubsetSize(due, taken);
    }
  }

  /**
   A quiet tick closes exactly min(20, n) of the n rows still PENDING of those due at any time
   before it, and changes no row but due ones, whatever the clock does meanwhile.
   */
  lemma TickDrains(w: World, v: World, t: nat, mishap: bool)
    requires TickEffect(w, v, mishap) && t <= w.clock
    ensures |DueBy(v, t)| == |DueBy(w, t)| - Min(BATCH, |DueBy(w, t)|)
    ensures DueBy(v, t) <= DueBy(w, t)
    ensures forall s :: s in DueBy(w, t) && s !in DueBy(v, t) ==> Closed(v, s, mishap)
    ensures forall s :: s in w.rows && s !in DueBy(w, v.clock) ==> s in v.rows && v.rows[s] == w.rows[s]
  {
    var now: nat, batch: seq<nat> :|
      w.clock <= now <= v.clock && IsBatch(w.(clock := now), batch) && Progress(w, v, batch, |batch|, mishap);
    var u := w.(clock := now);
    BatchTakes(u, batch, t);
    assert DueBy(u, t) == DueBy(w, t);
    ClosedLeave(w, v, batch, t, mishap);
    forall s | s in batch
      ensures s in DueBy(w, v.clock)
    {
      var i :| 0 <= i < |batch| && batch[i] == s;
      assert Due(u, batch[i]);
    }
    assert batch[..|batch|] == batch;
  }

  lemma ClosedLeave(w: World, v: World, batch: seq<nat>, t: nat, mishap: bool)
    requires Progress(w, v, batch, |batch|, mishap)
    ensures DueBy(v, t) == DueBy(w, t) - Elements(batch)
    ensures |DueBy(v, t)| == |DueBy(w, t)| - |Elements(batch) * DueBy(w, t)|
    ensures forall s :: s in DueBy(w, t) && s !in DueBy(v, t) ==> Closed(v, s, mishap)
  {
    assert batch[..|batch|] == batch;
    var due, taken := DueBy(w, t), Elements(batch);
    forall s: nat
      ensures s in DueBy(v, t) <==> s in due - taken
    {
      assert s in taken <==> s in batch;
    }
    assert DueBy(v, t) == due - taken;
    assert due == DueBy(v, t) + taken * due;
  }

  /** After n ticks since w, max(0, d - 20 n) of the d rows due at w are left; the others are closed. */
  ghost predicate Left(w: World, v: World, n: nat, mishap: bool) {
    && w.clock <= v.clock
    && DueBy(v, w.clock) <= DueBy(w, w.clock)
    && |DueBy(v, w.clock)| == Max(0, |DueBy(w, w.clock)| - BATCH * n)
    && (forall s :: s in DueBy(w, w.clock) && s !in DueBy(v, w.clock) ==> Closed(v, s, mishap))
  }

  lemma LeftAtFirst(w: World)
    ensures Left(w, w, 0, false)
  {
  }

  lemma LeftWhilePaused(w: World, u: World, v: World, n: nat, mishap: bool)
    requires Left(w, u, n, mishap) && v.rows == u.rows && Extends(u, v)
    ensures Left(w, v, n, mishap)
  {
    assert DueBy(v, w.clock) == DueBy(u, w.clock);
    forall s | s in DueBy(w, w.clock) && s !in DueBy(v, w.clock)
      ensures Closed(v, s, mishap)
    {
      ClosedStays(u, v, s, mishap, mishap);
    }
  }

  lemma LeftAfterTick(w: World, u: World, v: World, n: nat, before: bool, now: bool, mishap: bool)
    requires Left(w, u, n, before) && TickEffect(u, v, now) && (before ==> mishap) && (now ==> mishap)
    ensures Left(w, v, n + 1, mishap)
  {
    TickDrains(u, v, w.clock, now);
    forall s | s in DueBy(w, w.clock) && s !in DueBy(v, w.clock)
      ensures Closed(v, s, mishap)
    {
      if s in DueBy(u, w.clock) {
        assert Closed(v, s, now);
      } else {
        assert s in u.rows && s !in DueBy(u, v.clock);
        ClosedStays(u, v, s, before, mishap);
      }
    }
  }

  /** Worlds before and after successive quiet ticks, whatever the clock does in between. */
  ghost predicate Ticks(ws: seq<World>, mishap: bool) {
    |ws| > 0 && forall i, j {:trigger TickEffect(ws[i], ws[j], mishap)} :: 0 <= i && j == i + 1 < |ws| ==> TickEffect(ws[i], ws[j], mishap)
  }

  lemma {:induction false} TicksDrain(ws: seq<World>, mishap: bool)
    requires Ticks(ws, mishap)
    ensures Left(ws[0], ws[|ws| - 1], |ws| - 1, mishap)
  {
    if |ws| == 1 {
      LeftAtFirst(ws[0]);
    } else {
      var front := ws[..|ws| - 1];
      forall i, j | 0 <= i && j == i + 1 < |front|
        ensures TickEffect(front[i], front[j], mishap)
      {
        assert TickEffect(ws[i], ws[j], mishap);
      }
      TicksDrain(front, mishap);
      assert TickEffect(ws[|ws| - 2], ws[|ws| - 1], mishap);
      LeftAfterTick(ws[0], ws[|ws| - 2], ws[|ws| - 1], |ws| - 2, mishap, mishap, mishap);
    }
  }

  /**
   So the d rows due at the start are all closed exactly from tick ceil(d / 20) on: SENT, unless
   something went wrong or an allocation gave up.
   */
  lemma AllSettledAfter(ws: seq<World>, mishap: bool)
    requires Ticks(ws, mishap)
    ensures var due, v := DueBy(ws[0], ws[0].clock), ws[|ws| - 1];
            (forall s :: s in due ==> Closed(v, s, mishap)) <==> |ws| - 1 >= (|due| + BATCH - 1) / BATCH
  {
    TicksDrain(ws, mishap);
    var due, v := DueBy(ws[0], ws[0].clock), ws[|ws| - 1];
    var left := DueBy(v, ws[0].clock);
    if left != {} {
      var s :| s in left;
      assert s in due && !Closed(v, s, mishap);
    }
  }
}
