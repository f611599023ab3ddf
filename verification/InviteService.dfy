/**
 The invite operations as they run: each await is a round trip to the shared database, and
 before it all other clients may do anything. The ledger stays reachable in module Invites.
 */
module InviteService {
  import opened Prelude
  import opened Text
  import opened Invites
  import opened InviteTheorems

  predicate IsForeign(a: Action, call: nat) {
    match a
    case Open(k, _, _) => k != call
    case FindLink(k) => k != call
    case FindUser(k) => k != call
    case FindAcceptance(k) => k != call
    case Rejoin(k) => k != call
    case Transact(k, _) => k != call
    case Abort(k) => k != call
    case _ => true
  }

  ghost predicate LinkLasts(d: Ledger, v: Ledger, link: nat) {
    link in d.links ==>
      link in v.links && Terms(v.links[link]) == Terms(d.links[link]) &&
      (d.links[link].isRevoked ==> v.links[link].isRevoked) && d.links[link].useCount <= v.links[link].useCount
  }

  /** What stands whatever anybody does: links with their terms, codes, users, acceptances, time. */
  ghost predicate Lasts(d: Ledger, v: Ledger) {
    && Reachable(v)
    && d.rows <= v.rows && d.clock <= v.clock
    && (forall link: nat {:trigger LinkLasts(d, v, link)} :: LinkLasts(d, v, link))
    && (forall code :: code in d.codes ==> code in v.codes && v.codes[code] == d.codes[code])
    && (forall user :: user in d.users ==> user in v.users && v.users[user] == d.users[user])
  }

  ghost predicate Interfered(d: Ledger, v: Ledger, call: nat) {
    && Lasts(d, v)
    && (call in d.calls ==> call in v.calls && v.calls[call] == d.calls[call])
    && (call !in d.calls ==> call !in v.calls)
  }

  lemma StepLasts(d: Ledger, a: Action)
    requires Reachable(d)
    ensures Lasts(d, Step(d, a))
  {
    var v := Step(d, a);
    ReachableInv(d);
    ReachableStep(d, a);
    RowsLive(d, a);
    forall link: nat
      ensures LinkLasts(d, v, link)
    {
      if link in d.links {
        LinkLives(d, a, link);
      }
    }
    IndexesLive(d, a);
  }

  lemma StepInterferes(d: Ledger, a: Action, call: nat)
    requires Reachable(d) && IsForeign(a, call)
    ensures Interfered(d, Step(d, a), call)
  {
    StepLasts(d, a);
    ReachableInv(d);
    if call in d.calls {
      CallStays(d, a, call);
    } else {
      CallsAppear(d, a, call);
    }
  }

  lemma IndexesLive(d: Ledger, a: Action)
    requires Inv(d)
    ensures var v := Step(d, a);
            d.clock <= v.clock &&
            (forall code :: code in d.codes ==> code in v.codes && v.codes[code] == d.codes[code]) &&
            (forall user :: user in d.users ==> user in v.users && v.users[user] == d.users[user])
  {
    if a.Transact? && a.call in d.calls && d.calls[a.call].pc.Reserving? {
      CommitIff(d, a.call, a.broken);
    }
  }

  lemma CallsAppear(d: Ledger, a: Action, call: nat)
    requires Inv(d) && IsForeign(a, call) && call !in d.calls
    ensures call !in Step(d, a).calls
  {
    if a.Transact? && a.call in d.calls && d.calls[a.call].pc.Reserving? {
      CommitIff(d, a.call, a.broken);
    }
  }

  lemma LastsTransitive(d: Ledger, v: Ledger, w: Ledger)
    requires Lasts(d, v) && Lasts(v, w)
    ensures Lasts(d, w)
  {
    forall link: nat
      ensures LinkLasts(d, w, link)
    {
      assert LinkLasts(d, v, link) && LinkLasts(v, w, link);
    }
  }

  lemma LastsItself(d: Ledger)
    requires Reachable(d)
    ensures Lasts(d, d)
  {
  }

  lemma {:induction false} ExecLasts(d: Ledger, acts: seq<Action>)
    requires Reachable(d)
    ensures Lasts(d, Exec(d, acts))
    decreases |acts|
  {
    if acts == [] {
      LastsItself(d);
    } else {
      StepLasts(d, acts[0]);
      ExecLasts(Step(d, acts[0]), acts[1..]);
      LastsTransitive(d, Step(d, acts[0]), Exec(d, acts));
    }
  }

  lemma {:induction false} ForeignExec(d: Ledger, acts: seq<Action>, call: nat)
    requires Reachable(d) && forall a :: a in acts ==> IsForeign(a, call)
    ensures Interfered(d, Exec(d, acts), call)
    decreases |acts|
  {
    if acts != [] {
      StepInterferes(d, acts[0], call);
      ForeignExec(Step(d, acts[0]), acts[1..], call);
      LastsTransitive(d, Step(d, acts[0]), Exec(d, acts));
    }
  }

  /** The shared database and everybody who uses it; when it is quiet, nobody else does. */
  class Database {
    const quiet: bool
    var ledger: Ledger
    /** How many round trips of accepts have failed so far. */
    var outages: nat

    constructor (quiet: bool)
      ensures ledger == EMPTY && Reachable(ledger) && this.quiet == quiet && outages == 0
    {
      this.quiet := quiet;
      ledger := EMPTY;
      outages := 0;
      assert Exec(EMPTY, []) == EMPTY;
    }

    /** Any number of steps of anybody else. */
    method Others(call: nat)
      requires Reachable(ledger)
      modifies this`ledger
      ensures Interfered(old(ledger), ledger, call)
    {
      var acts: seq<Action> := *;
      if forall a | a in acts :: IsForeign(a, call) {
        ForeignExec(ledger, acts, call);
        ledger := Exec(ledger, acts);
      }
    }

    /** The same for a request that has no call of its own in the ledger; in quiet times nobody moves. */
    method Anybody()
      requires Reachable(ledger)
      modifies this`ledger
      ensures Lasts(old(ledger), ledger) && (quiet ==> ledger == old(ledger))
    {
      LastsItself(ledger);
      if !quiet {
        var acts: seq<Action> := *;
        ExecLasts(ledger, acts);
        ledger := Exec(ledger, acts);
      }
    }

    /** Whether the next round trip fails. */
    method Fails() returns (broken: bool)
      modifies this`outages
      ensures outages == old(outages) + if broken then 1 else 0
    {
      broken := *;
      if broken {
        outages := outages + 1;
      }
    }

    method Perform(a: Action)
      requires Reachable(ledger)
      modifies this`ledger
      ensures ledger == Step(old(ledger), a) && Reachable(ledger)
    {
      ReachableStep(ledger, a);
      ledger := Step(ledger, a);
    }

    /** workspaceInviteLink.findUnique by code. */
    method FindLinkByCode(call: nat, code: string) returns (found: Option<(nat, Link)>)
      requires Reachable(ledger)
      modifies this`ledger
      ensures ledger == Step(old(ledger), FindLink(call)) && Reachable(ledger)
      ensures found == if code in old(ledger).codes && old(ledger).codes[code] in old(ledger).links
                       then Some((old(ledger).codes[code], old(ledger).links[old(ledger).codes[code]])) else None
    {
      found := None;
      if code in ledger.codes && ledger.codes[code] in ledger.links {
        found := Some((ledger.codes[code], ledger.links[ledger.codes[code]]));
      }
      Perform(FindLink(call));
    }

    /** user.findUnique, and the time right after it. */
    method FindEmail(call: nat, user: nat) returns (email: Option<string>, now: int)
      requires Reachable(ledger)
      modifies this`ledger
      ensures ledger == Step(old(ledger), FindUser(call)) && Reachable(ledger)
      ensures now == old(ledger).clock
      ensures email == if user in old(ledger).users then Some(old(ledger).users[user]) else None
    {
      now := ledger.clock;
      email := if user in ledger.users then Some(ledger.users[user]) else None;
      Perform(FindUser(call));
    }

    /** workspaceInviteAcceptance.findUnique, and the time right after it. */
    method FindExisting(call: nat, link: nat, user: nat) returns (existing: bool, now: int)
      requires Reachable(ledger)
      modifies this`ledger
      ensures ledger == Step(old(ledger), FindAcceptance(call)) && Reachable(ledger)
      ensures existing == HasAccepted(old(ledger).rows, link, user) && now == old(ledger).clock
    {
      existing, now := HasAccepted(ledger.rows, link, user), ledger.clock;
      Perform(FindAcceptance(call));
    }

    /** $transaction: the membership's role, or why it was rolled back; its audit entry may fail. */
    method RunTransaction(call: nat, link: nat, user: nat, seen: Link, asOf: int, ghost code: string)
      returns (r: Result<Role, InviteError>)
      requires Reachable(ledger) && At(ledger, call, user, Reserving(link, seen, asOf)) && Knows(ledger, code, link, seen)
      modifies this
      ensures Reachable(ledger) && Knows(ledger, code, link, seen) && Later(old(ledger), ledger)
      ensures outages == old(outages) + if r == Err(Broken) then 1 else 0
      ensures match r
              case Ok(role) =>
                Commits(old(ledger), link, user, asOf) &&
                CommitsTo(old(ledger), ledger, Acceptance(link, user, call, asOf)) &&
                (seen.workspace, user) in ledger.members && ledger.members[(seen.workspace, user)] == role &&
                At(ledger, call, user, Accepted(link, false, role))
              case Err(e) =>
                call in old(ledger).calls && ledger == Goto(old(ledger), call, Refused(e)) &&
                e == if !Usable(old(ledger), link, asOf) then Unavailable
                     else if !Commits(old(ledger), link, user, asOf) then DuplicateAcceptance
                     else Broken
    {
      ReachableInv(ledger);
      var broken: bool := *;
      CommitIff(ledger, call, broken);
      TransactionKnows(ledger, call, user, code, link, seen, asOf, broken);
      Perform(Transact(call, broken));
      var pc := ledger.calls[call].pc;
      r := if pc.Accepted? then Ok(pc.role) else Err(pc.error);
      if r == Err(Broken) {
        outages := outages + 1;
      }
    }
  }

  /** Acceptances, codes and users are only added. */
  ghost predicate Later(d: Ledger, v: Ledger) {
    d.rows <= v.rows && d.codes.Keys <= v.codes.Keys && d.users.Keys <= v.users.Keys
  }

  datatype Reply = Reply(already: bool, workspace: nat, role: Role)

  /** The link the code names is still the one that was read, perhaps revoked or used since. */
  ghost predicate Knows(v: Ledger, code: string, link: nat, seen: Link) {
    && code in v.codes && v.codes[code] == link
    && link in v.links && Terms(v.links[link]) == Terms(seen)
    && (seen.isRevoked ==> v.links[link].isRevoked) && seen.useCount <= v.links[link].useCount
  }

  /** What a finished accept leaves behind, and what may be concluded from its answer. */
  ghost predicate Outcome(v: Ledger, call: nat, user: nat, code: string, r: Result<Reply, InviteError>) {
    match r
    case Ok(reply) =>
      code in v.codes &&
      var link := v.codes[code];
      link in v.links && At(v, call, user, Accepted(link, reply.already, reply.role)) &&
      HasAccepted(v.rows, link, user) && InsertedBy(v.rows, call) == !reply.already &&
      reply.workspace == v.links[link].workspace &&
      (reply.workspace, user) in v.members && v.members[(reply.workspace, user)] == reply.role
    case Err(e) =>
      At(v, call, user, Refused(e)) && !InsertedBy(v.rows, call) &&
      (e == LimitReached ==> code in v.codes && v.codes[code] in v.links && Full(v.links[v.codes[code]])) &&
      (e == Revoked ==> code in v.codes && v.codes[code] in v.links && v.links[v.codes[code]].isRevoked)
  }

  /** Every refusal has its reason, which still stands when the request ends. */
  ghost predicate Justified(d: Ledger, v: Ledger, user: nat, code: string, e: InviteError, broke: bool) {
    match e
    case CodeRequired => code == ""
    case LinkNotFound => code !in d.codes
    case UserNotFound => user !in d.users
    case Broken => broke
    case _ => LinkReason(v, user, code, e)
  }

  /** The reasons that lie in the link, as it is now, and in the user. */
  ghost predicate LinkReason(v: Ledger, user: nat, code: string, e: InviteError) {
    code in v.codes && v.codes[code] in v.links && user in v.users &&
    var link := v.links[v.codes[code]];
    && (e.Revoked? ==> link.isRevoked)
    && (e.Expired? ==> link.expiresAt <= v.clock)
    && (e.LimitReached? ==> Full(link))
    && (e.Unavailable? ==> CanBeAccepted(link, v.clock).Some?)
    && (e.DuplicateAcceptance? ==> HasAccepted(v.rows, v.codes[code], user))
    && (e.OtherEmail? || e.OtherDomain? ==> RecipientMatches(link, v.users[user]) == Some(e))
  }

  lemma ObstacleJustified(d: Ledger, v: Ledger, user: nat, code: string, link: nat, seen: Link, now: int)
    requires Knows(v, code, link, seen) && user in v.users && now <= v.clock && Obstacle(seen, now, v.users[user]).Some?
    ensures Justified(d, v, user, code, Obstacle(seen, now, v.users[user]).value, false)
  {
    TermsTell(seen, v.links[link], v.users[user]);
  }

  lemma RefusedOutcome(v: Ledger, call: nat, user: nat, code: string, e: InviteError)
    requires Reachable(v) && At(v, call, user, Refused(e)) && e != LimitReached && e != Revoked
    ensures Outcome(v, call, user, code, Err(e))
  {
    ReachableInv(v);
    UnfinishedInsertsNothing(v, call);
  }

  lemma CheckedOutcome(v: Ledger, call: nat, user: nat, code: string, link: nat, seen: Link, now: int, email: string)
    requires Reachable(v) && Knows(v, code, link, seen) && Obstacle(seen, now, email).Some?
    requires At(v, call, user, Refused(Obstacle(seen, now, email).value))
    ensures Outcome(v, call, user, code, Err(Obstacle(seen, now, email).value))
  {
    ReachableInv(v);
    UnfinishedInsertsNothing(v, call);
    TermsTell(seen, v.links[link], email);
  }

  lemma AcceptedOutcome(v: Ledger, call: nat, user: nat, code: string, link: nat, seen: Link, already: bool, role: Role)
    requires Reachable(v) && Knows(v, code, link, seen) && At(v, call, user, Accepted(link, already, role))
    requires (seen.workspace, user) in v.members && v.members[(seen.workspace, user)] == role
    ensures Outcome(v, call, user, code, Ok(Reply(already, seen.workspace, role)))
  {
    ReachableInv(v);
    assert CallInv(v, call);
    TermsTell(seen, v.links[link], "");
  }

  /** Waiting for others moves neither this call nor what it knows of the link. */
  lemma Waits(d: Ledger, v: Ledger, call: nat, code: string, link: nat, seen: Link)
    requires Knows(d, code, link, seen) && Interfered(d, v, call) && call in d.calls
    ensures Knows(v, code, link, seen) && call in v.calls && v.calls[call] == d.calls[call]
  {
    assert LinkLasts(d, v, link);
  }

  /** The part after a found acceptance: make sure of the membership, change nothing else. */
  method Rejoined(db: Database, call: nat, user: nat, ghost code: string, link: nat, seen: Link)
    returns (r: Result<Reply, InviteError>)
    requires Reachable(db.ledger) && At(db.ledger, call, user, Rejoining(link, seen)) && Knows(db.ledger, code, link, seen)
    modifies db
    ensures Reachable(db.ledger) && Outcome(db.ledger, call, user, code, r) && Later(old(db.ledger), db.ledger)
    ensures r.Ok? && r.value.already && db.outages == old(db.outages)
  {
    ghost var before := db.ledger;
    db.Others(call);
    Waits(before, db.ledger, call, code, link, seen);
    db.Perform(Rejoin(call));
    var role := db.ledger.members[(seen.workspace, user)];
    AcceptedOutcome(db.ledger, call, user, code, link, seen, true, role);
    r := Ok(Reply(true, seen.workspace, role));
  }

  lemma TransactionKnows(d: Ledger, call: nat, user: nat, code: string, link: nat, seen: Link, asOf: int, broken: bool)
    requires Inv(d) && At(d, call, user, Reserving(link, seen, asOf)) && Knows(d, code, link, seen)
    ensures var v := Step(d, Transact(call, broken));
            Knows(v, code, link, seen) && Later(d, v) && call in v.calls &&
            (v.calls[call].pc.Accepted? ==>
               (seen.workspace, user) in v.members && v.members[(seen.workspace, user)] == v.calls[call].pc.role)
  {
    CommitIff(d, call, broken);
    TermsTell(seen, d.links[link], "");
  }

  lemma RolledBack(d: Ledger, v: Ledger, start: Ledger, call: nat, user: nat, code: string, link: nat, seen: Link, asOf: int, e: InviteError)
    requires Reachable(d) && At(d, call, user, Reserving(link, seen, asOf)) && Knows(d, code, link, seen)
    requires v == Goto(d, call, Refused(e))
    requires e == if !Usable(d, link, asOf) then Unavailable
                  else if !Commits(d, link, user, asOf) then DuplicateAcceptance
                  else Broken
    ensures Justified(start, v, user, code, e, e == Broken)
  {
    ReachableInv(d);
    assert CallInv(d, call);
  }

  /** The part that reserves a use, with the time taken before it. */
  method Reserved(db: Database, call: nat, user: nat, ghost code: string, link: nat, seen: Link, asOf: int)
    returns (r: Result<Reply, InviteError>)
    requires Reachable(db.ledger) && At(db.ledger, call, user, Reserving(link, seen, asOf)) && Knows(db.ledger, code, link, seen)
    modifies db
    ensures Reachable(db.ledger) && Outcome(db.ledger, call, user, code, r) && Later(old(db.ledger), db.ledger)
    ensures r.Ok? ==> !r.value.already && Knows(db.ledger, code, link, seen)
    ensures r.Err? ==> r.error in {Unavailable, DuplicateAcceptance, Broken}
    ensures r.Err? ==> Justified(old(db.ledger), db.ledger, user, code, r.error, r.error == Broken)
    ensures db.outages == old(db.outages) + if r == Err(Broken) then 1 else 0
  {
    ghost var before := db.ledger;
    db.Others(call);
    Waits(before, db.ledger, call, code, link, seen);
    ReachableInv(db.ledger);
    ghost var reserving := db.ledger;
    var accepted := db.RunTransaction(call, link, user, seen, asOf, code);
    match accepted {
      case Err(e) =>
        RolledBack(reserving, db.ledger, before, call, user, code, link, seen, asOf, e);
        RefusedOutcome(db.ledger, call, user, code, e);
        return Err(e);
      case Ok(role) =>
        AcceptedOutcome(db.ledger, call, user, code, link, seen, false, role);
        return Ok(Reply(false, seen.workspace, role));
    }
  }

  /** A row this call inserted is not one there was before the call. */
  lemma InsertedIsNew(d: Ledger, v: Ledger, call: nat, link: nat, user: nat)
    requires Reachable(d) && Reachable(v) && call !in d.calls && d.rows <= v.rows
    requires call in v.calls && v.calls[call].user == user && v.calls[call].pc.Accepted? && v.calls[call].pc.link == link
    requires InsertedBy(v.rows, call)
    ensures !HasAccepted(d.rows, link, user)
  {
    ReachableInv(d);
    ReachableInv(v);
    var j: nat :| 0 <= j < |v.rows| && v.rows[j].call == call;
    assert RowInv(v, v.rows[j]);
    forall i: nat | i < |d.rows|
      ensures d.rows[i].link != link || d.rows[i].user != user
    {
      assert RowInv(d, d.rows[i]);
      assert v.rows[i] == d.rows[i];
      assert Apart(v.rows, i, j) && Apart(v.rows, j, i);
    }
  }

  /** The first round trip: the link the code names, as it is then. */
  method LoadLink(db: Database, call: nat, user: nat, code: string) returns (found: Option<(nat, Link)>)
    requires Reachable(db.ledger) && At(db.ledger, call, user, Looking(code))
    modifies db`ledger
    ensures Reachable(db.ledger) && Later(old(db.ledger), db.ledger)
    ensures match found
            case None => At(db.ledger, call, user, Refused(LinkNotFound)) && code !in old(db.ledger).codes
            case Some((link, seen)) =>
              At(db.ledger, call, user, Loading(link, seen)) && Knows(db.ledger, code, link, seen)
  {
    db.Others(call);
    ReachableInv(db.ledger);
    assert CodeInv(db.ledger, code);
    found := db.FindLinkByCode(call, code);
  }

  /** The second round trip: the user, and the checks on what was read. */
  method CheckRecipient(db: Database, call: nat, user: nat, ghost code: string, link: nat, seen: Link)
    returns (refusal: Option<InviteError>)
    requires Reachable(db.ledger) && At(db.ledger, call, user, Loading(link, seen)) && Knows(db.ledger, code, link, seen)
    modifies db`ledger
    ensures Reachable(db.ledger) && Later(old(db.ledger), db.ledger)
    ensures match refusal
            case Some(e) => Outcome(db.ledger, call, user, code, Err(e)) && e != Broken &&
                            Justified(old(db.ledger), db.ledger, user, code, e, false)
            case None => At(db.ledger, call, user, Checking(link, seen)) && Knows(db.ledger, code, link, seen)
  {
    ghost var before := db.ledger;
    db.Others(call);
    Waits(before, db.ledger, call, code, link, seen);
    var email, now := db.FindEmail(call, user);
    if email.None? {
      RefusedOutcome(db.ledger, call, user, code, UserNotFound);
      return Some(UserNotFound);
    }
    refusal := Obstacle(seen, now, email.value);
    if refusal.Some? {
      CheckedOutcome(db.ledger, call, user, code, link, seen, now, email.value);
      ObstacleJustified(before, db.ledger, user, code, link, seen, now);
    }
  }

  /** The third round trip: an earlier acceptance, or the time to reserve with. */
  method LookForAcceptance(db: Database, call: nat, user: nat, ghost code: string, link: nat, seen: Link)
    returns (existing: bool, now: int)
    requires Reachable(db.ledger) && At(db.ledger, call, user, Checking(link, seen)) && Knows(db.ledger, code, link, seen)
    modifies db`ledger
    ensures Reachable(db.ledger) && Later(old(db.ledger), db.ledger) && Knows(db.ledger, code, link, seen)
    ensures At(db.ledger, call, user, if existing then Rejoining(link, seen) else Reserving(link, seen, now))
  {
    ghost var before := db.ledger;
    db.Others(call);
    Waits(before, db.ledger, call, code, link, seen);
    existing, now := db.FindExisting(call, link, user);
  }

  /** A failing round trip ends the request, whatever it was at. */
  method Abandon(db: Database, call: nat, user: nat, ghost code: string, ghost pc: Pc)
    requires Reachable(db.ledger) && At(db.ledger, call, user, pc) && !pc.Accepted? && !pc.Refused?
    modifies db`ledger
    ensures Reachable(db.ledger) && Outcome(db.ledger, call, user, code, Err(Broken)) && Later(old(db.ledger), db.ledger)
  {
    db.Perform(Abort(call));
    RefusedOutcome(db.ledger, call, user, code, Broken);
  }

  /** From the checks on: an earlier acceptance, and the membership. */
  method JoinWorkspace(db: Database, call: nat, user: nat, ghost code: string, link: nat, seen: Link)
    returns (r: Result<Reply, InviteError>)
    requires Reachable(db.ledger) && At(db.ledger, call, user, Checking(link, seen)) && Knows(db.ledger, code, link, seen)
    modifies db
    ensures Reachable(db.ledger) && Outcome(db.ledger, call, user, code, r) && Later(old(db.ledger), db.ledger)
    ensures r.Err? ==> r.error in {Unavailable, DuplicateAcceptance, Broken}
    ensures r.Err? ==> Justified(old(db.ledger), db.ledger, user, code, r.error, r.error == Broken)
    ensures db.outages == old(db.outages) + if r == Err(Broken) then 1 else 0
  {
    var broken := db.Fails();
    if broken {
      Abandon(db, call, user, code, Checking(link, seen));
      return Err(Broken);
    }
    var existing, now := LookForAcceptance(db, call, user, code, link, seen);
    if !existing {
      r := Reserved(db, call, user, code, link, seen, now);
      return;
    }
    broken := db.Fails();
    if broken {
      Abandon(db, call, user, code, Rejoining(link, seen));
      return Err(Broken);
    }
    r := Rejoined(db, call, user, code, link, seen);
  }

  /** From the link on: the recipient, and the rest if there is no obstacle. */
  method AcceptLink(db: Database, call: nat, user: nat, ghost code: string, link: nat, seen: Link)
    returns (r: Result<Reply, InviteError>)
    requires Reachable(db.ledger) && At(db.ledger, call, user, Loading(link, seen)) && Knows(db.ledger, code, link, seen)
    modifies db
    ensures Reachable(db.ledger) && Outcome(db.ledger, call, user, code, r) && Later(old(db.ledger), db.ledger)
    ensures r.Err? ==> Justified(old(db.ledger), db.ledger, user, code, r.error, r.error == Broken)
    ensures db.outages == old(db.outages) + if r == Err(Broken) then 1 else 0
  {
    var broken := db.Fails();
    if broken {
      Abandon(db, call, user, code, Loading(link, seen));
      return Err(Broken);
    }
    var refusal := CheckRecipient(db, call, user, code, link, seen);
    if refusal.Some? {
      return Err(refusal.value);
    }
    r := JoinWorkspace(db, call, user, code, link, seen);
  }

  lemma FirstAcceptanceIsNew(d: Ledger, v: Ledger, call: nat, user: nat, code: string, r: Result<Reply, InviteError>)
    requires Reachable(d) && Reachable(v) && call !in d.calls && d.rows <= v.rows && Outcome(v, call, user, code, r)
    ensures r.Ok? && !r.value.already ==> !HasAccepted(d.rows, v.codes[code], user)
  {
    if r.Ok? && !r.value.already {
      InsertedIsNew(d, v, call, v.codes[code], user);
    }
  }

  /**
   acceptInviteLink. The answer is what the ledger holds for this call; a first acceptance
   was not there before the call; every refusal has its reason.
   */
  method AcceptInviteLink(db: Database, call: nat, user: nat, code: string) returns (r: Result<Reply, InviteError>)
    requires Reachable(db.ledger) && call !in db.ledger.calls
    modifies db
    ensures Reachable(db.ledger) && Outcome(db.ledger, call, user, Trim(code), r) && Later(old(db.ledger), db.ledger)
    ensures r.Ok? && !r.value.already ==> !HasAccepted(old(db.ledger).rows, db.ledger.codes[Trim(code)], user)
    ensures r.Err? ==> Justified(old(db.ledger), db.ledger, user, Trim(code), r.error, r.error == Broken)
    ensures db.outages == old(db.outages) + if r == Err(Broken) then 1 else 0
  {
    ghost var start := db.ledger;
    var inviteCode := Trim(code);
    db.Perform(Open(call, user, code));
    if inviteCode == "" {
      RefusedOutcome(db.ledger, call, user, inviteCode, CodeRequired);
      return Err(CodeRequired);
    }
    var broken := db.Fails();
    if broken {
      Abandon(db, call, user, inviteCode, Looking(inviteCode));
      return Err(Broken);
    }
    var inviteLink := LoadLink(db, call, user, inviteCode);
    if inviteLink.None? {
      RefusedOutcome(db.ledger, call, user, inviteCode, LinkNotFound);
      return Err(LinkNotFound);
    }
    var (link, seen) := inviteLink.value;
    ghost var loaded := db.ledger;
    r := AcceptLink(db, call, user, inviteCode, link, seen);
    FirstAcceptanceIsNew(start, db.ledger, call, user, inviteCode, r);
  }

  // ------------------------------------------------------ creating and revoking

  datatype ManageError = NotMember | NotManager | NoSuchLink | OwnerOnly | NoCode | CodeTaken

  /** ensureWorkspaceMember, ensureCanManageMembers and the check for a role only owners may deal in. */
  function MayManage(d: Ledger, workspace: nat, actor: nat, role: Role): Option<ManageError> {
    if (workspace, actor) !in d.members then Some(NotMember)
    else if d.members[(workspace, actor)] !in {Owner, Admin} then Some(NotManager)
    else if role.Owner? && !d.members[(workspace, actor)].Owner? then Some(OwnerOnly)
    else None
  }

  function MayRevoke(d: Ledger, workspace: nat, actor: nat, id: nat): Option<ManageError> {
    if MayManage(d, workspace, actor, Regular).Some? then MayManage(d, workspace, actor, Regular)
    else if id !in d.links || d.links[id].workspace != workspace then Some(NoSuchLink)
    else MayManage(d, workspace, actor, d.links[id].role)
  }

  /** Links are managed by the workspace's owners, and by its admins unless the role at hand is OWNER. */
  lemma WhoManages(d: Ledger, workspace: nat, actor: nat, role: Role)
    ensures MayManage(d, workspace, actor, role).None? <==>
            (workspace, actor) in d.members &&
            (d.members[(workspace, actor)].Owner? || (d.members[(workspace, actor)].Admin? && !role.Owner?))
  {
  }

  /** A link is revoked by an owner of its own workspace, or by an admin if it does not invite owners. */
  lemma WhoRevokes(d: Ledger, workspace: nat, actor: nat, id: nat)
    ensures MayRevoke(d, workspace, actor, id).None? <==>
            id in d.links && d.links[id].workspace == workspace && (workspace, actor) in d.members &&
            (d.members[(workspace, actor)].Owner? || (d.members[(workspace, actor)].Admin? && !d.links[id].role.Owner?))
  {
  }

  /**
   revokeInviteLink. When it succeeds the link is revoked, for good; in quiet times it
   succeeds exactly if the actor may revoke, and otherwise changes nothing.
   */
  method RevokeInviteLink(db: Database, workspace: nat, id: nat, actor: nat)
    returns (refusal: Option<ManageError>)
    requires Reachable(db.ledger)
    modifies db
    ensures Lasts(old(db.ledger), db.ledger)
    ensures refusal.None? ==>
              id in db.ledger.links && db.ledger.links[id].isRevoked && db.ledger.links[id].workspace == workspace
    ensures db.quiet ==> refusal == MayRevoke(old(db.ledger), workspace, actor, id)
    ensures db.quiet ==> db.ledger == if refusal.Some? then old(db.ledger) else Step(old(db.ledger), Revoke(id))
  {
    ghost var start := db.ledger;
    db.Anybody();
    var role := if (workspace, actor) in db.ledger.members then Some(db.ledger.members[(workspace, actor)]) else None;
    if role.None? {
      return Some(NotMember);
    }
    if role.value !in {Owner, Admin} {
      return Some(NotManager);
    }

    ghost var before := db.ledger;
    db.Anybody();
    LastsTransitive(start, before, db.ledger);
    if id !in db.ledger.links || db.ledger.links[id].workspace != workspace {
      return Some(NoSuchLink);
    }
    var link := db.ledger.links[id];
    if link.role.Owner? && !role.value.Owner? {
      return Some(OwnerOnly);
    }

    before := db.ledger;
    db.Anybody();
    LastsTransitive(start, before, db.ledger);
    assert LinkLasts(before, db.ledger, id);
    assert db.ledger.links[id].workspace == workspace by { TermsTell(db.ledger.links[id], link, ""); }
    StepLasts(db.ledger, Revoke(id));
    LastsTransitive(start, db.ledger, Step(db.ledger, Revoke(id)));
    db.Perform(Revoke(id));
    return None;
  }

  /**
   generateUniqueInviteCode: the first of at most five random codes that no link had when it was
   looked up; it gives up after five that were taken. `tried` lists the codes looked up.
   */
  method GenerateUniqueInviteCode(db: Database) returns (code: Option<string>, ghost tried: seq<string>)
    requires Reachable(db.ledger)
    modifies db
    ensures Lasts(old(db.ledger), db.ledger) && (db.quiet ==> db.ledger == old(db.ledger))
    ensures forall i :: 0 <= i < |tried| - 1 ==> tried[i] in db.ledger.codes
    ensures match code
            case Some(c) => 1 <= |tried| <= 5 && c == tried[|tried| - 1] && c !in db.ledger.codes
            case None => |tried| == 5 && tried[4] in db.ledger.codes
  {
    ghost var start := db.ledger;
    LastsItself(start);
    tried := [];
    for attempt := 0 to 5
      invariant Lasts(start, db.ledger) && (db.quiet ==> db.ledger == start)
      invariant |tried| == attempt && forall i :: 0 <= i < |tried| ==> tried[i] in db.ledger.codes
    {
      var candidate: string := *;
      ghost var before := db.ledger;
      db.Anybody();
      LastsTransitive(start, before, db.ledger);
      tried := tried + [candidate];
      if candidate !in db.ledger.codes {
        return Some(candidate), tried;
      }
    }
    return None, tried;
  }

  /** The link is the one asked for at this moment: on the normalized terms, unused, found by its code. */
  ghost predicate IsNewLink(d: Ledger, id: nat, a: Action)
    requires a.Create?
  {
    && id in d.links && d.links[id].useCount == 0 && !d.links[id].isRevoked && Count(d.rows, id) == 0
    && LinkFound(d, d.links[id].code) == Loading(id, d.links[id])
    && d.links[id].workspace == a.workspace && d.links[id].role == a.role && d.links[id].maxUses == a.maxUses
    && d.links[id].expiresAt == d.clock + a.hours * 3600000
    && d.links[id].allowedDomain == NormalizeDomain(a.domain)
    && d.links[id].invitedEmail ==
       (if a.invitedEmail.Some? && a.invitedEmail.value != "" then Some(NormalizeEmail(a.invitedEmail.value)) else None)
  }

  lemma CreateMakesNewLink(d: Ledger, a: Action)
    requires Reachable(d) && a.Create? && a.id !in d.links && a.code !in d.codes
    ensures IsNewLink(Step(d, a), a.id, a)
  {
    ReachableInv(d);
    NewLinkIsOpen(d, a, d.clock, "");
  }

  /**
   createInviteLinkEntity. `asked` holds the options; the code and the id are chosen here. The
   unique code may still be taken between the look and the insert.
   */
  method CreateInviteLinkEntity(db: Database, asked: Action) returns (made: Result<nat, ManageError>, ghost tried: seq<string>)
    requires Reachable(db.ledger) && asked.Create?
    modifies db
    ensures Lasts(old(db.ledger), db.ledger)
    ensures made.Ok? ==> made.value !in old(db.ledger).links && IsNewLink(db.ledger, made.value, asked)
    ensures made.Err? ==> made.error in {NoCode, CodeTaken}
    ensures made == Err(NoCode) ==> |tried| == 5 && (forall c :: c in tried ==> c in db.ledger.codes) && (db.quiet ==> db.ledger == old(db.ledger))
    ensures made == Err(CodeTaken) ==> !db.quiet && tried != [] && tried[|tried| - 1] in db.ledger.codes
  {
    ghost var start := db.ledger;
    var code;
    code, tried := GenerateUniqueInviteCode(db);
    if code.None? {
      return Err(NoCode), tried;
    }
    ghost var before := db.ledger;
    db.Anybody();
    LastsTransitive(start, before, db.ledger);
    if code.value in db.ledger.codes {
      return Err(CodeTaken), tried;
    }
    ghost var used := FreshNat(db.ledger.links.Keys);
    assert used !in db.ledger.links;
    var id: nat :| id !in db.ledger.links;
    assert LinkLasts(start, db.ledger, id);
    var create := asked.(id := id, code := code.value);
    CreateMakesNewLink(db.ledger, create);
    StepLasts(db.ledger, create);
    LastsTransitive(start, db.ledger, Step(db.ledger, create));
    db.Perform(create);
    return Ok(id), tried;
  }
}
