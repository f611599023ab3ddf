/** What holds of invite links over whole runs of module Invites. */
module InviteTheorems {
  import opened Prelude
  import opened Text
  import opened Invites

  // ------------------------------------------------------------- accounting

  /**
   In every reachable state the use count of a link is its number of acceptances and within
   its limit, and every acceptance is of a member who passes the link's locks, made in time.
   */
  lemma LinksAreAccounted(d: Ledger, id: nat)
    requires Reachable(d) && id in d.links
    ensures d.links[id].useCount == Count(d.rows, id)
    ensures d.links[id].maxUses.Some? ==> d.links[id].useCount <= d.links[id].maxUses.value
    ensures forall row :: row in d.rows && row.link == id ==>
              row.user in d.users && RecipientMatches(d.links[id], d.users[row.user]).None? &&
              (d.links[id].workspace, row.user) in d.members && row.asOf < d.links[id].expiresAt
  {
    ReachableInv(d);
    assert LinkInv(d, id);
    forall row | row in d.rows && row.link == id
      ensures RowInv(d, row)
    {
    }
  }

  /** One acceptance for each link and user, and for each call. */
  lemma AcceptancesAreUnique(d: Ledger, i: nat, j: nat)
    requires Reachable(d) && i < j < |d.rows|
    ensures d.rows[i].call != d.rows[j].call
    ensures d.rows[i].link != d.rows[j].link || d.rows[i].user != d.rows[j].user
  {
    ReachableInv(d);
    assert Apart(d.rows, i, j);
  }

  /** A call that returned `alreadyAccepted: false` inserted one row, any other call none. */
  lemma CallsAreAccounted(d: Ledger, call: nat)
    requires Reachable(d) && call in d.calls
    ensures InsertedBy(d.rows, call) <==> d.calls[call].pc.Accepted? && !d.calls[call].pc.already
    ensures d.calls[call].pc.Accepted? ==> HasAccepted(d.rows, d.calls[call].pc.link, d.calls[call].user)
  {
    ReachableInv(d);
    assert CallInv(d, call);
    if !d.calls[call].pc.Accepted? {
      UnfinishedInsertsNothing(d, call);
    }
  }

  // ---------------------------------------------------- revocation and expiry

  /** A call that has taken its time before the link expired and may still commit. */
  ghost predicate MayCommit(d: Ledger, link: nat, call: nat) {
    call in d.calls &&
    match d.calls[call].pc
    case Reserving(l, _, asOf) => l == link && Commits(d, link, d.calls[call].user, asOf)
    case _ => false
  }

  lemma StepCount(d: Ledger, a: Action, link: nat)
    requires Inv(d)
    ensures Count(Step(d, a).rows, link) ==
            Count(d.rows, link) + if a.Transact? && !a.broken && MayCommit(d, link, a.call) then 1 else 0
  {
    if a.Transact? && a.call in d.calls && d.calls[a.call].pc.Reserving? {
      CommitIff(d, a.call, a.broken);
      var Call(user, Reserving(l, seen, asOf)) := d.calls[a.call];
      CountNext(d.rows, Acceptance(l, user, a.call, asOf), link);
    }
  }

  lemma MayCommitNeedsRoom(d: Ledger, link: nat, call: nat)
    requires MayCommit(d, link, call)
    ensures link in d.links && !d.links[link].isRevoked
  {
  }

  /** A revoked link stays revoked and gains no acceptance, whatever is still in flight. */
  lemma {:induction false} NoneAfterRevoke(d: Ledger, acts: seq<Action>, link: nat)
    requires Inv(d) && link in d.links && d.links[link].isRevoked
    ensures var v := Exec(d, acts);
            link in v.links && v.links[link].isRevoked && Count(v.rows, link) == Count(d.rows, link)
    decreases |acts|
  {
    if acts != [] {
      var a := acts[0];
      StepCount(d, a, link);
      if a.Transact? && MayCommit(d, link, a.call) {
        MayCommitNeedsRoom(d, link, a.call);
      }
      LinkLives(d, a, link);
      StepKeepsInv(d, a);
      NoneAfterRevoke(Step(d, a), acts[1..], link);
    }
  }

  /** What no step takes away: terms, revocation, uses, acceptances, emails, time. */
  lemma LinkLives(d: Ledger, a: Action, link: nat)
    requires Inv(d) && link in d.links
    ensures var v := Step(d, a);
            link in v.links && Terms(v.links[link]) == Terms(d.links[link]) &&
            (d.links[link].isRevoked ==> v.links[link].isRevoked) &&
            d.links[link].useCount <= v.links[link].useCount && d.clock <= v.clock
  {
    if a.Transact? && a.call in d.calls && d.calls[a.call].pc.Reserving? {
      CommitIff(d, a.call, a.broken);
    }
  }

  lemma RowsLive(d: Ledger, a: Action)
    requires Inv(d)
    ensures d.rows <= Step(d, a).rows
  {
    if a.Transact? && a.call in d.calls && d.calls[a.call].pc.Reserving? {
      CommitIff(d, a.call, a.broken);
    }
  }

  lemma AcceptedStays(d: Ledger, a: Action, link: nat, user: nat)
    requires Inv(d) && HasAccepted(d.rows, link, user)
    ensures HasAccepted(Step(d, a).rows, link, user)
  {
    RowsLive(d, a);
    var i :| 0 <= i < |d.rows| && d.rows[i].link == link && d.rows[i].user == user;
    assert Step(d, a).rows[i] == d.rows[i];
  }

  lemma TransactEnds(d: Ledger, call: nat, broken: bool)
    requires Inv(d) && call in d.calls && d.calls[call].pc.Reserving?
    ensures var v := Step(d, Transact(call, broken)); call in v.calls && !v.calls[call].pc.Reserving?
  {
    CommitIff(d, call, broken);
  }

  lemma OwnMoveTakesTime(d: Ledger, a: Action, call: nat)
    requires call in d.calls && Moves(a, call) && !a.Transact?
    requires call in Step(d, a).calls && Step(d, a).calls[call].pc.Reserving?
    ensures Step(d, a).calls[call] == d.calls[call] || Step(d, a).calls[call].pc.asOf == d.clock
  {
  }

  lemma TransactAddsNoCall(d: Ledger, call: nat, broken: bool)
    requires Inv(d)
    ensures Step(d, Transact(call, broken)).calls.Keys == d.calls.Keys
  {
    if call in d.calls && d.calls[call].pc.Reserving? {
      CommitIff(d, call, broken);
    }
  }

  lemma NewCallsTakeNoTime(d: Ledger, a: Action, call: nat)
    requires Inv(d) && call !in d.calls && call in Step(d, a).calls
    ensures !Step(d, a).calls[call].pc.Reserving?
  {
    if a.Transact? {
      TransactAddsNoCall(d, a.call, a.broken);
    }
  }

  lemma TakesTimeNow(d: Ledger, a: Action, call: nat)
    requires Inv(d) && call in Step(d, a).calls && Step(d, a).calls[call].pc.Reserving?
    ensures call in d.calls
    ensures Step(d, a).calls[call] == d.calls[call] || Step(d, a).calls[call].pc.asOf == d.clock
  {
    if call !in d.calls {
      NewCallsTakeNoTime(d, a, call);
    } else if !Moves(a, call) {
      CallStays(d, a, call);
    } else if !a.Transact? {
      OwnMoveTakesTime(d, a, call);
    } else if d.calls[call].pc.Reserving? {
      TransactEnds(d, call, a.broken);
    }
  }

  /** A call that may commit after the expiry has not just taken its time. */
  lemma LateTimeIsOld(d: Ledger, a: Action, link: nat, call: nat)
    requires Inv(d) && link in d.links && d.links[link].expiresAt <= d.clock
    requires MayCommit(Step(d, a), link, call)
    ensures call in d.calls && d.calls[call] == Step(d, a).calls[call]
  {
    TakesTimeNow(d, a, call);
    LinkLives(d, a, link);
    TermsTell(Step(d, a).links[link], d.links[link], "");
  }

  /** After expiry nobody comes to be able to commit. */
  lemma NobodyBecomesLate(d: Ledger, a: Action, link: nat, call: nat)
    requires Inv(d) && link in d.links && d.links[link].expiresAt <= d.clock
    requires MayCommit(Step(d, a), link, call)
    ensures MayCommit(d, link, call)
  {
    LateTimeIsOld(d, a, link, call);
    LinkLives(d, a, link);
    TermsTell(Step(d, a).links[link], d.links[link], "");
    var user := d.calls[call].user;
    if HasAccepted(d.rows, link, user) {
      AcceptedStays(d, a, link, user);
    }
  }

  lemma {:induction false} NoneIfNobodyIsLate(d: Ledger, acts: seq<Action>, link: nat)
    requires Inv(d) && link in d.links && d.links[link].expiresAt <= d.clock
    requires forall call: nat :: !MayCommit(d, link, call)
    ensures Count(Exec(d, acts).rows, link) == Count(d.rows, link)
    decreases |acts|
  {
    if acts != [] {
      var v := Step(d, acts[0]);
      StepCount(d, acts[0], link);
      LinkLives(d, acts[0], link);
      StepKeepsInv(d, acts[0]);
      assert v.links[link].expiresAt == d.links[link].expiresAt by {
        assert Terms(v.links[link]).expiresAt == Terms(d.links[link]).expiresAt;
      }
      forall call: nat ensures !MayCommit(v, link, call) {
        if MayCommit(v, link, call) {
          NobodyBecomesLate(d, acts[0], link, call);
        }
      }
      NoneIfNobodyIsLate(v, acts[1..], link);
    }
  }

  /**
   The guard of the transaction compares with a time taken before it, so an expired link can
   still gain an acceptance: exactly when some call took its time before the expiry and finds
   room, no revocation and no acceptance of its user.
   */
  lemma GainAfterExpiryIff(d: Ledger, link: nat)
    requires Inv(d) && link in d.links && d.links[link].expiresAt <= d.clock
    ensures (exists acts: seq<Action> :: Count(Exec(d, acts).rows, link) > Count(d.rows, link)) <==>
            (exists call: nat :: MayCommit(d, link, call))
  {
    if call: nat :| MayCommit(d, link, call) {
      StepCount(d, Transact(call, false), link);
      var acts := [Transact(call, false)];
      assert Exec(d, acts) == Exec(Step(d, acts[0]), []);
      assert Count(Exec(d, acts).rows, link) > Count(d.rows, link);
    } else {
      forall acts: seq<Action> ensures Count(Exec(d, acts).rows, link) == Count(d.rows, link) {
        NoneIfNobodyIsLate(d, acts, link);
      }
    }
  }

  // ------------------------------------------------------------------- roles

  lemma RolesStep(d: Ledger, a: Action, key: (nat, nat))
    requires Inv(d) && !a.SetRole? && key in d.members
    ensures key in Step(d, a).members && Step(d, a).members[key] == d.members[key]
  {
    if a.Transact? && a.call in d.calls && d.calls[a.call].pc.Reserving? {
      CommitIff(d, a.call, a.broken);
    }
  }

  /** Only an explicit role change touches an existing member; accepts never do. */
  lemma {:induction false} AcceptsKeepRoles(d: Ledger, acts: seq<Action>, key: (nat, nat))
    requires Inv(d) && key in d.members && forall a :: a in acts ==> !a.SetRole?
    ensures key in Exec(d, acts).members && Exec(d, acts).members[key] == d.members[key]
    decreases |acts|
  {
    if acts != [] {
      RolesStep(d, acts[0], key);
      StepKeepsInv(d, acts[0]);
      AcceptsKeepRoles(Step(d, acts[0]), acts[1..], key);
    }
  }

  lemma RejoinDoes(d: Ledger, call: nat, link: nat, user: nat, seen: Link)
    requires At(d, call, user, Rejoining(link, seen))
    ensures var v := UpsertMember(d, seen, user);
            (seen.workspace, user) in v.members &&
            Step(d, Rejoin(call)) == Goto(v, call, Accepted(link, true, v.members[(seen.workspace, user)]))
  {
  }

  lemma RejoinReturnsRole(d: Ledger, call: nat, link: nat, user: nat, seen: Link)
    requires At(d, call, user, Rejoining(link, seen)) && SeenInv(d, link, seen)
    ensures ReturnsRole(d, Step(d, Rejoin(call)), call)
  {
    RejoinDoes(d, call, link, user, seen);
    TermsTell(seen, d.links[link], "");
  }

  lemma TransactReturnsRole(d: Ledger, call: nat, broken: bool)
    requires Inv(d) && call in d.calls && d.calls[call].pc.Reserving?
    ensures var v := Step(d, Transact(call, broken));
            call in v.calls && (v.calls[call].pc.Accepted? ==> ReturnsRole(d, v, call))
  {
    CommitIff(d, call, broken);
  }

  ghost predicate ReturnsRole(d: Ledger, v: Ledger, call: nat) {
    call in d.calls && call in v.calls && v.calls[call].pc.Accepted? &&
    var Accepted(link, _, role) := v.calls[call].pc;
    link in d.links &&
    var key := (d.links[link].workspace, d.calls[call].user);
    key in v.members && v.members[key] == role &&
    role == if key in d.members then d.members[key] else d.links[link].role
  }

  /** The role an accept returns is the member's, and a newcomer has the role of the link. */
  lemma AcceptReturnsRole(d: Ledger, a: Action, call: nat)
    requires Inv(d) && call in d.calls && !d.calls[call].pc.Accepted?
    requires call in Step(d, a).calls && Step(d, a).calls[call].pc.Accepted?
    ensures ReturnsRole(d, Step(d, a), call)
  {
    if !Moves(a, call) {
      CallStays(d, a, call);
    } else if a.Transact? && d.calls[call].pc.Reserving? {
      TransactReturnsRole(d, call, a.broken);
    } else if a.Rejoin? && d.calls[call].pc.Rejoining? {
      assert CallInv(d, call);
      RejoinReturnsRole(d, call, d.calls[call].pc.link, d.calls[call].user, d.calls[call].pc.seen);
    }
  }

  // ------------------------------------------------------- one accept on its own

  /** The four round trips of one accept; a step that does not fit the pc does nothing. */
  function Alone(call: nat): seq<Action> {
    [FindLink(call), FindUser(call), FindAcceptance(call), Rejoin(call), Transact(call, false)]
  }

  lemma AloneSteps(d: Ledger, call: nat)
    ensures Exec(d, Alone(call)) ==
            Step(Step(Step(Step(Step(d, FindLink(call)), FindUser(call)), FindAcceptance(call)), Rejoin(call)), Transact(call, false))
  {
    var acts := Alone(call);
    var d1 := Step(d, acts[0]);
    var d2 := Step(d1, acts[1]);
    var d3 := Step(d2, acts[2]);
    var d4 := Step(d3, acts[3]);
    var d5 := Step(d4, acts[4]);
    assert Exec(d5, []) == d5;
    assert acts[4..] == [acts[4]] && Exec(d4, acts[4..]) == Exec(d5, acts[4..][1..]);
    assert acts[3..][1..] == acts[4..] && Exec(d3, acts[3..]) == Exec(d4, acts[4..]);
    assert acts[2..][1..] == acts[3..] && Exec(d2, acts[2..]) == Exec(d3, acts[3..]);
    assert acts[1..][1..] == acts[2..] && Exec(d1, acts[1..]) == Exec(d2, acts[2..]);
  }

  function AfterReads(d: Ledger, call: nat): Ledger {
    Step(Step(d, FindLink(call)), FindUser(call))
  }

  function AfterWrites(d: Ledger, call: nat): Ledger {
    Step(Step(Step(d, FindAcceptance(call)), Rejoin(call)), Transact(call, false))
  }

  lemma ReadsAlone(d: Ledger, call: nat, link: nat, user: nat, code: string)
    requires Inv(d) && At(d, call, user, Looking(code)) && code in d.codes && d.codes[code] == link && user in d.users
    ensures link in d.links
    ensures match Obstacle(d.links[link], d.clock, d.users[user])
            case Some(e) => AfterReads(d, call) == Goto(d, call, Refused(e))
            case None => AfterReads(d, call) == Goto(d, call, Checking(link, d.links[link]))
  {
    assert CodeInv(d, code);
  }

  lemma WritesNothing(d: Ledger, call: nat, user: nat, e: InviteError)
    requires At(d, call, user, Refused(e))
    ensures AfterWrites(d, call) == d
  {
  }

  lemma WritesRejoin(d: Ledger, call: nat, link: nat, user: nat, seen: Link)
    requires Inv(d) && At(d, call, user, Checking(link, seen)) && HasAccepted(d.rows, link, user)
    ensures AfterWrites(d, call).rows == d.rows
    ensures call in AfterWrites(d, call).calls
    ensures var pc := AfterWrites(d, call).calls[call].pc; pc.Accepted? && pc.already
  {
  }

  lemma WritesCommit(d: Ledger, call: nat, link: nat, user: nat, seen: Link)
    requires Inv(d) && At(d, call, user, Checking(link, seen)) && Commits(d, link, user, d.clock)
    ensures Count(AfterWrites(d, call).rows, link) == Count(d.rows, link) + 1
    ensures call in AfterWrites(d, call).calls
    ensures var pc := AfterWrites(d, call).calls[call].pc; pc.Accepted? && !pc.already
  {
    var v := Goto(d, call, Reserving(link, seen, d.clock));
    assert Step(d, FindAcceptance(call)) == v && Step(v, Rejoin(call)) == v;
    StepKeepsInv(d, FindAcceptance(call));
    CommitIff(v, call, false);
    CountNext(d.rows, Acceptance(link, user, call, d.clock), link);
  }

  lemma AcceptKnownAlone(d: Ledger, call: nat, link: nat, user: nat, code: string)
    requires Inv(d) && At(d, call, user, Looking(code)) && code in d.codes && d.codes[code] == link && user in d.users
    ensures link in d.links
    ensures var v := Exec(d, Alone(call));
            call in v.calls &&
            match Obstacle(d.links[link], d.clock, d.users[user])
            case Some(e) => v == Goto(d, call, Refused(e))
            case None =>
              v.calls[call].pc.Accepted? && v.calls[call].pc.already == HasAccepted(d.rows, link, user) &&
              Count(v.rows, link) == Count(d.rows, link) + if HasAccepted(d.rows, link, user) then 0 else 1
  {
    AloneSteps(d, call);
    ReadsAlone(d, call, link, user, code);
    var r := AfterReads(d, call);
    assert Exec(d, Alone(call)) == AfterWrites(r, call);
    StepKeepsInv(d, FindLink(call));
    StepKeepsInv(Step(d, FindLink(call)), FindUser(call));
    match Obstacle(d.links[link], d.clock, d.users[user]) {
      case Some(e) => WritesNothing(r, call, user, e);
      case None =>
        if HasAccepted(d.rows, link, user) {
          WritesRejoin(r, call, link, user, d.links[link]);
        } else {
          WritesCommit(r, call, link, user, d.links[link]);
        }
    }
  }

  lemma AloneReadsAndWrites(d: Ledger, call: nat)
    ensures Exec(d, Alone(call)) == AfterWrites(AfterReads(d, call), call)
  {
    AloneSteps(d, call);
  }

  lemma UnknownCode(d: Ledger, call: nat, user: nat, code: string)
    requires At(d, call, user, Looking(code)) && (code !in d.codes || d.codes[code] !in d.links)
    ensures AfterReads(d, call) == Goto(d, call, Refused(LinkNotFound))
  {
  }

  lemma UnknownUser(d: Ledger, call: nat, user: nat, code: string)
    requires At(d, call, user, Looking(code)) && code in d.codes && d.codes[code] in d.links && user !in d.users
    ensures AfterReads(d, call) == Goto(d, call, Refused(UserNotFound))
  {
  }

  /** Why one accept on its own is refused, if it is: in the order of the checks. */
  function Refusal(d: Ledger, user: nat, code: string): Option<InviteError> {
    if code !in d.codes || d.codes[code] !in d.links then Some(LinkNotFound)
    else if user !in d.users then Some(UserNotFound)
    else Obstacle(d.links[d.codes[code]], d.clock, d.users[user])
  }

  /**
   One accept on its own, by anybody, with any code: it succeeds exactly when the code is a
   link's, the user is registered, the link can be accepted and the recipient matches, and says
   `alreadyAccepted` when there is an acceptance. The limit is looked at first, so an exhausted
   link refuses even those who accepted it. A refusal leaves everything else as it was.
   */
  lemma AcceptAlone(d: Ledger, call: nat, user: nat, code: string)
    requires Inv(d) && At(d, call, user, Looking(code))
    ensures var v := Exec(d, Alone(call));
            match Refusal(d, user, code)
            case Some(e) => v == Goto(d, call, Refused(e))
            case None =>
              var link := d.codes[code];
              call in v.calls && v.calls[call].pc.Accepted? &&
              v.calls[call].pc.already == HasAccepted(d.rows, link, user) &&
              Count(v.rows, link) == Count(d.rows, link) + if HasAccepted(d.rows, link, user) then 0 else 1
  {
    assert CodeInv(d, code);
    if code in d.codes && user in d.users {
      AcceptKnownAlone(d, call, d.codes[code], user, code);
    } else {
      AloneReadsAndWrites(d, call);
      if code in d.codes {
        UnknownUser(d, call, user, code);
      } else {
        UnknownCode(d, call, user, code);
      }
      WritesNothing(AfterReads(d, call), call, user, Refusal(d, user, code).value);
    }
  }

  /** A repeated accept of a link in force is answered `alreadyAccepted` exactly while the link has room. */
  lemma RepeatNeedsRoom(d: Ledger, call: nat, link: nat, user: nat, code: string)
    requires Inv(d) && At(d, call, user, Looking(code)) && code in d.codes && d.codes[code] == link && user in d.users
    requires HasAccepted(d.rows, link, user) && Live(d, link)
    ensures var v := Exec(d, Alone(call));
            call in v.calls &&
            if Full(d.links[link]) then v.calls[call].pc == Refused(LimitReached)
            else v.calls[call].pc.Accepted? && v.calls[call].pc.already
  {
    AcceptKnownAlone(d, call, link, user, code);
    var i :| 0 <= i < |d.rows| && d.rows[i].link == link && d.rows[i].user == user;
    assert RowInv(d, d.rows[i]);
  }

  // ---------------------------------------------------------- exact capacity

  /** One of the n accepts: on this link, by an eligible user of its own. */
  ghost predicate Candidate(d: Ledger, link: nat, call: nat) {
    && call in d.calls && link in d.links
    && d.calls[call].pc == Looking(d.links[link].code)
    && Entitled(d, d.calls[call].user, d.links[link])
    && !HasAccepted(d.rows, link, d.calls[call].user)
  }

  ghost predicate SameUser(d: Ledger, a: nat, b: nat) {
    a in d.calls && b in d.calls && d.calls[a].user == d.calls[b].user
  }

  /** Anything but a revocation, the expiry, a broken round trip of a candidate, or an outsider's use of the link. */
  ghost predicate Fair(d: Ledger, a: Action, link: nat, calls: set<nat>) {
    link in d.links &&
    match a
    case Revoke(id) => id != link
    case Advance(now) => now < d.links[link].expiresAt
    case Abort(call) => call !in calls
    case Transact(call, broken) =>
      if call in calls then !broken
      else call in d.calls && d.calls[call].pc.Reserving? ==> d.calls[call].pc.link != link
    case _ => true
  }

  ghost predicate FairRun(d: Ledger, acts: seq<Action>, link: nat, calls: set<nat>)
    decreases |acts|
  {
    acts == [] || (Fair(d, acts[0], link, calls) && FairRun(Step(d, acts[0]), acts[1..], link, calls))
  }

  predicate Winner(d: Ledger, call: nat) {
    call in d.calls && d.calls[call].pc.Accepted? && !d.calls[call].pc.already
  }

  predicate Settled(d: Ledger, call: nat) {
    call in d.calls && (d.calls[call].pc.Accepted? || d.calls[call].pc.Refused?)
  }

  ghost predicate Full(l: Link) {
    l.maxUses.Some? && l.useCount >= l.maxUses.value
  }

  /** Where a candidate can be: on its way, accepted, or refused for want of room. */
  ghost predicate OnItsWay(d: Ledger, link: nat, call: nat) {
    && call in d.calls && link in d.links
    && Entitled(d, d.calls[call].user, d.links[link])
    && (Winner(d, call) <==> HasAccepted(d.rows, link, d.calls[call].user))
    && match d.calls[call].pc
       case Looking(code) => code == d.links[link].code
       case Loading(l, seen) => l == link && !seen.isRevoked
       case Checking(l, _) => l == link
       case Rejoining(_, _) => false
       case Reserving(l, _, asOf) => l == link && asOf < d.links[link].expiresAt
       case Accepted(l, already, _) => l == link && !already
       case Refused(_) => Full(d.links[link])
  }

  ghost predicate Live(d: Ledger, link: nat) {
    link in d.links && !d.links[link].isRevoked && d.clock < d.links[link].expiresAt
  }

  /** How far the candidates' run has come since the link had `before` uses. */
  ghost predicate Contest(d: Ledger, link: nat, calls: set<nat>, before: nat) {
    && Inv(d) && Live(d, link)
    && (forall call {:trigger OnItsWay(d, link, call)} :: call in calls ==> OnItsWay(d, link, call))
    && (forall a, b {:trigger SameUser(d, a, b)} :: a in calls && b in calls && SameUser(d, a, b) ==> a == b)
    && d.links[link].useCount == before + |Winners(d, calls)|
  }

  function Winners(d: Ledger, calls: set<nat>): set<nat> {
    set call | call in calls && Winner(d, call)
  }

  /** A step that is no transaction of a candidate moves no winner and no use count. */
  lemma StepOfOthers(d: Ledger, a: Action, link: nat, calls: set<nat>)
    requires Inv(d) && link in d.links && Fair(d, a, link, calls) && !(a.Transact? && a.call in calls)
    ensures link in Step(d, a).links && Step(d, a).links[link] == d.links[link]
    ensures forall user :: HasAccepted(Step(d, a).rows, link, user) <==> HasAccepted(d.rows, link, user)
  {
    if a.Transact? && a.call in d.calls && d.calls[a.call].pc.Reserving? {
      CommitIff(d, a.call, a.broken);
      var Call(user, Reserving(l, seen, asOf)) := d.calls[a.call];
      RowsGrow(d.rows, Acceptance(l, user, a.call, asOf));
    }
  }

  /** The candidate that makes the step. */
  lemma OwnStepOnItsWay(d: Ledger, a: Action, link: nat, calls: set<nat>, call: nat)
    requires Inv(d) && Live(d, link) && Fair(d, a, link, calls) && call in calls && OnItsWay(d, link, call)
    requires (a.FindLink? || a.FindUser? || a.FindAcceptance? || a.Rejoin?) && a.call == call
    ensures OnItsWay(Step(d, a), link, call) && (Winner(Step(d, a), call) <==> Winner(d, call))
  {
    assert CallInv(d, call);
    assert LinkInv(d, link);
    var v := Step(d, a);
    assert v.links == d.links && v.rows == d.rows && v.users == d.users;
    match d.calls[call].pc {
      case Loading(l, seen) => TermsTell(seen, d.links[link], d.users[d.calls[call].user]);
      case _ =>
    }
  }

  lemma TermsTell(a: Link, b: Link, email: string)
    requires Terms(a) == Terms(b)
    ensures a.maxUses == b.maxUses && a.expiresAt == b.expiresAt && a.workspace == b.workspace && a.role == b.role
    ensures RecipientMatches(a, email) == RecipientMatches(b, email)
  {
    assert Terms(a).maxUses == a.maxUses && Terms(a).expiresAt == a.expiresAt && Terms(a).workspace == a.workspace && Terms(a).role == a.role;
    MatchesByTerms(a, b, email);
  }

  ghost predicate Moves(a: Action, call: nat) {
    (a.FindLink? || a.FindUser? || a.FindAcceptance? || a.Rejoin? || a.Transact? || a.Abort?) && a.call == call
  }

  /** A candidate that does not make the step. */
  lemma OthersStayOnTheWay(d: Ledger, a: Action, link: nat, calls: set<nat>, call: nat)
    requires Inv(d) && Fair(d, a, link, calls) && !(a.Transact? && a.call in calls)
    requires OnItsWay(d, link, call) && !Moves(a, call)
    ensures OnItsWay(Step(d, a), link, call) && (Winner(Step(d, a), call) <==> Winner(d, call))
  {
    StepOfOthers(d, a, link, calls);
    CallStays(d, a, call);
  }

  lemma CallStays(d: Ledger, a: Action, call: nat)
    requires Inv(d) && call in d.calls && !Moves(a, call)
    ensures var v := Step(d, a); call in v.calls && v.calls[call] == d.calls[call]
    ensures forall user :: user in d.users ==> user in Step(d, a).users && Step(d, a).users[user] == d.users[user]
  {
    if a.Transact? && a.call in d.calls && d.calls[a.call].pc.Reserving? {
      CommitIff(d, a.call, a.broken);
    }
  }

  lemma UsersStay(d: Ledger, a: Action, call: nat)
    requires Inv(d) && call in d.calls
    ensures call in Step(d, a).calls && Step(d, a).calls[call].user == d.calls[call].user
  {
    if a.Transact? && a.call in d.calls && d.calls[a.call].pc.Reserving? {
      CommitIff(d, a.call, a.broken);
    }
  }

  lemma CandidateStays(d: Ledger, a: Action, link: nat, calls: set<nat>, call: nat)
    requires Inv(d) && Live(d, link) && Fair(d, a, link, calls) && !(a.Transact? && a.call in calls)
    requires call in calls && OnItsWay(d, link, call)
    ensures OnItsWay(Step(d, a), link, call) && (Winner(Step(d, a), call) <==> Winner(d, call))
  {
    if Moves(a, call) {
      OwnStepOnItsWay(d, a, link, calls, call);
    } else {
      OthersStayOnTheWay(d, a, link, calls, call);
    }
  }

  lemma StaysLive(d: Ledger, a: Action, link: nat, calls: set<nat>)
    requires Inv(d) && Live(d, link) && Fair(d, a, link, calls) && !(a.Transact? && a.call in calls)
    ensures Live(Step(d, a), link) && Step(d, a).links[link] == d.links[link]
  {
    StepOfOthers(d, a, link, calls);
  }

  lemma OtherStepKeepsContest(d: Ledger, a: Action, link: nat, calls: set<nat>, before: nat)
    requires Contest(d, link, calls, before) && Fair(d, a, link, calls) && !(a.Transact? && a.call in calls)
    ensures Contest(Step(d, a), link, calls, before)
  {
    var v := Step(d, a);
    StepKeepsInv(d, a);
    StaysLive(d, a, link, calls);
    forall call | call in calls
      ensures OnItsWay(v, link, call) && (Winner(v, call) <==> Winner(d, call)) && call in d.calls
    {
      assert OnItsWay(d, link, call);
      CandidateStays(d, a, link, calls, call);
    }
    DistinctStays(d, a, calls);
    assert Winners(v, calls) == Winners(d, calls);
  }

  lemma DistinctStays(d: Ledger, a: Action, calls: set<nat>)
    requires Inv(d) && forall call :: call in calls ==> call in d.calls
    requires forall x, y {:trigger SameUser(d, x, y)} :: x in calls && y in calls && SameUser(d, x, y) ==> x == y
    ensures forall x, y {:trigger SameUser(Step(d, a), x, y)} :: x in calls && y in calls && SameUser(Step(d, a), x, y) ==> x == y
  {
    forall x, y | x in calls && y in calls && SameUser(Step(d, a), x, y)
      ensures x == y
    {
      UsersStay(d, a, x);
      UsersStay(d, a, y);
      assert SameUser(d, x, y);
    }
  }

  /** The transaction of a candidate: it wins if there is room, and is refused if there is none. */
  lemma TransactStaysOnTheWay(d: Ledger, link: nat, calls: set<nat>, before: nat, mover: nat, call: nat)
    requires Contest(d, link, calls, before) && mover in calls && call in calls
    ensures var v := Step(d, Transact(mover, false));
            mover in d.calls && OnItsWay(v, link, call) && Live(v, link) &&
            if d.calls[mover].pc.Reserving? && !Full(d.links[link]) then
              (Winner(v, call) <==> Winner(d, call) || call == mover) && !Winner(d, mover) &&
              v.links[link].useCount == d.links[link].useCount + 1
            else
              (Winner(v, call) <==> Winner(d, call)) && v.links[link].useCount == d.links[link].useCount
  {
    assert OnItsWay(d, link, mover) && OnItsWay(d, link, call);
    if d.calls[mover].pc.Reserving? {
      CommitIff(d, mover, false);
      var Call(user, Reserving(_, seen, asOf)) := d.calls[mover];
      RowsGrow(d.rows, Acceptance(link, user, mover, asOf));
      assert SameUser(d, mover, call) <==> call == mover;
    }
  }

  lemma TransactKeepsContest(d: Ledger, link: nat, calls: set<nat>, before: nat, mover: nat)
    requires Contest(d, link, calls, before) && mover in calls
    ensures Contest(Step(d, Transact(mover, false)), link, calls, before)
  {
    var a := Transact(mover, false);
    var v := Step(d, a);
    StepKeepsInv(d, a);
    assert OnItsWay(d, link, mover);
    forall call | call in calls
      ensures OnItsWay(v, link, call)
    {
      TransactStaysOnTheWay(d, link, calls, before, mover, call);
    }
    forall call | call in calls
      ensures Winner(v, call) <==> Winner(d, call) || (call == mover && d.calls[mover].pc.Reserving? && !Full(d.links[link]))
    {
      TransactStaysOnTheWay(d, link, calls, before, mover, call);
    }
    TransactStaysOnTheWay(d, link, calls, before, mover, mover);
    assert forall call :: call in calls ==> OnItsWay(d, link, call);
    DistinctStays(d, a, calls);
    if d.calls[mover].pc.Reserving? && !Full(d.links[link]) {
      assert Winners(v, calls) == Winners(d, calls) + {mover};
    } else {
      assert Winners(v, calls) == Winners(d, calls);
    }
  }

  lemma {:induction false} RunKeepsContest(d: Ledger, acts: seq<Action>, link: nat, calls: set<nat>, before: nat)
    requires Contest(d, link, calls, before) && FairRun(d, acts, link, calls)
    ensures Contest(Exec(d, acts), link, calls, before)
    decreases |acts|
  {
    if acts != [] {
      if acts[0].Transact? && acts[0].call in calls {
        TransactKeepsContest(d, link, calls, before, acts[0].call);
      } else {
        OtherStepKeepsContest(d, acts[0], link, calls, before);
      }
      RunKeepsContest(Step(d, acts[0]), acts[1..], link, calls, before);
    }
  }

  /** How many of n more accepts a link has room for. */
  function Room(l: Link, n: nat): int {
    if l.maxUses.None? then n else Min(l.maxUses.value - l.useCount, n)
  }

  /**
   Exact capacity: however the round trips of n accepts by distinct eligible users interleave,
   with each other and with everything else, exactly min(room, n) of them are accepted.
   */
  lemma ExactCapacity(d: Ledger, acts: seq<Action>, link: nat, calls: set<nat>)
    requires Reachable(d) && Live(d, link)
    requires forall call :: call in calls ==> Candidate(d, link, call)
    requires forall a, b {:trigger SameUser(d, a, b)} :: a in calls && b in calls && SameUser(d, a, b) ==> a == b
    requires FairRun(d, acts, link, calls)
    requires forall call :: call in calls ==> Settled(Exec(d, acts), call)
    ensures var v := Exec(d, acts);
            |Winners(v, calls)| == Room(d.links[link], |calls|) &&
            (forall call :: call in calls ==>
               call in v.calls && (Winner(v, call) <==> HasAccepted(v.rows, link, v.calls[call].user)) &&
               (!Winner(v, call) ==> v.calls[call].pc.Refused?)) &&
            link in v.links && v.links[link].useCount == d.links[link].useCount + Room(d.links[link], |calls|)
  {
    ReachableInv(d);
    assert LinkInv(d, link);
    assert Winners(d, calls) == {};
    forall call | call in calls
      ensures OnItsWay(d, link, call)
    {
      assert Candidate(d, link, call);
    }
    var before := d.links[link].useCount;
    RunKeepsContest(d, acts, link, calls, before);
    RunKeepsTerms(d, acts, link);
    var v := Exec(d, acts);
    assert LinkInv(v, link);
    SubsetSize(Winners(v, calls), calls);
    assert forall call :: call in calls ==> OnItsWay(v, link, call) && Settled(v, call);
    if loser :| loser in calls && !Winner(v, loser) {
      assert OnItsWay(v, link, loser) && Settled(v, loser);
      assert Full(v.links[link]);
    } else {
      assert Winners(v, calls) == calls;
    }
  }

  lemma {:induction false} RunKeepsTerms(d: Ledger, acts: seq<Action>, link: nat)
    requires Inv(d) && link in d.links
    ensures link in Exec(d, acts).links && Exec(d, acts).links[link].maxUses == d.links[link].maxUses
    decreases |acts|
  {
    if acts != [] {
      LinkLives(d, acts[0], link);
      StepKeepsInv(d, acts[0]);
      assert Terms(Step(d, acts[0]).links[link]).maxUses == Terms(d.links[link]).maxUses;
      RunKeepsTerms(Step(d, acts[0]), acts[1..], link);
    }
  }

  // ------------------------------------------------------------ domain locks

  /** What lies between the first '@' and the next one. */
  lemma DomainOfParts(local: string, domain: string)
    requires '@' !in local && '@' !in domain
    ensures DomainOf(local + "@" + domain) == domain
  {
    UpToStops(local, '@', domain);
    UpToStops(domain, '@', "");
    assert (local + "@" + domain)[|local| + 1..] == domain;
  }

  lemma LowerFixes(s: string)
    requires forall i :: 0 <= i < |s| ==> LowerChar(s[i]) == s[i]
    ensures Lower(s) == s
  {
  }

  /** A stored domain lock is lower case already. */
  lemma LocksAreLower(domain: Option<string>)
    requires NormalizeDomain(domain).Some?
    ensures NormalizeDomain(domain).value != "" && Lower(NormalizeDomain(domain).value) == NormalizeDomain(domain).value
  {
    LowerFixes(NormalizeDomain(domain).value);
  }

  lemma NormalizedParts(email: string, local: string, host: string)
    requires Trim(email) == local + "@" + host
    ensures NormalizeEmail(email) == Lower(local) + "@" + Lower(host)
  {
    LowerParts(Trim(email), local, host);
  }

  lemma LowerParts(t: string, local: string, host: string)
    requires t == local + "@" + host
    ensures Lower(t) == Lower(local) + "@" + Lower(host)
  {
    var r := Lower(local) + "@" + Lower(host);
    assert |r| == |t|;
    forall i: nat | i < |t|
      ensures Lower(t)[i] == r[i]
    {
      if i < |local| {
        assert t[i] == local[i] && r[i] == Lower(local)[i];
      } else if i > |local| {
        assert t[i] == host[i - |local| - 1] && r[i] == Lower(host)[i - |local| - 1];
      }
    }
  }

  /** A link locked to a domain admits an address exactly when its domain, lower-cased, is the normalized lock. */
  lemma DomainLockAdmits(link: Link, domain: Option<string>, email: string, local: string, host: string)
    requires link.invitedEmail.None? && link.allowedDomain == NormalizeDomain(domain) && link.allowedDomain.Some?
    requires Trim(email) == local + "@" + host && '@' !in local && '@' !in host
    ensures RecipientMatches(link, email).None? <==> Lower(host) == link.allowedDomain.value
  {
    LocksAreLower(domain);
    NormalizedDomain(email, local, host);
    LockDecides(link, email, Lower(host));
  }

  lemma NormalizedDomain(email: string, local: string, host: string)
    requires Trim(email) == local + "@" + host && '@' !in local && '@' !in host
    ensures DomainOf(NormalizeEmail(email)) == Lower(host) && Lower(Lower(host)) == Lower(host)
  {
    NormalizedParts(email, local, host);
    NoAtLowered(local);
    NoAtLowered(host);
    DomainOfParts(Lower(local), Lower(host));
    LowerFixes(Lower(host));
  }

  lemma LockDecides(link: Link, email: string, h: string)
    requires link.invitedEmail.None? && link.allowedDomain.Some? && link.allowedDomain.value != ""
    requires Lower(link.allowedDomain.value) == link.allowedDomain.value
    requires DomainOf(NormalizeEmail(email)) == h && Lower(h) == h
    ensures RecipientMatches(link, email).None? <==> h == link.allowedDomain.value
  {
  }

  lemma NoAtLowered(s: string)
    requires '@' !in s
    ensures '@' !in Lower(s)
  {
    assert forall i :: 0 <= i < |s| ==> Lower(s)[i] == LowerChar(s[i]) && s[i] in s;
  }

  // ---------------------------------------------------------------- new links

  /**
   A new link is found by its code, unused, and can be accepted until its hours are over; an
   e-mail lock admits exactly the addresses that are the same up to white space around and case.
   */
  lemma NewLinkIsOpen(d: Ledger, a: Action, now: int, email: string)
    requires Inv(d) && a.Create? && a.id !in d.links && a.code !in d.codes
    ensures var v := Step(d, a);
            LinkFound(v, a.code) == Loading(a.id, v.links[a.id]) && Count(v.rows, a.id) == 0 &&
            (CanBeAccepted(v.links[a.id], now).None? <==>
             now < d.clock + a.hours * 3600000 && a.maxUses != Some(0)) &&
            (a.domain.None? && a.invitedEmail.Some? && Trim(a.invitedEmail.value) != "" ==>
             (RecipientMatches(v.links[a.id], email).None? <==> NormalizeEmail(email) == NormalizeEmail(a.invitedEmail.value)))
  {
    CountUnknown(d, a.id);
  }

  lemma {:induction false} SpacelessIsTrim(s: string)
    requires s == "" || (!IsSpace(s[0]) && !IsSpace(s[|s| - 1]))
    ensures Trim(s) == s
  {
  }

  lemma LowerHead(c: char, x: string)
    ensures Lower([c] + x) == [LowerChar(c)] + Lower(x)
  {
    assert ([c] + x)[1..] == x;
  }

  lemma StripsAt(x: string)
    ensures StripAt(['@'] + x) == x
    ensures x == "" || x[0] != '@' ==> StripAt(x) == x
  {
    assert (['@'] + x)[1..] == x;
  }

  lemma StripsLoweredAt(domain: string)
    requires domain != "" && domain[0] != '@'
    ensures StripAt(Lower("@" + domain)) == Lower(domain) == StripAt(Lower(domain))
  {
    LowerHead('@', domain);
    StripsAt(Lower(domain));
    assert Lower(domain)[0] == LowerChar(domain[0]);
  }

  lemma DomainOnItsOwn(domain: string)
    requires domain != "" && !IsSpace(domain[0]) && !IsSpace(domain[|domain| - 1])
    ensures NormalizeDomain(Some(domain)) == if StripAt(Lower(domain)) == "" then None else Some(StripAt(Lower(domain)))
  {
    SpacelessIsTrim(domain);
  }

  /** A domain may be written with an '@' in front: it makes the same lock, the domain in lower case. */
  lemma AtIsDropped(domain: string)
    requires domain != "" && !IsSpace(domain[0]) && !IsSpace(domain[|domain| - 1]) && domain[0] != '@'
    ensures NormalizeDomain(Some("@" + domain)) == NormalizeDomain(Some(domain)) == Some(Lower(domain))
  {
    var at := "@" + domain;
    StripsLoweredAt(domain);
    DomainOnItsOwn(domain);
    assert at[|at| - 1] == domain[|domain| - 1];
    DomainOnItsOwn(at);
  }

  /** White space around a domain makes no difference, and nothing but white space or one '@' is no lock. */
  lemma BlankIsNoLock(domain: string)
    ensures NormalizeDomain(Some(domain)).None? <==> Trim(domain) == "" || Trim(domain) == "@"
  {
    var t := Lower(Trim(domain));
    if Trim(domain) != "" {
      assert t[0] == LowerChar(Trim(domain)[0]);
    }
    if t == "@" {
      assert Trim(domain) == [Trim(domain)[0]];
    }
  }

  /** Two locks admit whom each of them admits alone; the e-mail lock is looked at first. */
  lemma BothLocksHold(link: Link, email: string)
    ensures var byEmail, byDomain := link.(allowedDomain := None), link.(invitedEmail := None);
            RecipientMatches(link, email) ==
            if RecipientMatches(byEmail, email).Some? then RecipientMatches(byEmail, email) else RecipientMatches(byDomain, email)
    ensures link.invitedEmail.Some? && link.invitedEmail.value != "" ==>
              (RecipientMatches(link, email) == Some(OtherEmail) <==> NormalizeEmail(email) != link.invitedEmail.value)
  {
  }
}
