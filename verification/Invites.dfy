/**
 Invite links of the workspace service: links, members and acceptance rows shared by any
 number of accepts, revocations and role changes, interleaved at every round trip.
 */
module Invites {
  import opened Prelude
  import opened Text

  /** WorkspaceRole; Regular is MEMBER. */
  datatype Role = Owner | Admin | Regular | Guest

  datatype Link = Link(code: string, workspace: nat, role: Role, maxUses: Option<nat>, useCount: nat, expiresAt: int,
                       allowedDomain: Option<string>, invitedEmail: Option<string>, isRevoked: bool)

  /** An acceptance row; `call` and `asOf` are history: who inserted it, and the time its guard used. */
  datatype Acceptance = Acceptance(link: nat, user: nat, call: nat, asOf: int)

  datatype InviteError =
    | CodeRequired | LinkNotFound | UserNotFound
    | Revoked | Expired | LimitReached
    | OtherEmail | OtherDomain
    | Unavailable | DuplicateAcceptance | Broken

  /** Where an accept stands between two round trips; `seen` is the link as it read it. */
  datatype Pc =
    | Looking(code: string)
    | Loading(link: nat, seen: Link)
    | Checking(link: nat, seen: Link)
    | Rejoining(link: nat, seen: Link)
    | Reserving(link: nat, seen: Link, asOf: int)
    | Accepted(link: nat, already: bool, role: Role)
    | Refused(error: InviteError)

  datatype Call = Call(user: nat, pc: Pc)

  datatype Ledger = Ledger(
    links: map<nat, Link>,
    codes: map<string, nat>,
    members: map<(nat, nat), Role>,
    rows: seq<Acceptance>,
    users: map<nat, string>,
    calls: map<nat, Call>,
    clock: int)

  const EMPTY := Ledger(map[], map[], map[], [], map[], map[], 0)

  // -------------------------------------------------------- normalization

  function NormalizeEmail(email: string): string {
    Lower(Trim(email))
  }

  function StripAt(s: string): string {
    if s != "" && s[0] == '@' then s[1..] else s
  }

  /** normalizeDomain: an empty result is no lock. */
  function NormalizeDomain(domain: Option<string>): Option<string> {
    if domain.None? || domain.value == "" then None
    else
      var normalized := StripAt(Lower(Trim(domain.value)));
      if normalized == "" then None else Some(normalized)
  }

  /** email.split('@')[1] ?? '' */
  function DomainOf(email: string): string {
    var local := UpTo(email, '@');
    if |local| < |email| then UpTo(email[|local| + 1..], '@') else ""
  }

  // ---------------------------------------------------------------- guards

  /** ensureInviteLinkCanBeAccepted */
  function CanBeAccepted(link: Link, now: int): Option<InviteError> {
    if link.isRevoked then Some(Revoked)
    else if link.expiresAt <= now then Some(Expired)
    else if link.maxUses.Some? && link.useCount >= link.maxUses.value then Some(LimitReached)
    else None
  }

  /** ensureInviteRecipientMatches: an empty lock is no lock. */
  function RecipientMatches(link: Link, email: string): Option<InviteError> {
    var normalized := NormalizeEmail(email);
    if link.invitedEmail.Some? && link.invitedEmail.value != "" && link.invitedEmail.value != normalized then
      Some(OtherEmail)
    else if link.allowedDomain.Some? && link.allowedDomain.value != "" &&
            Lower(DomainOf(normalized)) != Lower(link.allowedDomain.value) then
      Some(OtherDomain)
    else
      None
  }

  /** The checks before anything is written, in their order. */
  function Obstacle(link: Link, now: int, email: string): Option<InviteError> {
    if CanBeAccepted(link, now).Some? then CanBeAccepted(link, now) else RecipientMatches(link, email)
  }

  // ------------------------------------------------------- the transaction

  predicate HasAccepted(rows: seq<Acceptance>, link: nat, user: nat) {
    exists i :: 0 <= i < |rows| && rows[i].link == link && rows[i].user == user
  }

  function Count(rows: seq<Acceptance>, link: nat): nat {
    if rows == [] then 0
    else Count(rows[..|rows| - 1], link) + if rows[|rows| - 1].link == link then 1 else 0
  }

  /** updateMany with the guard on the current row; the limit compared with is the one read before. */
  function Reserve(d: Ledger, link: nat, seen: Link, asOf: int): Result<Ledger, InviteError> {
    if link in d.links && !d.links[link].isRevoked && d.links[link].expiresAt > asOf &&
       (d.links[link].maxUses.None? || d.links[link].useCount < if seen.maxUses.Some? then seen.maxUses.value else 0)
    then Ok(d.(links := d.links[link := d.links[link].(useCount := d.links[link].useCount + 1)]))
    else Err(Unavailable)
  }

  /** workspaceMember.upsert with an empty update. */
  function UpsertMember(d: Ledger, link: Link, user: nat): Ledger {
    if (link.workspace, user) in d.members then d
    else d.(members := d.members[(link.workspace, user) := link.role])
  }

  /** workspaceInviteAcceptance.create: unique on link and user. */
  function CreateAcceptance(d: Ledger, row: Acceptance): Result<Ledger, InviteError> {
    if HasAccepted(d.rows, row.link, row.user) then Err(DuplicateAcceptance)
    else Ok(d.(rows := d.rows + [row]))
  }

  /** The transaction: an error anywhere leaves nothing of it behind. `broken` fails the audit entry. */
  function Transaction(d: Ledger, row: Acceptance, seen: Link, broken: bool): Result<Ledger, InviteError> {
    match Reserve(d, row.link, seen, row.asOf)
    case Err(e) => Err(e)
    case Ok(reserved) =>
      match CreateAcceptance(UpsertMember(reserved, seen, row.user), row)
      case Err(e) => Err(e)
      case Ok(inserted) => if broken then Err(Broken) else Ok(inserted)
  }

  // ---------------------------------------------------------------- machine

  datatype Action =
    | Create(id: nat, code: string, workspace: nat, role: Role, hours: nat, maxUses: Option<nat>,
             invitedEmail: Option<string>, domain: Option<string>)
    | Revoke(id: nat)
    | SetRole(workspace: nat, user: nat, role: Role)
    | Register(user: nat, email: string)
    | Advance(now: int)
    | Open(call: nat, user: nat, code: string)
    | FindLink(call: nat)
    | FindUser(call: nat)
    | FindAcceptance(call: nat)
    | Rejoin(call: nat)
    | Transact(call: nat, broken: bool)
    | Abort(call: nat)

  predicate At(d: Ledger, call: nat, user: nat, pc: Pc) {
    call in d.calls && d.calls[call] == Call(user, pc)
  }

  function Goto(d: Ledger, call: nat, pc: Pc): Ledger
    requires call in d.calls
  {
    d.(calls := d.calls[call := d.calls[call].(pc := pc)])
  }

  /** createInviteLinkEntity */
  function NewLink(a: Action, now: int): Link
    requires a.Create?
  {
    Link(a.code, a.workspace, a.role, a.maxUses, 0, now + a.hours * 60 * 60 * 1000, NormalizeDomain(a.domain),
         if a.invitedEmail.Some? && a.invitedEmail.value != "" then Some(NormalizeEmail(a.invitedEmail.value)) else None,
         false)
  }

  function Opened(code: string): Pc {
    if Trim(code) == "" then Refused(CodeRequired) else Looking(Trim(code))
  }

  function LinkFound(d: Ledger, code: string): Pc {
    if code in d.codes && d.codes[code] in d.links then Loading(d.codes[code], d.links[d.codes[code]])
    else Refused(LinkNotFound)
  }

  function Checked(d: Ledger, user: nat, link: nat, seen: Link): Pc {
    if user !in d.users then Refused(UserNotFound)
    else
      match Obstacle(seen, d.clock, d.users[user])
      case Some(e) => Refused(e)
      case None => Checking(link, seen)
  }

  function Committed(d: Ledger, call: nat, user: nat, link: nat, seen: Link, asOf: int, broken: bool): Ledger
    requires call in d.calls
  {
    match Transaction(d, Acceptance(link, user, call, asOf), seen, broken)
    case Err(e) => Goto(d, call, Refused(e))
    case Ok(v) =>
      if (seen.workspace, user) in v.members && call in v.calls then
        Goto(v, call, Accepted(link, false, v.members[(seen.workspace, user)]))
      else d
  }

  function AcceptStep(d: Ledger, a: Action): Ledger
    requires a.FindLink? || a.FindUser? || a.FindAcceptance? || a.Rejoin? || a.Transact? || a.Abort?
  {
    if a.call !in d.calls then d
    else
      var user := d.calls[a.call].user;
      match (d.calls[a.call].pc, a)
      case (Looking(code), FindLink(_)) => Goto(d, a.call, LinkFound(d, code))
      case (Loading(link, seen), FindUser(_)) => Goto(d, a.call, Checked(d, user, link, seen))
      case (Checking(link, seen), FindAcceptance(_)) =>
        Goto(d, a.call, if HasAccepted(d.rows, link, user) then Rejoining(link, seen) else Reserving(link, seen, d.clock))
      case (Rejoining(link, seen), Rejoin(_)) =>
        var v := UpsertMember(d, seen, user);
        Goto(v, a.call, Accepted(link, true, v.members[(seen.workspace, user)]))
      case (Reserving(link, seen, asOf), Transact(_, broken)) => Committed(d, a.call, user, link, seen, asOf, broken)
      case (pc, Abort(_)) => if pc.Accepted? || pc.Refused? then d else Goto(d, a.call, Refused(Broken))
      case _ => d
  }

  function Step(d: Ledger, a: Action): Ledger {
    match a
    case Create(id, code, _, _, _, _, _, _) =>
      if id in d.links || code in d.codes then d
      else d.(links := d.links[id := NewLink(a, d.clock)], codes := d.codes[code := id])
    case Revoke(id) => if id in d.links then d.(links := d.links[id := d.links[id].(isRevoked := true)]) else d
    case SetRole(workspace, user, role) => d.(members := d.members[(workspace, user) := role])
    case Register(user, email) => if user in d.users then d else d.(users := d.users[user := email])
    case Advance(now) => d.(clock := Max(d.clock, now))
    case Open(call, user, code) =>
      if call in d.calls then d else d.(calls := d.calls[call := Call(user, Opened(code))])
    case _ => AcceptStep(d, a)
  }

  function Exec(d: Ledger, acts: seq<Action>): Ledger
    decreases |acts|
  {
    if acts == [] then d else Exec(Step(d, acts[0]), acts[1..])
  }

  // -------------------------------------------------------------- invariant

  /** What a link was created with and keeps for good. */
  function Terms(l: Link): Link {
    l.(useCount := 0, isRevoked := false)
  }

  ghost predicate LinkInv(d: Ledger, id: nat) {
    id in d.links ==>
      var l := d.links[id];
      l.useCount == Count(d.rows, id) && (l.maxUses.Some? ==> l.useCount <= l.maxUses.value) &&
      l.code in d.codes && d.codes[l.code] == id
  }

  ghost predicate CodeInv(d: Ledger, code: string) {
    code in d.codes ==> d.codes[code] in d.links && d.links[d.codes[code]].code == code
  }

  /** An acceptance was made by a registered user who passes the locks, in time, and is a member. */
  ghost predicate RowInv(d: Ledger, row: Acceptance) {
    && row.link in d.links
    && row.user in d.users
    && RecipientMatches(d.links[row.link], d.users[row.user]).None?
    && (d.links[row.link].workspace, row.user) in d.members
    && row.asOf < d.links[row.link].expiresAt
    && row.call in d.calls && d.calls[row.call].user == row.user
    && d.calls[row.call].pc.Accepted? && !d.calls[row.call].pc.already && d.calls[row.call].pc.link == row.link
  }

  ghost predicate Apart(rows: seq<Acceptance>, i: nat, j: nat) {
    i < j < |rows| ==> rows[i].call != rows[j].call && (rows[i].link == rows[j].link ==> rows[i].user != rows[j].user)
  }

  ghost predicate SeenInv(d: Ledger, link: nat, seen: Link) {
    link in d.links && Terms(d.links[link]) == Terms(seen) && seen.useCount <= d.links[link].useCount
  }

  predicate InsertedBy(rows: seq<Acceptance>, call: nat) {
    exists i :: 0 <= i < |rows| && rows[i].call == call
  }

  ghost predicate CallInv(d: Ledger, call: nat) {
    call in d.calls ==>
      var user := d.calls[call].user;
      match d.calls[call].pc
      case Looking(_) => true
      case Loading(link, seen) => SeenInv(d, link, seen)
      case Checking(link, seen) => SeenInv(d, link, seen) && Entitled(d, user, seen)
      case Rejoining(link, seen) => SeenInv(d, link, seen) && Entitled(d, user, seen) && HasAccepted(d.rows, link, user)
      case Reserving(link, seen, asOf) => SeenInv(d, link, seen) && Entitled(d, user, seen) && asOf <= d.clock
      case Accepted(link, already, _) =>
        HasAccepted(d.rows, link, user) && InsertedBy(d.rows, call) == !already
      case Refused(_) => true
  }

  ghost predicate Entitled(d: Ledger, user: nat, link: Link) {
    user in d.users && RecipientMatches(link, d.users[user]).None?
  }

  ghost predicate Inv(d: Ledger) {
    && (forall id: nat {:trigger LinkInv(d, id)} :: LinkInv(d, id))
    && (forall code: string {:trigger CodeInv(d, code)} :: CodeInv(d, code))
    && (forall row {:trigger RowInv(d, row)} {:trigger row in d.rows} :: row in d.rows ==> RowInv(d, row))
    && (forall i: nat, j: nat {:trigger Apart(d.rows, i, j)} :: Apart(d.rows, i, j))
    && (forall call: nat {:trigger CallInv(d, call)} :: CallInv(d, call))
  }

  ghost predicate Reachable(d: Ledger) {
    exists acts: seq<Action> :: Exec(EMPTY, acts) == d
  }

  lemma MatchesByTerms(a: Link, b: Link, email: string)
    requires Terms(a) == Terms(b)
    ensures RecipientMatches(a, email) == RecipientMatches(b, email)
  {
    assert a.invitedEmail == Terms(a).invitedEmail && a.allowedDomain == Terms(a).allowedDomain;
  }

  lemma CountNext(rows: seq<Acceptance>, row: Acceptance, link: nat)
    ensures Count(rows + [row], link) == Count(rows, link) + if row.link == link then 1 else 0
  {
    assert (rows + [row])[..|rows|] == rows;
  }

  lemma CountUnknown(d: Ledger, id: nat)
    requires Inv(d) && id !in d.links
    ensures Count(d.rows, id) == 0
  {
    CountUnknownIn(d, d.rows, id);
  }

  lemma {:induction false} CountUnknownIn(d: Ledger, rows: seq<Acceptance>, id: nat)
    requires Inv(d) && id !in d.links && forall row :: row in rows ==> row in d.rows
    ensures Count(rows, id) == 0
  {
    if rows != [] {
      assert RowInv(d, rows[|rows| - 1]);
      CountUnknownIn(d, rows[..|rows| - 1], id);
    }
  }

  // ------------------------------------------- every step keeps the invariant

  lemma CreateKeeps(d: Ledger, a: Action)
    requires Inv(d) && a.Create?
    ensures Inv(Step(d, a))
  {
    var v := Step(d, a);
    if v != d {
      CountUnknown(d, a.id);
      assert forall id: nat {:trigger LinkInv(v, id)} :: LinkInv(d, id) ==> LinkInv(v, id);
      assert forall code: string {:trigger CodeInv(v, code)} :: CodeInv(d, code) ==> CodeInv(v, code);
      assert forall row {:trigger RowInv(v, row)} :: RowInv(d, row) ==> RowInv(v, row);
      assert forall call: nat {:trigger CallInv(v, call)} :: CallInv(d, call) ==> CallInv(v, call);
    }
  }

  lemma RevokeKeeps(d: Ledger, a: Action)
    requires Inv(d) && a.Revoke?
    ensures Inv(Step(d, a))
  {
    var v := Step(d, a);
    forall id: nat ensures LinkInv(v, id) { assert LinkInv(d, id); }
    forall code: string ensures CodeInv(v, code) { assert CodeInv(d, code); }
    forall row | row in v.rows ensures RowInv(v, row) {
      assert RowInv(d, row);
      MatchesByTerms(d.links[row.link], v.links[row.link], d.users[row.user]);
    }
    forall call: nat ensures CallInv(v, call) { assert CallInv(d, call); }
    assert v.rows == d.rows;
    assert forall i: nat, j: nat {:trigger Apart(v.rows, i, j)} :: Apart(d.rows, i, j);
  }

  lemma OpenKeeps(d: Ledger, a: Action)
    requires Inv(d) && a.Open?
    ensures Inv(Step(d, a))
  {
    var v := Step(d, a);
    if v != d {
      assert v == d.(calls := d.calls[a.call := Call(a.user, Opened(a.code))]);
      assert forall id: nat {:trigger LinkInv(v, id)} :: LinkInv(d, id) ==> LinkInv(v, id);
      assert forall code: string {:trigger CodeInv(v, code)} :: CodeInv(d, code) ==> CodeInv(v, code);
      assert forall row {:trigger RowInv(v, row)} :: RowInv(d, row) ==> RowInv(v, row);
      assert forall call: nat {:trigger CallInv(v, call)} :: CallInv(d, call) ==> CallInv(v, call);
    }
  }

  lemma OutsideKeeps(d: Ledger, a: Action)
    requires Inv(d) && (a.SetRole? || a.Register? || a.Advance?)
    ensures Inv(Step(d, a))
  {
    var v := Step(d, a);
    forall id: nat ensures LinkInv(v, id) { assert LinkInv(d, id); }
    forall code: string ensures CodeInv(v, code) { assert CodeInv(d, code); }
    forall row | row in v.rows ensures RowInv(v, row) { assert RowInv(d, row); }
    forall call: nat ensures CallInv(v, call) { assert CallInv(d, call); }
    assert v.rows == d.rows;
    assert forall i: nat, j: nat {:trigger Apart(v.rows, i, j)} :: Apart(d.rows, i, j);
  }

  /** A step that only moves one unfinished call to a pc that is in order, and may add the member. */
  lemma MoveKeeps(d: Ledger, v: Ledger, call: nat, pc: Pc)
    requires Inv(d) && call in d.calls && !d.calls[call].pc.Accepted?
    requires v == Goto(d.(members := v.members), call, pc) && d.members.Keys <= v.members.Keys
    requires CallInv(v, call)
    ensures Inv(v)
  {
    forall id: nat ensures LinkInv(v, id) { assert LinkInv(d, id); }
    forall code: string ensures CodeInv(v, code) { assert CodeInv(d, code); }
    forall row | row in v.rows ensures RowInv(v, row) { assert RowInv(d, row); }
    forall k: nat ensures CallInv(v, k) { assert CallInv(d, k); }
    assert v.rows == d.rows;
    assert forall i: nat, j: nat {:trigger Apart(v.rows, i, j)} :: Apart(d.rows, i, j);
  }

  lemma UnfinishedInsertsNothing(d: Ledger, call: nat)
    requires Inv(d) && call in d.calls && !d.calls[call].pc.Accepted?
    ensures !InsertedBy(d.rows, call)
  {
    forall i | 0 <= i < |d.rows|
      ensures d.rows[i].call != call
    {
      assert RowInv(d, d.rows[i]);
    }
  }

  lemma LooksKeep(d: Ledger, a: Action)
    requires Inv(d) && (a.FindLink? || a.Abort?)
    ensures Inv(Step(d, a))
  {
    var v := Step(d, a);
    if v != d {
      assert CallInv(d, a.call);
      assert CallInv(v, a.call);
      MoveKeeps(d, v, a.call, v.calls[a.call].pc);
    }
  }

  lemma ReadKeeps(d: Ledger, a: Action)
    requires Inv(d) && (a.FindUser? || a.FindAcceptance?)
    ensures Inv(Step(d, a))
  {
    var v := Step(d, a);
    if v != d {
      assert CallInv(d, a.call);
      assert CallInv(v, a.call);
      MoveKeeps(d, v, a.call, v.calls[a.call].pc);
    }
  }

  lemma RejoinKeeps(d: Ledger, a: Action)
    requires Inv(d) && a.Rejoin?
    ensures Inv(Step(d, a))
  {
    var v := Step(d, a);
    if v != d {
      assert CallInv(d, a.call);
      UnfinishedInsertsNothing(d, a.call);
      assert CallInv(v, a.call);
      MoveKeeps(d, v, a.call, v.calls[a.call].pc);
    }
  }

  /** What a transaction that commits has done to the ledger. */
  ghost predicate CommitsTo(d: Ledger, v: Ledger, row: Acceptance) {
    && row.call in d.calls && row.link in d.links
    && v.links == d.links[row.link := d.links[row.link].(useCount := d.links[row.link].useCount + 1)]
    && v.codes == d.codes && v.users == d.users && v.clock == d.clock
    && v.rows == d.rows + [row]
    && var key := (d.links[row.link].workspace, row.user);
       v.members == (if key in d.members then d.members else d.members[key := d.links[row.link].role]) &&
       key in v.members &&
       v.calls == d.calls[row.call := Call(row.user, Accepted(row.link, false, v.members[key]))]
  }

  predicate Usable(d: Ledger, link: nat, asOf: int) {
    link in d.links && CanBeAccepted(d.links[link], asOf).None?
  }

  /** The guard under which the transaction commits. */
  predicate Commits(d: Ledger, link: nat, user: nat, asOf: int) {
    Usable(d, link, asOf) && !HasAccepted(d.rows, link, user)
  }

  /**
   The transaction commits exactly when the link, as it is now, is unrevoked, unexpired at the
   time taken and has room, and the user has no acceptance; otherwise it leaves no trace but the error.
   */
  lemma CommitIff(d: Ledger, call: nat, broken: bool)
    requires Inv(d) && call in d.calls && d.calls[call].pc.Reserving?
    ensures var Call(user, Reserving(link, seen, asOf)) := d.calls[call];
            var v := Step(d, Transact(call, broken));
            if Commits(d, link, user, asOf) && !broken then
              CommitsTo(d, v, Acceptance(link, user, call, asOf))
            else
              v == Goto(d, call, Refused(
                if !Usable(d, link, asOf) then Unavailable
                else if !Commits(d, link, user, asOf) then DuplicateAcceptance
                else Broken))
  {
    assert CallInv(d, call);
    var Call(user, Reserving(link, seen, asOf)) := d.calls[call];
    assert seen.maxUses == d.links[link].maxUses && seen.workspace == d.links[link].workspace && seen.role == d.links[link].role by {
      assert Terms(seen).maxUses == seen.maxUses && Terms(seen).workspace == seen.workspace && Terms(seen).role == seen.role;
    }
  }

  lemma CommitKeepsLinks(d: Ledger, v: Ledger, row: Acceptance)
    requires Inv(d) && CommitsTo(d, v, row) && CanBeAccepted(d.links[row.link], row.asOf).None?
    ensures forall id: nat {:trigger LinkInv(v, id)} :: LinkInv(v, id)
    ensures forall code: string {:trigger CodeInv(v, code)} :: CodeInv(v, code)
  {
    forall id: nat ensures LinkInv(v, id) {
      assert LinkInv(d, id);
      CountNext(d.rows, row, id);
    }
    forall code: string ensures CodeInv(v, code) {
      assert CodeInv(d, code);
    }
  }

  lemma CommitKeepsRows(d: Ledger, v: Ledger, row: Acceptance)
    requires Inv(d) && CommitsTo(d, v, row) && Commits(d, row.link, row.user, row.asOf)
    requires Entitled(d, row.user, d.links[row.link]) && !d.calls[row.call].pc.Accepted?
    ensures forall r {:trigger RowInv(v, r)} {:trigger r in v.rows} :: r in v.rows ==> RowInv(v, r)
    ensures forall i: nat, j: nat {:trigger Apart(v.rows, i, j)} :: Apart(v.rows, i, j)
  {
    UnfinishedInsertsNothing(d, row.call);
    forall r | r in v.rows ensures RowInv(v, r) {
      if r in d.rows {
        assert RowInv(d, r);
        assert r.call != row.call;
        MatchesByTerms(d.links[r.link], v.links[r.link], d.users[r.user]);
      } else {
        MatchesByTerms(d.links[r.link], v.links[r.link], d.users[r.user]);
      }
    }
    forall i: nat, j: nat ensures Apart(v.rows, i, j) {
      assert Apart(d.rows, i, j);
    }
  }

  lemma RowsGrow(rows: seq<Acceptance>, row: Acceptance)
    ensures forall link, user :: HasAccepted(rows + [row], link, user) <==>
                                 HasAccepted(rows, link, user) || (row.link == link && row.user == user)
    ensures forall call :: InsertedBy(rows + [row], call) <==> InsertedBy(rows, call) || row.call == call
  {
    var more := rows + [row];
    assert more[|rows|] == row;
    assert forall i :: 0 <= i < |rows| ==> more[i] == rows[i];
  }

  lemma CommitKeepsCalls(d: Ledger, v: Ledger, row: Acceptance)
    requires Inv(d) && CommitsTo(d, v, row) && d.calls[row.call].user == row.user
    ensures forall call: nat {:trigger CallInv(v, call)} :: CallInv(v, call)
  {
    RowsGrow(d.rows, row);
    forall call: nat ensures CallInv(v, call) {
      assert CallInv(d, call);
    }
  }

  lemma TransactKeeps(d: Ledger, call: nat, broken: bool)
    requires Inv(d)
    ensures Inv(Step(d, Transact(call, broken)))
  {
    var v := Step(d, Transact(call, broken));
    if v != d {
      CommitIff(d, call, broken);
      assert CallInv(d, call);
      var Call(user, Reserving(link, seen, asOf)) := d.calls[call];
      if Commits(d, link, user, asOf) && !broken {
        var row := Acceptance(link, user, call, asOf);
        MatchesByTerms(seen, d.links[link], d.users[user]);
        CommitKeepsLinks(d, v, row);
        CommitKeepsRows(d, v, row);
        CommitKeepsCalls(d, v, row);
      } else {
        MoveKeeps(d, v, call, v.calls[call].pc);
      }
    }
  }

  lemma StepKeepsInv(d: Ledger, a: Action)
    requires Inv(d)
    ensures Inv(Step(d, a))
  {
    match a {
      case Create(_, _, _, _, _, _, _, _) => CreateKeeps(d, a);
      case Transact(call, broken) => TransactKeeps(d, call, broken);
      case Revoke(_) => RevokeKeeps(d, a);
      case Open(_, _, _) => OpenKeeps(d, a);
      case FindLink(_) => LooksKeep(d, a);
      case FindUser(_) => ReadKeeps(d, a);
      case FindAcceptance(_) => ReadKeeps(d, a);
      case Rejoin(_) => RejoinKeeps(d, a);
      case Abort(_) => LooksKeep(d, a);
      case _ => OutsideKeeps(d, a);
    }
  }

  lemma {:induction false} ExecKeepsInv(d: Ledger, acts: seq<Action>)
    requires Inv(d)
    ensures Inv(Exec(d, acts))
    decreases |acts|
  {
    if acts != [] {
      StepKeepsInv(d, acts[0]);
      ExecKeepsInv(Step(d, acts[0]), acts[1..]);
    }
  }

  lemma ReachableInv(d: Ledger)
    requires Reachable(d)
    ensures Inv(d)
  {
    var acts: seq<Action> :| Exec(EMPTY, acts) == d;
    ExecKeepsInv(EMPTY, acts);
  }

  lemma {:induction false} ExecAppend(d: Ledger, acts: seq<Action>, a: Action)
    ensures Exec(d, acts + [a]) == Step(Exec(d, acts), a)
    decreases |acts|
  {
    if acts == [] {
      assert acts + [a] == [a];
    } else {
      assert (acts + [a])[1..] == acts[1..] + [a];
      ExecAppend(Step(d, acts[0]), acts[1..], a);
    }
  }

  lemma ReachableStep(d: Ledger, a: Action)
    requires Reachable(d)
    ensures Reachable(Step(d, a))
  {
    var acts: seq<Action> :| Exec(EMPTY, acts) == d;
    ExecAppend(EMPTY, acts, a);
  }
}
