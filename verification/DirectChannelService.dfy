/** What holds of direct channels over whole runs, and createDirectChannel as it runs among others. */
module DirectChannelService {
  import opened Prelude
  import opened Text
  import opened DirectChannels

  // --------------------------------------------------------- over whole runs

  ghost predicate OrdinaryHolds(d: Directory, workspace: nat, name: string) {
    exists id {:trigger d.channels[id]} :: Holds(d, id, workspace, name) && !d.channels[id].kind.Direct?
  }

  /** A direct channel belongs to one pair of members of its workspace, under the pair's name, and is never archived. */
  lemma DirectChannelsArePairs(d: Directory, id: nat) returns (a: string, b: string)
    requires Reachable(d) && id in d.channels && d.channels[id].kind.Direct?
    ensures a != b && d.channels[id].members == {a, b} && d.channels[id].name == DirectName(a, b)
    ensures IsMatch(d, id, d.channels[id].workspace, a, b) && InWorkspace(d, d.channels[id].workspace, {a, b})
    ensures forall x, y :: IsMatch(d, id, d.channels[id].workspace, x, y) && x != y ==> {x, y} == {a, b}
  {
    ReachableInv(d);
    assert DirectInv(d, id);
    a, b :| a != b && IsId(a) && IsId(b) && d.channels[id].members == {a, b} && d.channels[id].name == DirectName(a, b) &&
            InWorkspace(d, d.channels[id].workspace, {a, b});
    forall x, y | IsMatch(d, id, d.channels[id].workspace, x, y) && x != y
      ensures {x, y} == {a, b}
    {
      assert x in {a, b} && y in {a, b};
    }
  }

  ghost predicate Obtained(d: Directory, call: nat, id: nat) {
    call in d.calls && d.calls[call].pc == Got(id)
  }

  /** Two calls were given the same channel exactly when they asked for the same pair in the same workspace, in either order. */
  lemma SamePairSameChannel(d: Directory, k: nat, l: nat, i: nat, j: nat)
    requires Reachable(d) && Obtained(d, k, i) && Obtained(d, l, j)
    ensures i == j <==>
            d.calls[k].workspace == d.calls[l].workspace &&
            {d.calls[k].requester, d.calls[k].target} == {d.calls[l].requester, d.calls[l].target}
  {
    ReachableInv(d);
    assert CallInv(d, k) && CallInv(d, l);
    IdsOf(d, k);
    IdsOf(d, l);
    var c, e := d.calls[k], d.calls[l];
    IndexesAgree(d, c.workspace, c.requester, c.target);
    var a, b := DirectChannelsArePairs(d, i);
    if c.workspace == e.workspace && {c.requester, c.target} == {e.requester, e.target} {
      assert c.requester in {e.requester, e.target} && c.target in {e.requester, e.target};
      assert IsMatch(d, j, c.workspace, c.requester, c.target);
    }
  }

  /** A call gets its channel exactly when no ordinary channel holds the pair's name. */
  lemma GotUnlessNameTaken(d: Directory, call: nat)
    requires Reachable(d) && call in d.calls
    requires d.calls[call].pc.Got? || d.calls[call].pc == Failed(NameTaken)
    ensures var c := d.calls[call];
            c.pc.Got? <==> !OrdinaryHolds(d, c.workspace, DirectName(c.requester, c.target))
  {
    ReachableInv(d);
    assert CallInv(d, call);
    var c := d.calls[call];
    if c.pc.Got? {
      IdsOf(d, call);
      IndexesAgree(d, c.workspace, c.requester, c.target);
      forall id | Holds(d, id, c.workspace, DirectName(c.requester, c.target))
        ensures d.channels[id].kind.Direct?
      {
        assert Apart(d, id, c.pc.id);
      }
    }
  }

  lemma TakenName()
    ensures Trim("dm:a:b") == "dm:a:b" == DirectName("a", "b") && Trim("b") == "b"
  {
    assert Before("a", "b") && !Before("b", "a");
  }

  const SQUATTER := Channel(0, "dm:a:b", Public, {"a"}, false)

  /** Users a and b, an ordinary channel under their name, and a request of a for b at pc. */
  function Squatted(calls: map<nat, Call>): Directory {
    Directory(map[0 := SQUATTER], {(0, "a"), (0, "b")}, calls)
  }

  function With(pc: Pc): Directory {
    Squatted(map[0 := Call(0, "a", "b", pc)])
  }

  lemma SquatterIsReachable()
    ensures Reachable(Squatted(map[]))
  {
    assert Exec(EMPTY, []) == EMPTY;
    var d1 := Step(EMPTY, AddUser(0, "a"));
    ReachableStep(EMPTY, AddUser(0, "a"));
    var d2 := Step(d1, AddUser(0, "b"));
    ReachableStep(d1, AddUser(0, "b"));
    assert d2 == Directory(map[], {(0, "a"), (0, "b")}, map[]);
    var create := Create(0, 0, "a", "dm:a:b", {}, false);
    Squats(d2, create);
    ReachableStep(d2, create);
  }

  lemma Squats(d: Directory, create: Action)
    requires d == Directory(map[], {(0, "a"), (0, "b")}, map[]) && create == Create(0, 0, "a", "dm:a:b", {}, false)
    ensures Step(d, create) == Squatted(map[])
  {
    TakenName();
    assert Requested(create) == {};
    assert {"a"} + Requested(create) == {"a"};
    assert OrdinaryChannel(create) == SQUATTER;
  }

  lemma SquattedSteps()
    ensures Step(Squatted(map[]), Ask(0, 0, "a", "b")) == With(Asked)
    ensures Step(With(Asked), CheckUsers(0)) == With(Finding)
    ensures Step(With(Finding), Find(0, 0)) == With(Creating)
    ensures Step(With(Refinding), Find(0, 0)) == With(Failed(NameTaken))
  {
    TakenName();
  }

  lemma SquattedStore()
    ensures Step(With(Creating), Store(0, 1)) == With(Refinding)
  {
    TakenName();
    assert Holds(With(Creating), 0, 0, DirectName("a", "b"));
  }

  /** A run in which an ordinary channel takes the name first, and the request fails. */
  lemma NameTakenFirst() returns (d: Directory)
    ensures Reachable(d) && 0 in d.calls && d.calls[0] == Call(0, "a", "b", Failed(NameTaken))
  {
    SquatterIsReachable();
    SquattedSteps();
    SquattedStore();
    ReachableStep(Squatted(map[]), Ask(0, 0, "a", "b"));
    ReachableStep(With(Asked), CheckUsers(0));
    ReachableStep(With(Finding), Find(0, 0));
    ReachableStep(With(Creating), Store(0, 1));
    ReachableStep(With(Refinding), Find(0, 0));
    d := With(Failed(NameTaken));
  }

  /** A direct channel once there is found in every continuation, by whoever looks. */
  lemma DirectChannelsStay(d: Directory, acts: seq<Action>, id: nat, workspace: nat, a: string, b: string)
    requires Reachable(d) && IsMatch(d, id, workspace, a, b) && IsId(a) && IsId(b) && a != b
    ensures var v := Exec(d, acts);
            forall pick :: IsMatch(v, pick, workspace, a, b) <==> pick == id
  {
    var v := Exec(d, acts);
    ExecExtends(d, acts);
    ReachableInv(d);
    ExecKeepsInv(d, acts);
    assert KeptChannel(d, v, id);
    IndexesAgree(v, workspace, a, b);
  }

  // ------------------------------------------------------- the service itself

  predicate IsForeign(a: Action, call: nat) {
    match a
    case Ask(k, _, _, _) => k != call
    case CheckUsers(k) => k != call
    case Find(k, _) => k != call
    case Store(k, _) => k != call
    case Abort(k) => k != call
    case _ => true
  }

  ghost predicate Interfered(d: Directory, v: Directory, call: nat) {
    && Reachable(v) && Extends(d, v)
    && (call in d.calls ==> call in v.calls && v.calls[call] == d.calls[call])
  }

  lemma ForeignStep(d: Directory, a: Action, call: nat)
    requires IsForeign(a, call) && call in d.calls
    ensures call in Step(d, a).calls && Step(d, a).calls[call] == d.calls[call]
  {
  }

  lemma {:induction false} ForeignExec(d: Directory, acts: seq<Action>, call: nat)
    requires Reachable(d) && forall a :: a in acts ==> IsForeign(a, call)
    ensures Interfered(d, Exec(d, acts), call)
    decreases |acts|
  {
    if acts != [] {
      var v := Step(d, acts[0]);
      ReachableStep(d, acts[0]);
      if call in d.calls {
        ForeignStep(d, acts[0], call);
      }
      ForeignExec(v, acts[1..], call);
    }
    ExecExtends(d, acts);
  }

  class Database {
    var directory: Directory

    constructor ()
      ensures directory == EMPTY && Reachable(directory)
    {
      directory := EMPTY;
      assert Exec(EMPTY, []) == EMPTY;
    }

    /** Any number of steps of anybody else. */
    method Others(call: nat)
      requires Reachable(directory)
      modifies this
      ensures Interfered(old(directory), directory, call)
    {
      var acts: seq<Action> := *;
      if forall a | a in acts :: IsForeign(a, call) {
        ForeignExec(directory, acts, call);
        directory := Exec(directory, acts);
      }
    }

    method Perform(a: Action)
      requires Reachable(directory)
      modifies this
      ensures directory == Step(old(directory), a) && Reachable(directory)
    {
      ReachableStep(directory, a);
      directory := Step(directory, a);
    }

    /** ensureWorkspaceUsers */
    method EnsureWorkspaceUsers(call: nat, workspace: nat, users: set<string>) returns (ok: bool)
      requires Reachable(directory)
      modifies this
      ensures directory == Step(old(directory), CheckUsers(call)) && Reachable(directory)
      ensures ok == InWorkspace(old(directory), workspace, users)
    {
      ok := forall user | user in users :: (workspace, user) in directory.memberships;
      Perform(CheckUsers(call));
    }

    /** findDirectChannel: any match, in no order. */
    method FindDirectChannel(call: nat, workspace: nat, requester: string, target: string) returns (found: Option<nat>)
      requires Reachable(directory)
      modifies this
      ensures Reachable(directory)
      ensures match found
              case Some(id) => IsMatch(old(directory), id, workspace, requester, target) &&
                               directory == Step(old(directory), Find(call, id))
              case None => !HasMatch(old(directory), workspace, requester, target) &&
                           exists pick: nat {:trigger Find(call, pick)} :: directory == Step(old(directory), Find(call, pick))
    {
      if HasMatch(directory, workspace, requester, target) {
        var id :| id in directory.channels && Matches(directory.channels[id], workspace, requester, target);
        Perform(Find(call, id));
        found := Some(id);
      } else {
        Perform(Find(call, 0));
        found := None;
      }
    }

    /** channel.create under a fresh identifier; None is the unique violation. */
    method CreateChannel(call: nat, workspace: nat, requester: string, target: string) returns (made: Option<nat>)
      requires Reachable(directory) && call in directory.calls
      requires directory.calls[call] == Call(workspace, requester, target, Creating)
      modifies this
      ensures Reachable(directory) && call in directory.calls
      ensures directory.calls[call] ==
              Call(workspace, requester, target, if made.Some? then Got(made.value) else Refinding)
      ensures match made
              case Some(id) =>
                id !in old(directory).channels &&
                directory.channels == old(directory).channels[id :=
                  Channel(workspace, DirectName(requester, target), Direct, {requester, target}, false)]
              case None =>
                directory.channels == old(directory).channels &&
                !NameFree(directory, workspace, DirectName(requester, target))
    {
      ghost var free := NoChannel(directory);
      var id: nat :| id !in directory.channels;
      made := if NameFree(directory, workspace, DirectName(requester, target)) then Some(id) else None;
      Perform(Store(call, id));
    }
  }

  ghost predicate Awaiting(d: Directory, call: nat, workspace: nat, requester: string, target: string, pc: Pc) {
    Reachable(d) && call in d.calls && d.calls[call] == Call(workspace, requester, target, pc)
  }

  /** What the answer says about the directory: a channel with the pair's members and name, or an ordinary holder of the name. */
  ghost predicate Outcome(d: Directory, call: nat, workspace: nat, requester: string, target: string, r: Result<nat, ChannelError>) {
    match r
    case Ok(id) =>
      Awaiting(d, call, workspace, requester, target, Got(id)) &&
      Holds(d, id, workspace, DirectName(requester, target)) && d.channels[id].kind.Direct? &&
      d.channels[id].members == {requester, target} && !OrdinaryHolds(d, workspace, DirectName(requester, target)) &&
      InWorkspace(d, workspace, {requester, target})
    case Err(e) =>
      Awaiting(d, call, workspace, requester, target, Failed(e)) &&
      (e == NameTaken ==>
         OrdinaryHolds(d, workspace, DirectName(requester, target)) && InWorkspace(d, workspace, {requester, target}))
  }

  lemma SettledOutcome(d: Directory, call: nat, workspace: nat, requester: string, target: string, pc: Pc)
    requires Awaiting(d, call, workspace, requester, target, pc) && (pc.Got? || pc.Failed?)
    ensures Outcome(d, call, workspace, requester, target, if pc.Got? then Ok(pc.id) else Err(pc.error))
  {
    ReachableInv(d);
    assert CallInv(d, call);
    if pc.Got? || pc == Failed(NameTaken) {
      GotUnlessNameTaken(d, call);
    }
    if pc.Got? {
      IdsOf(d, call);
      PairOf(d, pc.id, requester, target);
    }
  }

  /** The create, and the second look when it meets the unique name. */
  method CreateOrFindAgain(db: Database, call: nat, workspace: nat, requester: string, normalized: string)
    returns (r: Result<nat, ChannelError>)
    requires Awaiting(db.directory, call, workspace, requester, normalized, Creating)
    modifies db
    ensures Outcome(db.directory, call, workspace, requester, normalized, r)
    ensures r.Ok? || r.error == NameTaken
  {
    db.Others(call);
    var created := db.CreateChannel(call, workspace, requester, normalized);
    if created.Some? {
      SettledOutcome(db.directory, call, workspace, requester, normalized, Got(created.value));
      return Ok(created.value);
    }

    db.Others(call);
    var channel := db.FindDirectChannel(call, workspace, requester, normalized);
    if channel.Some? {
      SettledOutcome(db.directory, call, workspace, requester, normalized, Got(channel.value));
      return Ok(channel.value);
    }
    SettledOutcome(db.directory, call, workspace, requester, normalized, Failed(NameTaken));
    return Err(NameTaken);
  }

  /**
   createDirectChannel: find, else create, else find again. Whatever others do meanwhile, it ends
   with the channel of the pair, or with the conflict exactly when an ordinary channel has the name.
   */
  method CreateDirectChannel(db: Database, call: nat, workspace: nat, requester: string, target: string)
    returns (r: Result<nat, ChannelError>)
    requires Reachable(db.directory) && call !in db.directory.calls
    modifies db
    ensures Outcome(db.directory, call, workspace, requester, Trim(target), r)
    ensures r == Err(TargetRequired) <==> Trim(target) == ""
    ensures r == Err(WithYourself) <==> Trim(target) != "" && Trim(target) == requester
    ensures r.Err? ==> r.error in {TargetRequired, WithYourself, NotInWorkspace, NameTaken}
    ensures r == Err(NotInWorkspace) ==> !InWorkspace(old(db.directory), workspace, {requester, Trim(target)})
  {
    var normalized := Trim(target);
    db.Perform(Ask(call, workspace, requester, target));
    if normalized == "" {
      return Err(TargetRequired);
    }
    if normalized == requester {
      return Err(WithYourself);
    }

    ghost var asked := db.directory;
    db.Others(call);
    var ok := db.EnsureWorkspaceUsers(call, workspace, {requester, normalized});
    if !ok {
      assert asked.memberships <= db.directory.memberships;
      return Err(NotInWorkspace);
    }

    db.Others(call);
    var existing := db.FindDirectChannel(call, workspace, requester, normalized);
    if existing.Some? {
      SettledOutcome(db.directory, call, workspace, requester, normalized, Got(existing.value));
      return Ok(existing.value);
    }

    r := CreateOrFindAgain(db, call, workspace, requester, normalized);
  }
}
