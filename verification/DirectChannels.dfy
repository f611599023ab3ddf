/**
 Channels of a workspace: ordinary ones with free names, and direct ones found by their two
 members or created under a name built from them. The unique name decides between creators.
 */
module DirectChannels {
  import opened Prelude
  import opened Text

  datatype Kind = Public | Private | Direct

  datatype Channel = Channel(workspace: nat, name: string, kind: Kind, members: set<string>, archived: bool)

  datatype ChannelError = TargetRequired | WithYourself | NotInWorkspace | NameTaken | Broken

  /** Where a createDirectChannel stands between two round trips. */
  datatype Pc =
    | Asked
    | Finding
    | Creating
    | Refinding
    | Got(id: nat)
    | Failed(error: ChannelError)

  datatype Call = Call(workspace: nat, requester: string, target: string, pc: Pc)

  /** `memberships` are the (workspace, user) pairs. */
  datatype Directory = Directory(channels: map<nat, Channel>, memberships: set<(nat, string)>, calls: map<nat, Call>)

  const EMPTY := Directory(map[], {}, map[])

  // ------------------------------------------------------------------ names

  /** A strict total order on identifiers. */
  predicate Before(a: string, b: string) {
    b != "" && (a == "" || a[0] < b[0] || (a[0] == b[0] && Before(a[1..], b[1..])))
  }

  /** directChannelName */
  function DirectName(a: string, b: string): string {
    if Before(b, a) then "dm:" + b + ":" + a else "dm:" + a + ":" + b
  }

  predicate IsId(user: string) {
    user != "" && ':' !in user
  }

  // ---------------------------------------------------------------- queries

  /** The filter of findDirectChannel. */
  predicate Matches(c: Channel, workspace: nat, a: string, b: string) {
    c.workspace == workspace && c.kind.Direct? && !c.archived && a in c.members && b in c.members && c.members <= {a, b}
  }

  predicate IsMatch(d: Directory, id: nat, workspace: nat, a: string, b: string) {
    id in d.channels && Matches(d.channels[id], workspace, a, b)
  }

  predicate HasMatch(d: Directory, workspace: nat, a: string, b: string) {
    exists id :: id in d.channels && Matches(d.channels[id], workspace, a, b)
  }

  predicate Holds(d: Directory, id: nat, workspace: nat, name: string) {
    id in d.channels && d.channels[id].workspace == workspace && d.channels[id].name == name
  }

  predicate NameFree(d: Directory, workspace: nat, name: string) {
    forall id :: id in d.channels ==> !Holds(d, id, workspace, name)
  }

  /** channel.create: the primary key, and unique workspace and name. */
  function Insert(d: Directory, id: nat, c: Channel): Option<Directory> {
    if id in d.channels || !NameFree(d, c.workspace, c.name) then None
    else Some(d.(channels := d.channels[id := c]))
  }

  // ---------------------------------------------------------------- machine

  datatype Action =
    | AddUser(workspace: nat, user: string)
    | Create(id: nat, workspace: nat, creator: string, name: string, memberIds: set<string>, isPrivate: bool)
    | Join(id: nat, user: string)
    | Leave(id: nat, user: string)
    | Archive(id: nat)
    | Ask(call: nat, workspace: nat, requester: string, target: string)
    | CheckUsers(call: nat)
    | Find(call: nat, pick: nat)
    | Store(call: nat, id: nat)
    | Abort(call: nat)

  function Goto(d: Directory, call: nat, pc: Pc): Directory
    requires call in d.calls
  {
    d.(calls := d.calls[call := d.calls[call].(pc := pc)])
  }

  function Requested(a: Action): set<string>
    requires a.Create?
  {
    (set m | m in a.memberIds :: Trim(m)) - {"", a.creator}
  }

  function OrdinaryChannel(a: Action): Channel
    requires a.Create?
  {
    Channel(a.workspace, Trim(a.name), if Requested(a) != {} || a.isPrivate then Private else Public,
            {a.creator} + Requested(a), false)
  }

  predicate InWorkspace(d: Directory, workspace: nat, users: set<string>) {
    forall user :: user in users ==> (workspace, user) in d.memberships
  }

  function Asking(workspace: nat, requester: string, target: string): Call {
    var normalized := Trim(target);
    Call(workspace, requester, normalized,
         if normalized == "" then Failed(TargetRequired) else if normalized == requester then Failed(WithYourself) else Asked)
  }

  /** findFirst without an order: any match may come back, and none only if there is none. */
  function Found(d: Directory, call: nat, pick: nat, otherwise: Pc): Directory
    requires call in d.calls
  {
    var c := d.calls[call];
    if IsMatch(d, pick, c.workspace, c.requester, c.target) then Goto(d, call, Got(pick))
    else if HasMatch(d, c.workspace, c.requester, c.target) then d
    else Goto(d, call, otherwise)
  }

  function Stored(d: Directory, call: nat, id: nat): Directory
    requires call in d.calls
  {
    var c := d.calls[call];
    var name := DirectName(c.requester, c.target);
    match Insert(d, id, Channel(c.workspace, name, Direct, {c.requester, c.target}, false))
    case Some(v) => if call in v.calls then Goto(v, call, Got(id)) else d
    case None => if NameFree(d, c.workspace, name) then d else Goto(d, call, Refinding)
  }

  function CallStep(d: Directory, a: Action): Directory
    requires a.CheckUsers? || a.Find? || a.Store? || a.Abort?
  {
    if a.call !in d.calls then d
    else
      var c := d.calls[a.call];
      match (c.pc, a)
      case (Asked, CheckUsers(_)) =>
        Goto(d, a.call, if InWorkspace(d, c.workspace, {c.requester, c.target}) then Finding else Failed(NotInWorkspace))
      case (Finding, Find(_, pick)) => Found(d, a.call, pick, Creating)
      case (Creating, Store(_, id)) => Stored(d, a.call, id)
      case (Refinding, Find(_, pick)) => Found(d, a.call, pick, Failed(NameTaken))
      case (pc, Abort(_)) => if pc.Got? || pc.Failed? then d else Goto(d, a.call, Failed(Broken))
      case _ => d
  }

  function Step(d: Directory, a: Action): Directory {
    match a
    case AddUser(workspace, user) =>
      if IsId(user) then d.(memberships := d.memberships + {(workspace, user)}) else d
    case Create(id, workspace, creator, _, _, _) =>
      if InWorkspace(d, workspace, {creator} + Requested(a)) && Insert(d, id, OrdinaryChannel(a)).Some?
      then Insert(d, id, OrdinaryChannel(a)).value else d
    case Join(id, user) =>
      if id in d.channels && d.channels[id].kind.Public? && (d.channels[id].workspace, user) in d.memberships
      then d.(channels := d.channels[id := d.channels[id].(members := d.channels[id].members + {user})]) else d
    case Leave(id, user) =>
      if id in d.channels && !d.channels[id].kind.Direct?
      then d.(channels := d.channels[id := d.channels[id].(members := d.channels[id].members - {user})]) else d
    case Archive(id) =>
      if id in d.channels && !d.channels[id].kind.Direct?
      then d.(channels := d.channels[id := d.channels[id].(archived := true)]) else d
    case Ask(call, workspace, requester, target) =>
      if call in d.calls then d else d.(calls := d.calls[call := Asking(workspace, requester, target)])
    case _ => CallStep(d, a)
  }

  function Exec(d: Directory, acts: seq<Action>): Directory
    decreases |acts|
  {
    if acts == [] then d else Exec(Step(d, acts[0]), acts[1..])
  }

  ghost predicate Reachable(d: Directory) {
    exists acts: seq<Action> :: Exec(EMPTY, acts) == d
  }

  // ------------------------------------------------------ who can be a member

  /** Nobody gets into a private or direct channel after its creation, and nobody leaves a direct one. */
  lemma {:induction false} ClosedChannels(d: Directory, acts: seq<Action>, id: nat)
    requires id in d.channels && !d.channels[id].kind.Public?
    ensures id in Exec(d, acts).channels
    ensures Exec(d, acts).channels[id].members <= d.channels[id].members
    ensures Exec(d, acts).channels[id].kind == d.channels[id].kind
    ensures d.channels[id].kind.Direct? ==> Exec(d, acts).channels[id] == d.channels[id]
    decreases |acts|
  {
    if acts != [] {
      ClosedStep(d, acts[0], id);
      ClosedChannels(Step(d, acts[0]), acts[1..], id);
    }
  }

  lemma ClosedStep(d: Directory, a: Action, id: nat)
    requires id in d.channels && !d.channels[id].kind.Public?
    ensures var v := Step(d, a);
            id in v.channels && v.channels[id].kind == d.channels[id].kind &&
            v.channels[id].members <= d.channels[id].members &&
            (d.channels[id].kind.Direct? ==> v.channels[id] == d.channels[id])
  {
  }

  /** A user joins exactly public channels of a workspace of theirs, archived or not, and leaving undoes a join. */
  lemma JoinAndLeave(d: Directory, id: nat, name: string)
    requires id in d.channels
    ensures var c, v := d.channels[id], Step(d, Join(id, name));
            id in v.channels &&
            (name in v.channels[id].members <==>
             name in c.members || (c.kind.Public? && (c.workspace, name) in d.memberships)) &&
            v.channels[id] == c.(members := v.channels[id].members) && c.members <= v.channels[id].members <= c.members + {name} &&
            (c.kind.Public? && name !in c.members ==> Step(v, Leave(id, name)) == d)
    ensures var c, v := d.channels[id], Step(d, Leave(id, name));
            id in v.channels &&
            v.channels[id] == c.(members := if c.kind.Direct? then c.members else c.members - {name})
  {
    var c := d.channels[id];
    var v := Step(d, Join(id, name));
    if c.kind.Public? && name !in c.members {
      assert v.channels[id].members - {name} == c.members;
      assert Step(v, Leave(id, name)).channels == d.channels;
    }
  }

  /** Archiving marks an ordinary channel and changes nothing else; joining, leaving and archiving one leaves the others alone. */
  lemma ArchiveAndOthers(d: Directory, a: Action, other: nat)
    requires (a.Join? || a.Leave? || a.Archive?) && a.id in d.channels && other in d.channels && other != a.id
    ensures other in Step(d, a).channels && Step(d, a).channels[other] == d.channels[other]
    ensures a.Archive? ==>
              Step(d, a) == if d.channels[a.id].kind.Direct? then d
                            else d.(channels := d.channels[a.id := d.channels[a.id].(archived := true)])
  {
  }

  /** A channel created with other members is closed; its members are the creator and the named ones, all of the workspace. */
  lemma NamedMembersMakePrivate(d: Directory, a: Action)
    requires a.Create? && a.id !in d.channels && a.id in Step(d, a).channels
    ensures var c := Step(d, a).channels[a.id];
            (c.kind.Public? <==> c.members == {a.creator} && !a.isPrivate) && !c.kind.Direct? &&
            a.creator in c.members && InWorkspace(d, a.workspace, c.members) && "" !in c.members - {a.creator} &&
            (forall m :: m in a.memberIds && Trim(m) != "" ==> Trim(m) in c.members)
  {
    var requested := Requested(a);
    assert Step(d, a).channels[a.id] == OrdinaryChannel(a);
    if requested != {} {
      var m :| m in requested;
      assert m in {a.creator} + requested && m !in {a.creator};
    }
    forall m | m in a.memberIds && Trim(m) != ""
      ensures Trim(m) in {a.creator} + requested
    {
      assert Trim(m) in (set x | x in a.memberIds :: Trim(x));
    }
  }

  // ------------------------------------------------ names identify the pair

  lemma {:induction false} BeforeIsTotal(a: string, b: string)
    ensures Before(a, b) || Before(b, a) || a == b
    ensures !(Before(a, b) && Before(b, a))
  {
    if a != "" && b != "" {
      BeforeIsTotal(a[1..], b[1..]);
      assert a[0] == b[0] && a[1..] == b[1..] ==> a == [b[0]] + b[1..];
      assert b == [b[0]] + b[1..] && a == [a[0]] + a[1..];
    }
  }

  lemma NameParts(a: string, b: string, c: string, d: string)
    requires ':' !in a && ':' !in c && "dm:" + a + ":" + b == "dm:" + c + ":" + d
    ensures a == c && b == d
  {
    var s, t := a + [':'] + b, c + [':'] + d;
    assert s == ("dm:" + a + ":" + b)[3..];
    assert t == ("dm:" + c + ":" + d)[3..];
    UpToStops(a, ':', b);
    UpToStops(c, ':', d);
    assert b == s[|a| + 1..] && d == t[|c| + 1..];
  }

  /** The name does not depend on who asks, and two pairs with the same name are the same pair. */
  lemma NameIdentifiesPair(a: string, b: string, c: string, d: string)
    requires ':' !in a && ':' !in b && ':' !in c && ':' !in d
    ensures DirectName(a, b) == DirectName(c, d) <==> {a, b} == {c, d}
  {
    BeforeIsTotal(a, b);
    BeforeIsTotal(c, d);
    if DirectName(a, b) == DirectName(c, d) {
      var (a', b') := if Before(b, a) then (b, a) else (a, b);
      var (c', d') := if Before(d, c) then (d, c) else (c, d);
      NameParts(a', b', c', d');
    }
    if {a, b} == {c, d} {
      assert a in {c, d} && b in {c, d} && c in {a, b} && d in {a, b};
    }
  }

  // -------------------------------------------------------------- invariant

  ghost predicate DirectInv(d: Directory, id: nat) {
    id in d.channels && d.channels[id].kind.Direct? ==>
      var c := d.channels[id];
      !c.archived &&
      exists a, b {:trigger DirectName(a, b)} ::
        a != b && IsId(a) && IsId(b) && c.members == {a, b} && c.name == DirectName(a, b) && InWorkspace(d, c.workspace, {a, b})
  }

  ghost predicate Apart(d: Directory, i: nat, j: nat) {
    i != j && i in d.channels && j in d.channels && d.channels[i].workspace == d.channels[j].workspace ==>
      d.channels[i].name != d.channels[j].name
  }

  ghost predicate CallInv(d: Directory, call: nat) {
    call in d.calls ==>
      var c := d.calls[call];
      var known := c.requester != c.target && InWorkspace(d, c.workspace, {c.requester, c.target});
      match c.pc
      case Asked => c.requester != c.target
      case Finding => known
      case Creating => known
      case Refinding => known && !NameFree(d, c.workspace, DirectName(c.requester, c.target))
      case Got(id) => known && IsMatch(d, id, c.workspace, c.requester, c.target)
      case Failed(e) => e.NameTaken? ==>
        known && exists id {:trigger d.channels[id]} :: Holds(d, id, c.workspace, DirectName(c.requester, c.target)) && !d.channels[id].kind.Direct?
  }

  ghost predicate Inv(d: Directory) {
    && (forall w: nat, user: string {:trigger (w, user) in d.memberships} :: (w, user) in d.memberships ==> IsId(user))
    && (forall id: nat {:trigger DirectInv(d, id)} :: DirectInv(d, id))
    && (forall i: nat, j: nat {:trigger Apart(d, i, j)} :: Apart(d, i, j))
    && (forall call: nat {:trigger CallInv(d, call)} :: CallInv(d, call))
  }

  // ------------------------------------------- the two indexes agree

  /** The one pair of a direct channel. */
  lemma PairOf(d: Directory, id: nat, a: string, b: string)
    requires Inv(d) && id in d.channels && d.channels[id].kind.Direct? && IsId(a) && IsId(b) && a != b
    ensures d.channels[id].members == {a, b} <==> d.channels[id].name == DirectName(a, b)
    ensures Matches(d.channels[id], d.channels[id].workspace, a, b) <==> d.channels[id].members == {a, b}
  {
    assert DirectInv(d, id);
    var x, y :| x != y && IsId(x) && IsId(y) && d.channels[id].members == {x, y} && d.channels[id].name == DirectName(x, y);
    NameIdentifiesPair(x, y, a, b);
    if Matches(d.channels[id], d.channels[id].workspace, a, b) {
      assert d.channels[id].members == {a, b};
    }
  }

  /** Looking a direct channel up by its two members and by its name comes to the same, and there is one at most. */
  lemma IndexesAgree(d: Directory, workspace: nat, a: string, b: string)
    requires Inv(d) && IsId(a) && IsId(b) && a != b
    ensures forall id :: IsMatch(d, id, workspace, a, b) <==>
                         Holds(d, id, workspace, DirectName(a, b)) && d.channels[id].kind.Direct?
    ensures forall i, j :: IsMatch(d, i, workspace, a, b) && IsMatch(d, j, workspace, a, b) ==> i == j
  {
    forall id | id in d.channels && d.channels[id].kind.Direct?
      ensures IsMatch(d, id, workspace, a, b) <==> Holds(d, id, workspace, DirectName(a, b))
    {
      PairOf(d, id, a, b);
    }
    forall i, j | IsMatch(d, i, workspace, a, b) && IsMatch(d, j, workspace, a, b)
      ensures i == j
    {
      PairOf(d, i, a, b);
      PairOf(d, j, a, b);
      assert Apart(d, i, j);
    }
  }

  // ------------------------------------------- every step keeps the invariant

  ghost predicate KeptChannel(d: Directory, v: Directory, id: nat) {
    id in d.channels ==>
      id in v.channels &&
      v.channels[id].workspace == d.channels[id].workspace && v.channels[id].name == d.channels[id].name &&
      v.channels[id].kind == d.channels[id].kind && (d.channels[id].kind.Direct? ==> v.channels[id] == d.channels[id])
  }

  /** Names, kinds, direct channels and memberships are for good. */
  ghost predicate Extends(d: Directory, v: Directory) {
    d.memberships <= v.memberships && forall id: nat {:trigger KeptChannel(d, v, id)} :: KeptChannel(d, v, id)
  }

  lemma StepExtends(d: Directory, a: Action)
    ensures Extends(d, Step(d, a))
  {
  }

  lemma {:induction false} ExecExtends(d: Directory, acts: seq<Action>)
    ensures Extends(d, Exec(d, acts))
    decreases |acts|
  {
    if acts != [] {
      var v, w := Step(d, acts[0]), Exec(d, acts);
      StepExtends(d, acts[0]);
      ExecExtends(v, acts[1..]);
      forall id: nat ensures KeptChannel(d, w, id) {
        assert KeptChannel(d, v, id) && KeptChannel(v, w, id);
      }
    }
  }

  lemma CallKept(d: Directory, v: Directory, call: nat)
    requires Extends(d, v) && CallInv(d, call) && call in d.calls && call in v.calls && v.calls[call] == d.calls[call]
    ensures CallInv(v, call)
  {
    var c := d.calls[call];
    var name := DirectName(c.requester, c.target);
    match c.pc {
      case Refinding =>
        var id: nat :| id in d.channels && Holds(d, id, c.workspace, name);
        assert KeptChannel(d, v, id);
        assert Holds(v, id, c.workspace, name);
      case Got(id) => assert KeptChannel(d, v, id);
      case Failed(e) =>
        if e.NameTaken? {
          var id: nat :| Holds(d, id, c.workspace, name) && !d.channels[id].kind.Direct?;
          assert KeptChannel(d, v, id);
          assert Holds(v, id, c.workspace, name) && !v.channels[id].kind.Direct?;
        }
      case _ =>
    }
  }

  lemma DirectKept(d: Directory, v: Directory, id: nat)
    requires Extends(d, v) && DirectInv(d, id) && id in d.channels
    ensures DirectInv(v, id)
  {
    assert KeptChannel(d, v, id);
    if d.channels[id].kind.Direct? {
      var c := d.channels[id];
      var x, y :| x != y && IsId(x) && IsId(y) && c.members == {x, y} && c.name == DirectName(x, y) && InWorkspace(d, c.workspace, {x, y});
      assert InWorkspace(v, c.workspace, {x, y});
    }
  }

  /** All that is left to show of a step: the channel it may add and the call it may move. */
  lemma KeepsInv(d: Directory, v: Directory, id: nat, call: nat)
    requires Inv(d) && Extends(d, v)
    requires forall w: nat, user: string :: (w, user) in v.memberships ==> IsId(user)
    requires forall i :: i in v.channels ==> i in d.channels || i == id
    requires id in v.channels && id !in d.channels ==>
               DirectInv(v, id) && NameFree(d, v.channels[id].workspace, v.channels[id].name)
    requires forall k :: k in v.calls && k != call ==> k in d.calls && v.calls[k] == d.calls[k]
    requires CallInv(v, call)
    ensures Inv(v)
  {
    forall i: nat ensures DirectInv(v, i) {
      assert DirectInv(d, i);
      if i in d.channels {
        DirectKept(d, v, i);
      }
    }
    forall i: nat, j: nat ensures Apart(v, i, j) {
      assert Apart(d, i, j) && KeptChannel(d, v, i) && KeptChannel(d, v, j);
      assert i in d.channels && id !in d.channels && id in v.channels ==> !Holds(d, i, v.channels[id].workspace, v.channels[id].name);
      assert j in d.channels && id !in d.channels && id in v.channels ==> !Holds(d, j, v.channels[id].workspace, v.channels[id].name);
    }
    forall k: nat ensures CallInv(v, k) {
      assert CallInv(d, k);
      if k != call && k in v.calls {
        CallKept(d, v, k);
      }
    }
  }

  lemma NoCall(d: Directory) returns (call: nat)
    ensures call !in d.calls
  {
    call := FreshNat(d.calls.Keys);
  }

  lemma NoChannel(d: Directory) returns (id: nat)
    ensures id !in d.channels
  {
    id := FreshNat(d.channels.Keys);
  }

  lemma OrdinaryKeeps(d: Directory, a: Action)
    requires Inv(d) && (a.AddUser? || a.Create? || a.Join? || a.Leave? || a.Archive?)
    ensures Inv(Step(d, a))
  {
    var v := Step(d, a);
    StepExtends(d, a);
    var call := NoCall(d);
    var id := NoChannel(d);
    KeepsInv(d, v, if a.Create? then a.id else id, call);
  }

  lemma FoundKeeps(d: Directory, call: nat, pick: nat)
    requires Inv(d) && call in d.calls && (d.calls[call].pc.Finding? || d.calls[call].pc.Refinding?)
    ensures CallInv(Step(d, Find(call, pick)), call)
  {
    assert CallInv(d, call);
    var c := d.calls[call];
    var v := Step(d, Find(call, pick));
    var name := DirectName(c.requester, c.target);
    if c.pc.Refinding? && v.calls[call].pc.Failed? {
      var id: nat :| id in d.channels && Holds(d, id, c.workspace, name);
      IdsOf(d, call);
      IndexesAgree(d, c.workspace, c.requester, c.target);
      assert !IsMatch(d, id, c.workspace, c.requester, c.target);
      assert Holds(v, id, c.workspace, name) && !v.channels[id].kind.Direct?;
    }
  }

  lemma IdsOf(d: Directory, call: nat)
    requires Inv(d) && call in d.calls && InWorkspace(d, d.calls[call].workspace, {d.calls[call].requester, d.calls[call].target})
    ensures IsId(d.calls[call].requester) && IsId(d.calls[call].target)
  {
    var c := d.calls[call];
    assert (c.workspace, c.requester) in d.memberships && (c.workspace, c.target) in d.memberships;
  }

  lemma StoredKeeps(d: Directory, call: nat, id: nat)
    requires Inv(d) && call in d.calls && d.calls[call].pc.Creating?
    ensures Inv(Step(d, Store(call, id)))
  {
    var v := Step(d, Store(call, id));
    assert CallInv(d, call);
    IdsOf(d, call);
    StepExtends(d, Store(call, id));
    var c := d.calls[call];
    if v != d {
      var other := NoChannel(d);
      KeepsInv(d, v, if v.channels == d.channels then other else id, call);
    }
  }

  lemma CallKeeps(d: Directory, a: Action)
    requires Inv(d) && (a.Ask? || a.CheckUsers? || a.Find? || a.Abort?)
    ensures Inv(Step(d, a))
  {
    var v := Step(d, a);
    if v != d {
      StepExtends(d, a);
      assert CallInv(d, a.call);
      if a.Find? {
        FoundKeeps(d, a.call, a.pick);
      }
      var id := NoChannel(d);
      KeepsInv(d, v, id, a.call);
    }
  }

  lemma StepKeepsInv(d: Directory, a: Action)
    requires Inv(d)
    ensures Inv(Step(d, a))
  {
    match a {
      case AddUser(_, _) => OrdinaryKeeps(d, a);
      case Create(_, _, _, _, _, _) => OrdinaryKeeps(d, a);
      case Join(_, _) => OrdinaryKeeps(d, a);
      case Leave(_, _) => OrdinaryKeeps(d, a);
      case Archive(_) => OrdinaryKeeps(d, a);
      case Store(call, id) =>
        if call in d.calls && d.calls[call].pc.Creating? {
          StoredKeeps(d, call, id);
        }
      case _ => CallKeeps(d, a);
    }
  }

  lemma {:induction false} ExecKeepsInv(d: Directory, acts: seq<Action>)
    requires Inv(d)
    ensures Inv(Exec(d, acts))
    decreases |acts|
  {
    if acts != [] {
      StepKeepsInv(d, acts[0]);
      ExecKeepsInv(Step(d, acts[0]), acts[1..]);
    }
  }

  lemma ReachableInv(d: Directory)
    requires Reachable(d)
    ensures Inv(d)
  {
    var acts: seq<Action> :| Exec(EMPTY, acts) == d;
    ExecKeepsInv(EMPTY, acts);
  }

  lemma {:induction false} ExecAppend(d: Directory, acts: seq<Action>, a: Action)
    ensures Exec(d, acts + [a]) == Step(Exec(d, acts), a)
    decreases |acts|
  {
    if acts == [] {
      assert acts + [a] == [a];
    } else {
      assert (acts + [a])[1..] == acts[1..] + [a];
      ExecAppend(Step(d, acts[0]), acts[1..], a);
    }
  }

  lemma ReachableStep(d: Directory, a: Action)
    requires Reachable(d)
    ensures Reachable(Step(d, a))
  {
    var acts: seq<Action> :| Exec(EMPTY, acts) == d;
    ExecAppend(EMPTY, acts, a);
  }
}
