/** Runs of module Invites into the situations its exact conditions are about. */
module InviteScenarios {
  import opened Prelude
  import opened Text
  import opened Invites
  import opened InviteTheorems

  /** A link for one use within one hour, and two registered users. */
  const SETUP := Ledger(map[0 := FRESH], map["c" := 0], map[], [], map[0 := "a", 1 := "b"], map[], 0)
  const FRESH := Link("c", 0, Regular, Some(1), 0, 3600000, None, None, false)
  const OFFER := Create(0, "c", 0, Regular, 1, Some(1), None, None)

  lemma SetupIsReachable()
    ensures Reachable(SETUP)
  {
    assert Exec(EMPTY, []) == EMPTY;
    ReachableStep(EMPTY, OFFER);
    var d1 := Step(EMPTY, OFFER);
    assert d1 == EMPTY.(links := map[0 := FRESH], codes := map["c" := 0]);
    var d2 := Step(d1, Register(0, "a"));
    ReachableStep(d1, Register(0, "a"));
    var d3 := Step(d2, Register(1, "b"));
    ReachableStep(d2, Register(1, "b"));
    assert d3 == SETUP;
  }

  /** Anybody may use the link of the set-up while it is unused. */
  lemma Unlocked(email: string)
    ensures Obstacle(FRESH, 0, email).None?
  {
  }

  /** The set-up with one call of user 0 at pc. */
  function With(pc: Pc): Ledger {
    SETUP.(calls := map[0 := Call(0, pc)])
  }

  lemma Opens()
    ensures Step(SETUP, Open(0, 0, "c")) == With(Looking("c"))
  {
    assert Trim("c") == "c";
  }

  lemma Looks()
    ensures Step(With(Looking("c")), FindLink(0)) == With(Loading(0, FRESH))
  {
  }

  lemma Checks()
    ensures Step(With(Loading(0, FRESH)), FindUser(0)) == With(Checking(0, FRESH))
  {
    Unlocked("a");
  }

  lemma TakesTime()
    ensures Step(With(Checking(0, FRESH)), FindAcceptance(0)) == With(Reserving(0, FRESH, 0))
  {
  }

  /** An accept is about to commit. */
  lemma AboutToCommit()
    ensures Reachable(With(Reserving(0, FRESH, 0)))
  {
    SetupIsReachable();
    Opens();
    ReachableStep(SETUP, Open(0, 0, "c"));
    Looks();
    ReachableStep(With(Looking("c")), FindLink(0));
    Checks();
    ReachableStep(With(Loading(0, FRESH)), FindUser(0));
    TakesTime();
    ReachableStep(With(Checking(0, FRESH)), FindAcceptance(0));
  }

  /** An expired link that still gains an acceptance. */
  lemma LateAcceptance() returns (d: Ledger)
    ensures Reachable(d) && 0 in d.links && d.links[0].expiresAt <= d.clock && MayCommit(d, 0, 0)
    ensures Count(Step(d, Transact(0, false)).rows, 0) == Count(d.rows, 0) + 1
  {
    AboutToCommit();
    var d1 := With(Reserving(0, FRESH, 0));
    d := Step(d1, Advance(3600000));
    ReachableStep(d1, Advance(3600000));
    ReachableInv(d);
    StepCount(d, Transact(0, false), 0);
  }

  /** A user who accepted asks again; the link is used up, and the answer is a refusal. */
  lemma RefusedRepeat() returns (d: Ledger)
    ensures Reachable(d) && At(d, 1, 0, Looking("c")) && "c" in d.codes && d.codes["c"] == 0 && 0 in d.users
    ensures Live(d, 0) && HasAccepted(d.rows, 0, 0) && Full(d.links[0])
    ensures var v := Exec(d, Alone(1)); 1 in v.calls && v.calls[1].pc == Refused(LimitReached)
  {
    AboutToCommit();
    var d1 := With(Reserving(0, FRESH, 0));
    var d2 := Step(d1, Transact(0, false));
    ReachableStep(d1, Transact(0, false));
    ReachableInv(d1);
    CommitIff(d1, 0, false);
    assert d2.rows == [Acceptance(0, 0, 0, 0)];
    assert d2.rows[0].link == 0 && d2.rows[0].user == 0;
    assert Trim("c") == "c";
    d := Step(d2, Open(1, 0, "c"));
    ReachableStep(d2, Open(1, 0, "c"));
    ReachableInv(d);
    assert HasAccepted(d.rows, 0, 0);
    RepeatNeedsRoom(d, 1, 0, 0, "c");
  }
}
