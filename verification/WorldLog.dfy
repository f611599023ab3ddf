/**
 The log inside a world is a log of module MessageLog: clients, bots and deliveries only ever
 take its steps, so all its theorems hold of them together.
 */
module WorldLog {
  import opened Prelude
  import opened MessageLog
  import opened LogTheorems
  import opened Messaging
  import opened MessagingInvariant

  /** The log steps of a run of the world. */
  lemma {:induction false} LogOfRun(w: World, acts: seq<Action>) returns (steps: seq<LogAction>)
    ensures Exec(w, acts).log == LogExec(w.log, steps)
    decreases |acts|
  {
    if acts == [] {
      steps := [];
    } else {
      var v := Step(w, acts[0]);
      StepMovesLog(w, acts[0]);
      var rest := LogOfRun(v, acts[1..]);
      match LogPart(w, acts[0]) {
        case None => steps := rest;
        case Some(x) =>
          steps := [x] + rest;
          assert steps[0] == x && steps[1..] == rest;
      }
    }
  }

  lemma LogIsReached(w: World)
    requires Reachable(w)
    ensures Reached(w.log)
  {
    var acts: seq<Action> :| w == Exec(START, acts);
    var steps := LogOfRun(START, acts);
  }

  /** In every channel of every reachable world the sequences are exactly 1..n, in commit order. */
  lemma WorldIsDense(w: World, c: nat)
    requires Reachable(w)
    ensures forall i :: 0 <= i < |ChannelLog(w.log.messages, c)| ==> ChannelLog(w.log.messages, c)[i].sequence == i + 1
    ensures forall s: nat :: HasSequence(w.log.messages, c, s) <==> 1 <= s <= |ChannelLog(w.log.messages, c)|
  {
    LogIsReached(w);
    SequencesAreDense(w.log, c);
  }

  /**
   A call of a world, of a client, a bot or a delivery, that ran out of attempts had more calls
   beside it on the channel and saw more foreign rows than its budget, less one for each taken
   id; only bots ever spend an attempt on a taken id.
   */
  lemma WorldBudget(w: World, k: nat)
    requires Reachable(w) && k in w.log.calls && Exhausted(w.log.calls[k])
    ensures var call := w.log.calls[k];
            |CallsOn(w.log, call.input.channel)| + call.collisions > Budget(call.service) &&
            |ChannelLog(w.log.messages, call.input.channel)| - call.began + call.collisions >= Budget(call.service) &&
            (call.service.Messaging? ==> call.collisions == 0)
  {
    LogIsReached(w);
    ReachedInv(w.log);
    assert CallInv(w.log.messages, k, w.log.calls[k]);
    var _ := ConflictsAreCharged(w.log, k);
  }

  /** Each call returned iff one row is its own; any other stored nothing. */
  lemma WorldRows(w: World, k: nat)
    requires Reachable(w) && k in w.log.calls
    ensures w.log.calls[k].pc.Returned? <==> exists i :: 0 <= i < |w.log.messages| && w.log.messages[i].call == k
    ensures forall i, j | 0 <= i < |w.log.messages| && 0 <= j < |w.log.messages| ::
              w.log.messages[i].call == k && w.log.messages[j].call == k ==> i == j
  {
    LogIsReached(w);
    ReturnedIffAppended(w.log, k);
  }

  /** A message stored before another call began on the channel has the smaller sequence, in every continuation. */
  lemma WorldRealTime(w: World, acts: seq<Action>, m1: Message, m2: Message)
    requires Reachable(w) && m1 in w.log.messages && m2.call !in w.log.calls
    requires m2 in Exec(w, acts).log.messages && m2.input.channel == m1.input.channel
    ensures m1 in Exec(w, acts).log.messages && m1.sequence < m2.sequence
  {
    LogIsReached(w);
    var steps := LogOfRun(w, acts);
    RealTimeOrder(w.log, steps, m1, m2);
  }
}
