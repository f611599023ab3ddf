/** What every interleaving of the two retry loops guarantees. */
module LogTheorems {
  import opened Prelude
  import opened MessageLog

  ghost predicate Reached(l: Log) {
    exists acts :: l == LogExec(EMPTY, acts)
  }

  lemma ReachedInv(l: Log)
    requires Reached(l)
    ensures LogInv(l)
  {
    var acts :| l == LogExec(EMPTY, acts);
    EmptyLogInv();
    LogExecKeepsInv(EMPTY, acts);
  }

  /** The sequences stored in a channel are 1, 2, ..., n in commit order, and no others. */
  lemma SequencesAreDense(l: Log, c: nat)
    requires Reached(l)
    ensures forall i :: 0 <= i < |ChannelLog(l.messages, c)| ==> ChannelLog(l.messages, c)[i].sequence == i + 1
    ensures forall s: nat :: HasSequence(l.messages, c, s) <==> 1 <= s <= |ChannelLog(l.messages, c)|
  {
    ReachedInv(l);
    DenseExtent(l.messages, c);
    assert Numbered(ChannelLog(l.messages, c));
  }

  // ---------------------------------------------------------- one row a call

  lemma OneRowPerCall(l: Log, i: nat, j: nat)
    requires LogInv(l) && i < |l.messages| && j < |l.messages|
    requires l.messages[i].call == l.messages[j].call
    ensures i == j
  {
    assert Signed(l, l.messages[i]) && Signed(l, l.messages[j]);
    assert l.messages[i].id == l.messages[j].id;
  }

  /** A call that returned appended exactly one row, its own input; any other call appended none. */
  lemma ReturnedIffAppended(l: Log, k: nat)
    requires Reached(l) && k in l.calls
    ensures l.calls[k].pc.Returned? <==> exists i :: 0 <= i < |l.messages| && l.messages[i].call == k
    ensures forall i :: 0 <= i < |l.messages| && l.messages[i].call == k ==>
              l.messages[i].input == l.calls[k].input && l.calls[k].pc == Returned(l.messages[i].id)
    ensures forall i, j | 0 <= i < |l.messages| && 0 <= j < |l.messages| ::
              l.messages[i].call == k && l.messages[j].call == k ==> i == j
  {
    ReachedInv(l);
    assert CallInv(l.messages, k, l.calls[k]);
    forall i | 0 <= i < |l.messages| && l.messages[i].call == k
      ensures l.messages[i].input == l.calls[k].input && l.calls[k].pc == Returned(l.messages[i].id)
    {
      assert Signed(l, l.messages[i]);
    }
    forall i, j | 0 <= i < |l.messages| && 0 <= j < |l.messages| &&
                  l.messages[i].call == k && l.messages[j].call == k
      ensures i == j
    {
      OneRowPerCall(l, i, j);
    }
    if l.calls[k].pc.Returned? {
      var m :| m in l.messages && m.id == l.calls[k].pc.id && m.call == k;
    }
  }

  // ------------------------------------------------------------ retry budget

  function CallsOn(l: Log, c: nat): set<nat> {
    set k | k in l.calls && l.calls[k].input.channel == c
  }

  /** The call that won the sequence number a conflict was lost to. */
  function Winner(l: Log, c: nat, s: nat): (k: nat)
    requires 1 <= s <= |ChannelLog(l.messages, c)|
  {
    ChannelLog(l.messages, c)[s - 1].call
  }

  predicate Exhausted(c: Call) {
    c.pc.Failed? && c.attempt == Budget(c.service)
  }

  /** Call w returned, and the row it stored on channel c carries number s. */
  ghost predicate Took(l: Log, w: nat, c: nat, s: nat) {
    w in l.calls && l.calls[w].pc.Returned? && l.calls[w].input.channel == c &&
    exists m :: m in l.messages && m.call == w && m.input.channel == c && m.sequence == s
  }

  /** Each lost number was taken, after the loser began, by another call, which returned. */
  lemma WinnerReturned(l: Log, k: nat, i: nat)
    requires LogInv(l) && k in l.calls && i < |l.calls[k].lost|
    ensures l.calls[k].began < l.calls[k].lost[i] <= |ChannelLog(l.messages, l.calls[k].input.channel)|
    ensures var c := l.calls[k].input.channel;
            var w := Winner(l, c, l.calls[k].lost[i]);
            w != k && Took(l, w, c, l.calls[k].lost[i])
  {
    var c := l.calls[k].input.channel;
    assert CallInv(l.messages, k, l.calls[k]);
    var m := ChannelLog(l.messages, c)[l.calls[k].lost[i] - 1];
    ChannelLogMembers(l.messages, c);
    assert Numbered(ChannelLog(l.messages, c));
    assert m in ChannelLog(l.messages, c);
    assert Signed(l, m);
    if l.calls[k].pc.Returned? {
      var own :| own in l.messages && own.id == l.calls[k].pc.id && own.call == k && AllBelow(l.calls[k].lost, own.sequence);
      assert own.sequence > m.sequence;
      DifferentIds(l, own, m);
    }
  }

  lemma DifferentIds(l: Log, m: Message, n: Message)
    requires LogInv(l) && m in l.messages && n in l.messages && m != n
    ensures m.id != n.id
  {
    var i :| 0 <= i < |l.messages| && l.messages[i] == m;
    var j :| 0 <= j < |l.messages| && l.messages[j] == n;
  }

  ghost predicate Distinct(s: seq<nat>) {
    forall i, j :: 0 <= i < j < |s| ==> s[i] != s[j]
  }

  /** The i-th of the winners took the i-th number that call k lost, after k began. */
  ghost predicate ChargedTo(l: Log, k: nat, winners: seq<nat>) {
    k in l.calls && Distinct(winners) && |winners| <= |l.calls[k].lost| &&
    forall i :: 0 <= i < |winners| ==>
      winners[i] != k && l.calls[k].began < l.calls[k].lost[i] &&
      Took(l, winners[i], l.calls[k].input.channel, l.calls[k].lost[i])
  }

  lemma {:induction false} WinnersOf(l: Log, k: nat, n: nat) returns (winners: seq<nat>)
    requires LogInv(l) && k in l.calls && n <= |l.calls[k].lost|
    ensures |winners| == n && ChargedTo(l, k, winners)
  {
    winners := [];
    if n > 0 {
      var lost, c := l.calls[k].lost, l.calls[k].input.channel;
      winners := WinnersOf(l, k, n - 1);
      WinnerReturned(l, k, n - 1);
      var w := Winner(l, c, lost[n - 1]);
      forall i | 0 <= i < n - 1
        ensures winners[i] != w
      {
        assert CallInv(l.messages, k, l.calls[k]);
        OneTakesOne(l, winners[i], c, lost[i], w, lost[n - 1]);
      }
      winners := winners + [w];
    }
  }

  /** A call takes one number. */
  lemma OneTakesOne(l: Log, v: nat, c: nat, s: nat, w: nat, t: nat)
    requires LogInv(l) && Took(l, v, c, s) && Took(l, w, c, t) && s != t
    ensures v != w
  {
    var m :| m in l.messages && m.call == v && m.input.channel == c && m.sequence == s;
    var n :| n in l.messages && n.call == w && n.input.channel == c && n.sequence == t;
    var i :| 0 <= i < |l.messages| && l.messages[i] == m;
    var j :| 0 <= j < |l.messages| && l.messages[j] == n;
    if v == w {
      OneRowPerCall(l, i, j);
    }
  }

  lemma ChargedCalls(l: Log, k: nat, winners: seq<nat>)
    requires ChargedTo(l, k, winners)
    ensures |CallsOn(l, l.calls[k].input.channel)| >= |winners| + 1
  {
    var others := Elements(winners);
    DistinctSize(winners);
    forall w | w in others
      ensures w in CallsOn(l, l.calls[k].input.channel) && w != k
    {
      var i :| 0 <= i < |winners| && winners[i] == w;
    }
    SubsetSize(others + {k}, CallsOn(l, l.calls[k].input.channel));
  }

  /**
   Every conflict of a call, whether the call has returned, failed or is still at work, is
   charged to another call: the numbers it lost were stored, after it began, by as many
   pairwise distinct calls that returned.
   */
  lemma ConflictsAreCharged(l: Log, k: nat) returns (winners: seq<nat>)
    requires LogInv(l) && k in l.calls
    ensures |winners| == |l.calls[k].lost| && ChargedTo(l, k, winners)
    ensures |CallsOn(l, l.calls[k].input.channel)| >= |l.calls[k].lost| + 1
    ensures |ChannelLog(l.messages, l.calls[k].input.channel)| >= l.calls[k].began + |l.calls[k].lost|
  {
    var call := l.calls[k];
    winners := WinnersOf(l, k, |call.lost|);
    ChargedCalls(l, k, winners);
    assert CallInv(l.messages, k, call);
    IncreasingSpan(call.lost, call.began);
  }

  lemma {:induction false} IncreasingSpan(s: seq<nat>, low: nat)
    requires Increasing(s) && forall i :: 0 <= i < |s| ==> low < s[i]
    ensures |s| > 0 ==> s[|s| - 1] >= low + |s|
  {
    if |s| > 1 {
      var front := s[..|s| - 1];
      IncreasingSpan(front, low);
      assert front[|front| - 1] < s[|s| - 1];
    }
  }

  /**
   With no more calls on the channel than its budget (6 for messages, 5 for bots) and
   fresh ids, no call runs out of attempts, however the steps interleave.
   */
  lemma BudgetSuffices(l: Log, k: nat)
    requires Reached(l) && k in l.calls && l.calls[k].collisions == 0
    requires |CallsOn(l, l.calls[k].input.channel)| <= Budget(l.calls[k].service)
    ensures !Exhausted(l.calls[k])
    ensures l.calls[k].pc != Failed(Unallocated)
  {
    ReachedInv(l);
    assert CallInv(l.messages, k, l.calls[k]);
    if !l.calls[k].pc.Returned? {
      var _ := ConflictsAreCharged(l, k);
    }
  }

  /** A call that ran out of attempts saw at least that many rows of others committed while it ran. */
  lemma ExhaustionMeansContention(l: Log, k: nat)
    requires Reached(l) && k in l.calls && l.calls[k].collisions == 0 && Exhausted(l.calls[k])
    ensures |ChannelLog(l.messages, l.calls[k].input.channel)| - l.calls[k].began >= Budget(l.calls[k].service)
    ensures |CallsOn(l, l.calls[k].input.channel)| > Budget(l.calls[k].service)
  {
    ReachedInv(l);
    assert CallInv(l.messages, k, l.calls[k]);
    var _ := ConflictsAreCharged(l, k);
  }

  // ------------------------------------------------- the budget is not larger

  const NOTE := Input(0, 0, "x", None, None, Client)

  /** Call 0 reads, call n reads and inserts, call 0 inserts and loses. */
  function Round(n: nat): seq<LogAction> {
    [Read(0), Begin(n, Messaging, NOTE), Read(n), Insert(n, n, 0), Insert(0, 0, 0)]
  }

  function Rounds(service: Service, n: nat): seq<LogAction> {
    if n == 0 then [Begin(0, service, NOTE)] else Rounds(service, n - 1) + Round(n)
  }

  ghost predicate AfterRounds(l: Log, service: Service, n: nat) {
    && LogInv(l)
    && (forall k: nat :: k in l.calls <==> k <= n)
    && (forall k :: k in l.calls ==> l.calls[k].input == NOTE)
    && |ChannelLog(l.messages, 0)| == n
    && (forall m :: m in l.messages ==> 1 <= m.id <= n && m.input == NOTE)
    && l.calls[0].service == service && l.calls[0].attempt == n && l.calls[0].collisions == 0
    && (if n < Budget(service) then l.calls[0].pc.Reading? else l.calls[0].pc.Failed?)
  }

  lemma InsertNext(l: Log, k: nat, id: nat)
    requires LogInv(l) && k in l.calls && l.calls[k].pc == Inserting(|ChannelLog(l.messages, l.calls[k].input.channel)| + 1)
    requires !HasId(l.messages, id)
    ensures LogStep(l, Insert(k, id, 0)) ==
            Log(l.messages + [Message(id, k, l.calls[k].input, l.calls[k].pc.sequence, 0)],
                l.calls[k := l.calls[k].(pc := Returned(id))])
  {
    DenseExtent(l.messages, l.calls[k].input.channel);
  }

  lemma InsertLoses(l: Log, k: nat, id: nat)
    requires LogInv(l) && k in l.calls && l.calls[k].pc.Inserting? && !HasId(l.messages, id)
    requires HasSequence(l.messages, l.calls[k].input.channel, l.calls[k].pc.sequence)
    ensures LogStep(l, Insert(k, id, 0)) ==
            l.(calls := l.calls[k := Spend(l.calls[k], true, if l.calls[k].service.Messaging? then Unallocated else Raised(SEQUENCE_TAKEN))])
  {
    Classification();
  }

  lemma ExecFive(l: Log, a: seq<LogAction>)
    requires |a| == 5
    ensures LogExec(l, a) == LogStep(LogStep(LogStep(LogStep(LogStep(l, a[0]), a[1]), a[2]), a[3]), a[4])
  {
    assert a == [a[0]] + ([a[1]] + ([a[2]] + ([a[3]] + [a[4]])));
    var b, c, d, e := a[1..], a[2..], a[3..], a[4..];
    assert b[1..] == c && c[1..] == d && d[1..] == e && e[1..] == [];
    assert b[0] == a[1] && c[0] == a[2] && d[0] == a[3] && e[0] == a[4];
    var l1 := LogStep(l, a[0]);
    var l2 := LogStep(l1, a[1]);
    var l3 := LogStep(l2, a[2]);
    var l4 := LogStep(l3, a[3]);
    assert LogExec(l4, e) == LogStep(l4, a[4]);
    assert LogExec(l3, d) == LogExec(l4, e);
    assert LogExec(l2, c) == LogExec(l3, d);
    assert LogExec(l1, b) == LogExec(l2, c);
  }

  /** State after the first three actions of a round. */
  lemma RoundReads(l: Log, service: Service, n: nat)
    requires n > 0 && n <= Budget(service) && AfterRounds(l, service, n - 1)
    ensures var l3 := LogStep(LogStep(LogStep(l, Read(0)), Begin(n, Messaging, NOTE)), Read(n));
            LogInv(l3) && l3.messages == l.messages &&
            l3.calls == l.calls[0 := l.calls[0].(pc := Inserting(n))]
                               [n := Call(Messaging, NOTE, 0, Inserting(n), n - 1, [], 0)]
  {
    DenseExtent(l.messages, 0);
    var l1 := LogStep(l, Read(0));
    var l2 := LogStep(l1, Begin(n, Messaging, NOTE));
    LogStepKeepsInv(l, Read(0));
    LogStepKeepsInv(l1, Begin(n, Messaging, NOTE));
    LogStepKeepsInv(l2, Read(n));
  }

  /** The winner's insert, the fourth action of a round. */
  lemma WinnerInserts(l3: Log, n: nat)
    requires n > 0 && LogInv(l3) && |ChannelLog(l3.messages, 0)| == n - 1 && !HasId(l3.messages, n)
    requires n in l3.calls && l3.calls[n] == Call(Messaging, NOTE, 0, Inserting(n), n - 1, [], 0)
    ensures var l4 := LogStep(l3, Insert(n, n, 0));
            LogInv(l4) && HasSequence(l4.messages, 0, n) && |ChannelLog(l4.messages, 0)| == n &&
            l4 == Log(l3.messages + [Message(n, n, NOTE, n, 0)], l3.calls[n := l3.calls[n].(pc := Returned(n))])
  {
    InsertNext(l3, n, n);
    LogStepKeepsInv(l3, Insert(n, n, 0));
    var row := Message(n, n, NOTE, n, 0);
    ChannelLogAppend(l3.messages, row, 0);
    assert row in l3.messages + [row];
  }

  /** The loser's insert, the fifth. */
  lemma LoserInserts(l4: Log, service: Service, n: nat)
    requires 0 < n <= Budget(service) && LogInv(l4) && HasSequence(l4.messages, 0, n) && |ChannelLog(l4.messages, 0)| == n
    requires forall k: nat :: k in l4.calls <==> k <= n
    requires forall k :: k in l4.calls ==> l4.calls[k].input == NOTE
    requires forall m :: m in l4.messages ==> 1 <= m.id <= n && m.input == NOTE
    requires l4.calls[0].service == service && l4.calls[0].attempt == n - 1 && l4.calls[0].collisions == 0
    requires l4.calls[0].pc == Inserting(n)
    ensures AfterRounds(LogStep(l4, Insert(0, 0, 0)), service, n)
  {
    assert !HasId(l4.messages, 0);
    InsertLoses(l4, 0, 0);
    LogStepKeepsInv(l4, Insert(0, 0, 0));
  }

  lemma OneRound(l: Log, service: Service, n: nat)
    requires n > 0 && n <= Budget(service) && AfterRounds(l, service, n - 1)
    ensures AfterRounds(LogExec(l, Round(n)), service, n)
  {
    ExecFive(l, Round(n));
    RoundReads(l, service, n);
    var l3 := LogStep(LogStep(LogStep(l, Read(0)), Begin(n, Messaging, NOTE)), Read(n));
    assert !HasId(l3.messages, n);
    WinnerInserts(l3, n);
    LoserInserts(LogStep(l3, Insert(n, n, 0)), service, n);
  }

  lemma {:induction false} AllRounds(service: Service, n: nat)
    requires n <= Budget(service)
    ensures AfterRounds(LogExec(EMPTY, Rounds(service, n)), service, n)
  {
    if n == 0 {
      EmptyLogInv();
      var l := LogStep(EMPTY, Begin(0, service, NOTE));
      LogStepKeepsInv(EMPTY, Begin(0, service, NOTE));
      var acts := Rounds(service, 0);
      assert acts[1..] == [] && LogExec(l, []) == l;
      assert LogExec(EMPTY, acts) == l;
    } else {
      AllRounds(service, n - 1);
      LogExecConcat(EMPTY, Rounds(service, n - 1), Round(n));
      OneRound(LogExec(EMPTY, Rounds(service, n - 1)), service, n);
    }
  }

  /** One call more than the budget can exhaust it: BudgetSuffices is exact. */
  lemma BudgetIsTight(service: Service) returns (l: Log)
    ensures Reached(l) && 0 in l.calls && l.calls[0].service == service && l.calls[0].collisions == 0
    ensures |CallsOn(l, l.calls[0].input.channel)| == Budget(service) + 1
    ensures Exhausted(l.calls[0])
  {
    var n := Budget(service);
    AllRounds(service, n);
    l := LogExec(EMPTY, Rounds(service, n));
    InitialSegmentSize(CallsOn(l, 0), n + 1);
    assert l.calls[0].input == NOTE;
  }

  // ------------------------------------------------- atomic append-only log

  type AtomicLog = map<nat, seq<Input>>

  function Entries(a: AtomicLog, c: nat): seq<Input> {
    if c in a then a[c] else []
  }

  /** The atomic operation: append an entry, answer its position from 1. */
  function Append(a: AtomicLog, e: Input): (AtomicLog, nat) {
    (a[e.channel := Entries(a, e.channel) + [e]], |Entries(a, e.channel)| + 1)
  }

  function Abstract(ms: seq<Message>): AtomicLog {
    if ms == [] then map[] else Append(Abstract(ms[..|ms| - 1]), ms[|ms| - 1].input).0
  }

  lemma {:induction false} AbstractEntries(ms: seq<Message>, c: nat)
    ensures |Entries(Abstract(ms), c)| == |ChannelLog(ms, c)|
    ensures forall i :: 0 <= i < |ChannelLog(ms, c)| ==> Entries(Abstract(ms), c)[i] == ChannelLog(ms, c)[i].input
  {
    if ms != [] {
      AbstractEntries(ms[..|ms| - 1], c);
    }
  }

  /**
   Refinement: a step either leaves the abstract log alone and returns no call, or is
   the one insert that returns call k, and then it is one atomic append of k's input
   whose answer is the stored sequence.
   */
  lemma StepRefinesAppend(l: Log, a: LogAction)
    requires LogInv(l)
    ensures var l' := LogStep(l, a);
            var quiet := l'.messages == l.messages &&
              forall k :: k in l'.calls && l'.calls[k].pc.Returned? ==> k in l.calls && l.calls[k].pc.Returned?;
            quiet ||
            (a.Insert? && a.call in l.calls && !l.calls[a.call].pc.Returned? &&
             l'.messages == l.messages + [Message(a.id, a.call, l.calls[a.call].input, l.calls[a.call].pc.sequence, a.now)] &&
             l'.calls == l.calls[a.call := l.calls[a.call].(pc := Returned(a.id))] &&
             (Abstract(l'.messages), l.calls[a.call].pc.sequence) == Append(Abstract(l.messages), l.calls[a.call].input))
  {
    if a.Insert? && a.call in l.calls && l.calls[a.call].pc.Inserting? {
      var c := l.calls[a.call];
      var row := Message(a.id, a.call, c.input, c.pc.sequence, a.now);
      if TryCreate(l.messages, row).Ok? {
        InsertTakesNext(l, a.call, a.id, a.now);
        AbstractEntries(l.messages, c.input.channel);
        assert (l.messages + [row])[..|l.messages|] == l.messages;
      }
    }
  }

  // --------------------------------------------------------- real-time order

  ghost predicate Later(l0: Log, l: Log) {
    && l0.messages <= l.messages
    && (forall k :: k in l0.calls ==> k in l.calls && l.calls[k].input == l0.calls[k].input)
    && (forall k :: k in l0.calls && l0.calls[k].pc.Returned? ==> l.calls[k].pc == l0.calls[k].pc)
    && (forall k :: k in l.calls && k !in l0.calls ==>
          l.calls[k].began >= |ChannelLog(l0.messages, l.calls[k].input.channel)|)
  }

  lemma {:induction false} ChannelLogMonotone(a: seq<Message>, b: seq<Message>, c: nat)
    requires a <= b
    ensures ChannelLog(a, c) <= ChannelLog(b, c)
    decreases |b|
  {
    if a == b {
    } else {
      assert a <= b[..|b| - 1];
      ChannelLogMonotone(a, b[..|b| - 1], c);
    }
  }

  lemma LaterStep(l0: Log, l: Log, a: LogAction)
    requires Later(l0, l) && LogInv(l)
    ensures Later(l0, LogStep(l, a))
  {
    if a.Begin? && a.call !in l.calls {
      ChannelLogMonotone(l0.messages, l.messages, a.input.channel);
    }
  }

  lemma {:induction false} LaterExec(l0: Log, l: Log, acts: seq<LogAction>)
    requires Later(l0, l) && LogInv(l)
    ensures Later(l0, LogExec(l, acts)) && LogInv(LogExec(l, acts))
    decreases |acts|
  {
    if acts != [] {
      LaterStep(l0, l, acts[0]);
      LogStepKeepsInv(l, acts[0]);
      LaterExec(l0, LogStep(l, acts[0]), acts[1..]);
    }
  }

  lemma {:induction false} RowInLog(ms: seq<Message>, m: Message)
    requires Dense(ms) && m in ms
    ensures 1 <= m.sequence <= |ChannelLog(ms, m.input.channel)|
    ensures ChannelLog(ms, m.input.channel)[m.sequence - 1] == m
  {
    var log := ChannelLog(ms, m.input.channel);
    ChannelLogMembers(ms, m.input.channel);
    assert Numbered(log) && m in log;
    var i :| 0 <= i < |log| && log[i] == m;
  }

  /** Within a channel, sequence order is commit order. */
  lemma CommitOrderIsSequenceOrder(ms: seq<Message>, i: nat, j: nat)
    requires Dense(ms) && i < |ms| && j < |ms| && ms[i].input.channel == ms[j].input.channel
    ensures i < j <==> ms[i].sequence < ms[j].sequence
  {
    if i < j {
      EarlierIsSmaller(ms, i, j);
    } else if j < i {
      EarlierIsSmaller(ms, j, i);
    }
  }

  lemma EarlierIsSmaller(ms: seq<Message>, i: nat, j: nat)
    requires Dense(ms) && i < j < |ms| && ms[i].input.channel == ms[j].input.channel
    ensures ms[i].sequence < ms[j].sequence
  {
    var c := ms[j].input.channel;
    DensePrefix(ms, ms[..j]);
    DensePrefix(ms, ms[..j + 1]);
    assert ms[..j][i] == ms[i];
    RowInLog(ms[..j], ms[i]);
    assert ms[..j + 1] == ms[..j] + [ms[j]];
    ChannelLogAppend(ms[..j], ms[j], c);
    var log := ChannelLog(ms[..j + 1], c);
    assert Numbered(log);
    assert log[|log| - 1] == ms[j];
  }

  lemma DensePrefix(ms: seq<Message>, front: seq<Message>)
    requires Dense(ms) && front <= ms
    ensures Dense(front)
  {
    forall c: nat ensures Numbered(ChannelLog(front, c)) {
      ChannelLogMonotone(front, ms, c);
      assert Numbered(ChannelLog(ms, c));
    }
  }

  /**
   If m1 was stored before the call of m2 began on the same channel, m1 stays stored and
   has the smaller sequence.
   */
  lemma RealTimeOrder(first: Log, acts: seq<LogAction>, m1: Message, m2: Message)
    requires Reached(first) && m1 in first.messages && m2.call !in first.calls
    requires m2 in LogExec(first, acts).messages && m2.input.channel == m1.input.channel
    ensures m1 in LogExec(first, acts).messages && m1.sequence < m2.sequence
  {
    ReachedInv(first);
    LaterExec(first, first, acts);
    var last := LogExec(first, acts);
    assert Signed(last, m2);
    RowInLog(first.messages, m1);
  }
}
