/** Reading a channel page by page while others keep writing. */
module History {
  import opened Prelude
  import opened Ordering
  import opened MessageLog
  import opened LogTheorems
  import opened Messaging
  import opened MessagingInvariant

  const DEFAULT_LIMIT := 50
  const MAX_LIMIT := 200

  /** A missing or non-finite limit falls back; any other is clamped to 1..max. */
  function NormalizeLimit(limit: Option<int>, fallback: nat, max: nat): (n: nat)
    requires 1 <= max
    ensures limit.Some? ==> 1 <= n <= max
    ensures limit.Some? && 1 <= limit.value <= max ==> n == limit.value
    ensures limit.Some? && limit.value > max ==> n == max
    ensures limit.None? ==> n == fallback
  {
    match limit
    case None => fallback
    case Some(n) => Max(1, Min(n, max))
  }

  function MessageKey(m: Message): Key {
    (m.sequence, m.createdAt)
  }

  /** The channel's rows ordered by sequence, then creation time. */
  function InSequence(ms: seq<Message>, c: nat): seq<Message> {
    StableSort(ChannelLog(ms, c), MessageKey)
  }

  function IndexOf(log: seq<Message>, id: nat): (i: nat)
    ensures i <= |log|
    ensures i < |log| ==> log[i].id == id
  {
    if log == [] || log[0].id == id then 0 else 1 + IndexOf(log[1..], id)
  }

  datatype Page = Page(data: seq<Message>, cursor: Option<nat>)

  /** Up to `limit` rows from a position on; the next cursor is null on a short page. */
  function PageAt(log: seq<Message>, from: nat, limit: nat): Page
    requires from <= |log|
  {
    var data := log[from..Min(from + limit, |log|)];
    Page(data, if |data| == limit && limit > 0 then Some(data[|data| - 1].id) else None)
  }

  /** Where a cursor points: behind its row; behind the end when there is no such row. */
  function From(log: seq<Message>, cursor: Option<nat>): (from: nat)
    ensures from <= |log|
  {
    match cursor
    case None => 0
    case Some(id) => Min(IndexOf(log, id) + 1, |log|)
  }

  function ListMessages(ms: seq<Message>, c: nat, cursor: Option<nat>, requested: Option<int>): Page {
    var log := InSequence(ms, c);
    PageAt(log, From(log, cursor), NormalizeLimit(requested, DEFAULT_LIMIT, MAX_LIMIT))
  }

  /** A reader's walk: one page per state of the table, following cursors until one is null. */
  function Walk(tables: seq<seq<Message>>, c: nat, cursor: Option<nat>, limit: Option<int>): (seq<Message>, Option<nat>) {
    if tables == [] then ([], cursor)
    else
      var page := ListMessages(tables[0], c, cursor, limit);
      if page.cursor.None? then (page.data, None)
      else
        var (data, last) := Walk(tables[1..], c, page.cursor, limit);
        (page.data + data, last)
  }

  /** How many tables the walk reads. */
  function Pages(tables: seq<seq<Message>>, c: nat, cursor: Option<nat>, limit: Option<int>): nat {
    if tables == [] then 0
    else
      var page := ListMessages(tables[0], c, cursor, limit);
      if page.cursor.None? then 1 else 1 + Pages(tables[1..], c, page.cursor, limit)
  }

  lemma InSequenceIsLog(ms: seq<Message>, c: nat)
    requires Dense(ms)
    ensures InSequence(ms, c) == ChannelLog(ms, c)
  {
    var log := ChannelLog(ms, c);
    assert Numbered(log);
    SortOfSorted(log, MessageKey);
  }

  lemma {:induction false} IndexOfAt(log: seq<Message>, i: nat)
    requires i < |log| && forall a, b :: 0 <= a < b < |log| ==> log[a].id != log[b].id
    ensures IndexOf(log, log[i].id) == i
  {
    if i > 0 {
      assert log[0].id != log[i].id;
      IndexOfAt(log[1..], i - 1);
    }
  }

  lemma ChannelLogIds(ms: seq<Message>, c: nat)
    requires Dense(ms) && UniqueIds(ms)
    ensures forall a, b :: 0 <= a < b < |ChannelLog(ms, c)| ==> ChannelLog(ms, c)[a].id != ChannelLog(ms, c)[b].id
  {
    var log := ChannelLog(ms, c);
    ChannelLogMembers(ms, c);
    assert Numbered(log);
    forall a, b | 0 <= a < b < |log| ensures log[a].id != log[b].id {
      assert log[a] in log && log[b] in log;
      var i :| 0 <= i < |ms| && ms[i] == log[a];
      var j :| 0 <= j < |ms| && ms[j] == log[b];
      assert i != j;
    }
  }

  /** A cursor at position n (none for 0) reads the log from n on. */
  predicate CursorAt(log: seq<Message>, cursor: Option<nat>, n: nat) {
    n <= |log| && cursor == if n == 0 then None else Some(log[n - 1].id)
  }

  lemma PageAtFacts(log: seq<Message>, n: nat, limit: nat)
    requires n <= |log| && limit > 0
    ensures var page := PageAt(log, n, limit);
            page.data == log[n..Min(n + limit, |log|)] &&
            (page.cursor.None? <==> n + limit > |log|) &&
            (page.cursor.Some? ==> CursorAt(log, page.cursor, n + limit))
  {
  }

  lemma FromCursor(log: seq<Message>, cursor: Option<nat>, n: nat)
    requires CursorAt(log, cursor, n)
    requires forall a, b :: 0 <= a < b < |log| ==> log[a].id != log[b].id
    ensures From(log, cursor) == n
  {
    if n > 0 {
      IndexOfAt(log, n - 1);
    }
  }

  lemma PageFrom(ms: seq<Message>, c: nat, cursor: Option<nat>, limit: Option<int>, n: nat)
    requires Dense(ms) && UniqueIds(ms) && CursorAt(ChannelLog(ms, c), cursor, n)
    ensures ListMessages(ms, c, cursor, limit) ==
            PageAt(ChannelLog(ms, c), n, NormalizeLimit(limit, DEFAULT_LIMIT, MAX_LIMIT))
  {
    InSequenceIsLog(ms, c);
    ChannelLogIds(ms, c);
    FromCursor(ChannelLog(ms, c), cursor, n);
  }

  ghost predicate Growing(tables: seq<seq<Message>>) {
    && (forall i :: 0 <= i < |tables| ==> Dense(tables[i]) && UniqueIds(tables[i]))
    && (forall i :: 0 <= i < |tables| - 1 ==> tables[i] <= tables[i + 1])
  }

  lemma {:induction false} GrowingPrefix(tables: seq<seq<Message>>, i: nat, j: nat)
    requires Growing(tables) && i <= j < |tables|
    ensures tables[i] <= tables[j]
    decreases j - i
  {
    if i < j {
      GrowingPrefix(tables, i + 1, j);
    }
  }

  /**
   What a walk from position n has collected: a stretch of the log of the last table it read,
   starting at n; when its cursor ends null, all the rest of that log.
   */
  ghost predicate WalkedFrom(tables: seq<seq<Message>>, c: nat, cursor: Option<nat>, limit: Option<int>, n: nat) {
    var read := Pages(tables, c, cursor, limit);
    var (data, last) := Walk(tables, c, cursor, limit);
    1 <= read <= |tables| && IsStretch(ChannelLog(tables[read - 1], c), n, data) &&
    (last.None? ==> n + |data| == |ChannelLog(tables[read - 1], c)|) && (last.Some? ==> read == |tables|)
  }

  ghost predicate IsStretch(log: seq<Message>, n: nat, data: seq<Message>) {
    n + |data| <= |log| && data == log[n..n + |data|]
  }

  lemma WalkOne(tables: seq<seq<Message>>, c: nat, cursor: Option<nat>, limit: Option<int>, n: nat, page: Page)
    requires tables != [] && page == ListMessages(tables[0], c, cursor, limit)
    requires page.cursor.None? || |tables| == 1
    requires IsStretch(ChannelLog(tables[0], c), n, page.data)
    requires page.cursor.None? ==> n + |page.data| == |ChannelLog(tables[0], c)|
    ensures WalkedFrom(tables, c, cursor, limit, n)
  {
    if page.cursor.Some? {
      assert tables[1..] == [];
      assert Walk(tables[1..], c, page.cursor, limit) == ([], page.cursor);
      assert page.data + [] == page.data;
    }
  }

  lemma WalkMore(tables: seq<seq<Message>>, c: nat, cursor: Option<nat>, limit: Option<int>, n: nat, page: Page)
    requires Growing(tables) && |tables| > 1 && page == ListMessages(tables[0], c, cursor, limit) && page.cursor.Some?
    requires IsStretch(ChannelLog(tables[0], c), n, page.data)
    requires WalkedFrom(tables[1..], c, page.cursor, limit, n + |page.data|)
    ensures WalkedFrom(tables, c, cursor, limit, n)
  {
    var rest := tables[1..];
    var read := Pages(rest, c, page.cursor, limit);
    var (data, last) := Walk(rest, c, page.cursor, limit);
    GrowingPrefix(tables, 0, read);
    assert rest[read - 1] == tables[read];
    ChannelLogMonotone(tables[0], tables[read], c);
    JoinSlices(ChannelLog(tables[read], c), ChannelLog(tables[0], c), n, n + |page.data|, n + |page.data| + |data|);
    assert Walk(tables, c, cursor, limit) == (page.data + data, last);
    assert Pages(tables, c, cursor, limit) == read + 1;
  }

  /** One page from position n: a stretch of the log, and where its cursor points. */
  lemma NextPage(ms: seq<Message>, c: nat, cursor: Option<nat>, limit: Option<int>, n: nat) returns (page: Page, step: nat)
    requires Dense(ms) && UniqueIds(ms) && CursorAt(ChannelLog(ms, c), cursor, n)
    ensures page == ListMessages(ms, c, cursor, limit) && step == NormalizeLimit(limit, DEFAULT_LIMIT, MAX_LIMIT)
    ensures IsStretch(ChannelLog(ms, c), n, page.data)
    ensures page.cursor.None? <==> n + step > |ChannelLog(ms, c)|
    ensures page.cursor.None? ==> n + |page.data| == |ChannelLog(ms, c)|
    ensures page.cursor.Some? ==> |page.data| == step && CursorAt(ChannelLog(ms, c), page.cursor, n + step)
  {
    PageFrom(ms, c, cursor, limit, n);
    step := NormalizeLimit(limit, DEFAULT_LIMIT, MAX_LIMIT);
    var log := ChannelLog(ms, c);
    PageAtFacts(log, n, step);
    page := PageAt(log, n, step);
  }

  lemma CursorStays(log: seq<Message>, more: seq<Message>, cursor: Option<nat>, n: nat)
    requires CursorAt(log, cursor, n) && log <= more
    ensures CursorAt(more, cursor, n)
  {
  }

  lemma {:induction false} WalkFrom(tables: seq<seq<Message>>, c: nat, cursor: Option<nat>, limit: Option<int>, n: nat)
    requires Growing(tables) && tables != [] && CursorAt(ChannelLog(tables[0], c), cursor, n)
    ensures WalkedFrom(tables, c, cursor, limit, n)
    decreases |tables|
  {
    var page, step := NextPage(tables[0], c, cursor, limit, n);
    if page.cursor.Some? && |tables| > 1 {
      GrowingTail(tables);
      ChannelLogMonotone(tables[0], tables[1], c);
      CursorStays(ChannelLog(tables[0], c), ChannelLog(tables[1], c), page.cursor, n + step);
      WalkFrom(tables[1..], c, page.cursor, limit, n + step);
      WalkMore(tables, c, cursor, limit, n, page);
    } else {
      WalkOne(tables, c, cursor, limit, n, page);
    }
  }

  lemma JoinSlices(log: seq<Message>, front: seq<Message>, a: nat, b: nat, c: nat)
    requires a <= b <= c <= |log| && b <= |front| && front <= log
    ensures front[a..b] + log[b..c] == log[a..c]
  {
  }

  lemma GrowingTail(tables: seq<seq<Message>>)
    requires Growing(tables) && |tables| > 1
    ensures Growing(tables[1..]) && tables[0] <= tables[1]
  {
    var rest := tables[1..];
    assert tables[0] <= tables[0 + 1];
    forall i | 0 <= i < |rest| - 1 ensures rest[i] <= rest[i + 1] {
      assert tables[i + 1] <= tables[i + 1 + 1];
    }
  }

  /** From the start: the reader always holds a prefix of the log, and all of it when done. */
  lemma WalkReadsPrefix(tables: seq<seq<Message>>, c: nat, limit: Option<int>)
    requires Growing(tables) && tables != []
    ensures var (data, last) := Walk(tables, c, None, limit);
            var read := Pages(tables, c, None, limit);
            1 <= read <= |tables| && data <= ChannelLog(tables[read - 1], c) &&
            (last.None? ==> data == ChannelLog(tables[read - 1], c))
  {
    WalkFrom(tables, c, None, limit, 0);
  }

  /** The tables a reader meets when other clients run between its pages. */
  function Tables(w: World, between: seq<seq<Action>>): seq<seq<Message>>
    decreases |between|
  {
    if between == [] then [w.log.messages]
    else [w.log.messages] + Tables(Exec(w, between[0]), between[1..])
  }

  lemma {:induction false} TablesGrow(w: World, between: seq<seq<Action>>)
    requires Reachable(w)
    ensures Growing(Tables(w, between))
    decreases |between|
  {
    ReachableInv(w);
    if between != [] {
      var v := Exec(w, between[0]);
      ReachableExec(w, between[0]);
      ExecExtends(w, between[0]);
      TablesGrow(v, between[1..]);
      var tables, rest := Tables(w, between), Tables(v, between[1..]);
      assert rest[0] == v.log.messages;
      forall i | 0 <= i < |tables| - 1 ensures tables[i] <= tables[i + 1] {
        if i > 0 {
          assert rest[i - 1] <= rest[i - 1 + 1];
        }
      }
    }
  }

  /** The walk of a reader among arbitrary other clients. */
  lemma ConcurrentWalk(w: World, between: seq<seq<Action>>, c: nat, limit: Option<int>)
    requires Reachable(w)
    ensures var tables := Tables(w, between);
            var (data, last) := Walk(tables, c, None, limit);
            var read := Pages(tables, c, None, limit);
            1 <= read <= |tables| && data <= ChannelLog(tables[read - 1], c) &&
            (last.None? ==> data == ChannelLog(tables[read - 1], c))
  {
    TablesGrow(w, between);
    WalkReadsPrefix(Tables(w, between), c, limit);
  }

  function PagesNeeded(left: nat, step: nat): (n: nat)
    requires step > 0
    ensures n > 0
  {
    if left < step then 1 else 1 + PagesNeeded(left - step, step)
  }

  /** One page more than the full ones. */
  lemma {:induction false} PagesNeededBounds(left: nat, step: nat)
    requires step > 0
    ensures (PagesNeeded(left, step) - 1) * step <= left < PagesNeeded(left, step) * step
  {
    if left >= step {
      PagesNeededBounds(left - step, step);
      OneLess(PagesNeeded(left, step), step);
      OneLess(PagesNeeded(left - step, step), step);
    }
  }

  lemma OneLess(n: nat, step: nat)
    ensures n * step == (n - 1) * step + step
  {
  }

  lemma WalkOn(tables: seq<seq<Message>>, c: nat, cursor: Option<nat>, limit: Option<int>, page: Page)
    requires tables != [] && page == ListMessages(tables[0], c, cursor, limit)
    ensures Walk(tables, c, cursor, limit) ==
            if page.cursor.None? then (page.data, None)
            else (page.data + Walk(tables[1..], c, page.cursor, limit).0, Walk(tables[1..], c, page.cursor, limit).1)
  {
  }

  lemma PagesLeft(left: nat, step: nat)
    requires step > 0
    ensures PagesNeeded(left, step) == if left < step then 1 else 1 + PagesNeeded(left - step, step)
  {
  }

  lemma JoinRest(log: seq<Message>, n: nat, page: seq<Message>, next: nat)
    requires IsStretch(log, n, page) && n + |page| == next
    ensures page + log[next..] == log[n..]
    ensures next == |log| ==> page == log[n..]
  {
  }

  lemma QuietPage(tables: seq<seq<Message>>, c: nat, cursor: Option<nat>, limit: Option<int>, page: Page, log: seq<Message>, n: nat)
    requires tables != [] && page == ListMessages(tables[0], c, cursor, limit) && IsStretch(log, n, page.data)
    requires page.cursor.None? ==> n + |page.data| == |log|
    requires page.cursor.Some? ==> Walk(tables[1..], c, page.cursor, limit) == (log[n + |page.data|..], None)
    ensures Walk(tables, c, cursor, limit) == (log[n..], None)
  {
    WalkOn(tables, c, cursor, limit, page);
    JoinRest(log, n, page.data, n + |page.data|);
  }

  /** Once appends stop, the walk ends with the whole log. */
  lemma {:induction false} QuietWalkEnds(tables: seq<seq<Message>>, ms: seq<Message>, c: nat, cursor: Option<nat>, limit: Option<int>, n: nat, step: nat)
    requires Dense(ms) && UniqueIds(ms) && CursorAt(ChannelLog(ms, c), cursor, n)
    requires forall i :: 0 <= i < |tables| ==> tables[i] == ms
    requires step == NormalizeLimit(limit, DEFAULT_LIMIT, MAX_LIMIT) && step > 0
    requires |tables| >= PagesNeeded(|ChannelLog(ms, c)| - n, step)
    ensures Walk(tables, c, cursor, limit) == (ChannelLog(ms, c)[n..], None)
    decreases |tables|
  {
    var page, _ := NextPage(ms, c, cursor, limit, n);
    var log := ChannelLog(ms, c);
    PagesLeft(|log| - n, step);
    if n + step <= |log| {
      QuietWalkEnds(tables[1..], ms, c, page.cursor, limit, n + step, step);
    }
    QuietPage(tables, c, cursor, limit, page, log, n);
  }

  lemma {:induction false} QuietPages(tables: seq<seq<Message>>, ms: seq<Message>, c: nat, cursor: Option<nat>, limit: Option<int>, n: nat, step: nat)
    requires Dense(ms) && UniqueIds(ms) && CursorAt(ChannelLog(ms, c), cursor, n)
    requires forall i :: 0 <= i < |tables| ==> tables[i] == ms
    requires step == NormalizeLimit(limit, DEFAULT_LIMIT, MAX_LIMIT) && step > 0
    requires |tables| >= PagesNeeded(|ChannelLog(ms, c)| - n, step)
    ensures Pages(tables, c, cursor, limit) == PagesNeeded(|ChannelLog(ms, c)| - n, step)
    decreases |tables|
  {
    var page, _ := NextPage(ms, c, cursor, limit, n);
    PagesLeft(|ChannelLog(ms, c)| - n, step);
    PagesOn(tables, c, cursor, limit, page);
    if n + step <= |ChannelLog(ms, c)| {
      QuietPages(tables[1..], ms, c, page.cursor, limit, n + step, step);
    }
  }

  /** And it reads as many pages as are needed: one more than the full ones. */
  lemma QuietWalkPages(tables: seq<seq<Message>>, ms: seq<Message>, c: nat, cursor: Option<nat>, limit: Option<int>, n: nat, step: nat)
    requires Dense(ms) && UniqueIds(ms) && CursorAt(ChannelLog(ms, c), cursor, n)
    requires forall i :: 0 <= i < |tables| ==> tables[i] == ms
    requires step == NormalizeLimit(limit, DEFAULT_LIMIT, MAX_LIMIT) && step > 0
    requires |tables| >= PagesNeeded(|ChannelLog(ms, c)| - n, step)
    ensures var read := Pages(tables, c, cursor, limit);
            (read - 1) * step <= |ChannelLog(ms, c)| - n < read * step
  {
    QuietPages(tables, ms, c, cursor, limit, n, step);
    PagesNeededBounds(|ChannelLog(ms, c)| - n, step);
  }

  lemma PagesOn(tables: seq<seq<Message>>, c: nat, cursor: Option<nat>, limit: Option<int>, page: Page)
    requires tables != [] && page == ListMessages(tables[0], c, cursor, limit)
    ensures Pages(tables, c, cursor, limit) == if page.cursor.None? then 1 else 1 + Pages(tables[1..], c, page.cursor, limit)
  {
  }

  /** A cursor that names no row of the channel gets an empty last page. */
  lemma UnknownCursor(ms: seq<Message>, c: nat, cursor: nat, limit: Option<int>)
    requires Dense(ms) && forall m :: m in ms && m.input.channel == c ==> m.id != cursor
    ensures ListMessages(ms, c, Some(cursor), limit) == Page([], None)
  {
    InSequenceIsLog(ms, c);
    ChannelLogMembers(ms, c);
    forall i | 0 <= i < |ChannelLog(ms, c)|
      ensures ChannelLog(ms, c)[i].id != cursor
    {
      assert ChannelLog(ms, c)[i] in ChannelLog(ms, c);
    }
  }
}
