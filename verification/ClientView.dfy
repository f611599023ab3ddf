/** The web client's message list: a fold of realtime events into a sorted list. */
module ClientView {
  import opened Prelude
  import opened Ordering
  import opened MessageLog
  import opened LogTheorems
  import opened Messaging
  import opened MessagingInvariant
  import opened ThreadTheorems

  /** A message as the client receives it; edits and deletes change the last two fields. */
  datatype Post = Post(
    id: nat,
    channel: nat,
    sequence: nat,
    createdAt: nat,
    threadId: Option<nat>,
    parent: Option<nat>,
    content: string,
    deleted: bool)

  datatype Event = Created(post: Post) | Updated(post: Post) | Deleted(post: Post) | ThreadReply(post: Post)

  function PostKey(p: Post): Key {
    (p.sequence, p.createdAt)
  }

  function SortMessages(messages: seq<Post>): seq<Post> {
    StableSort(messages, PostKey)
  }

  /** findIndex by id; the length when absent. */
  function FindIndex(messages: seq<Post>, id: nat): (i: nat)
    ensures i <= |messages|
    ensures i < |messages| ==> messages[i].id == id
    ensures forall j :: 0 <= j < i ==> messages[j].id != id
  {
    if messages == [] || messages[0].id == id then 0 else 1 + FindIndex(messages[1..], id)
  }

  function Upsert(messages: seq<Post>, next: Post): seq<Post> {
    var index := FindIndex(messages, next.id);
    SortMessages(if index == |messages| then messages + [next] else messages[index := next])
  }

  /** Created and reply events of other channels are dropped; updated and deleted ones are not. */
  predicate Accepts(selected: nat, e: Event) {
    e.Updated? || e.Deleted? || e.post.channel == selected
  }

  function Handle(messages: seq<Post>, selected: nat, e: Event): seq<Post> {
    if Accepts(selected, e) then Upsert(messages, e.post) else messages
  }

  function Fold(messages: seq<Post>, selected: nat, events: seq<Event>): seq<Post> {
    if events == [] then messages else Handle(Fold(messages, selected, events[..|events| - 1]), selected, events[|events| - 1])
  }

  /** The page component's state and its four realtime handlers. */
  class MessagesPage {
    var messages: seq<Post>
    var selectedChannel: nat

    constructor (selected: nat)
      ensures messages == [] && selectedChannel == selected
    {
      messages, selectedChannel := [], selected;
    }

    /** The query result replaces the list: its messages in order, ties as they came. */
    method Load(data: seq<Post>)
      modifies this`messages
      ensures IsStableSort(data, messages, PostKey)
      ensures DistinctIds(data) ==> Shows(messages, ById(data))
    {
      messages := SortMessages(data);
      SortIsStable(data, PostKey);
      LoadShows(data);
    }

    method UpsertMessage(next: Post)
      modifies this`messages
      ensures messages == Upsert(old(messages), next)
    {
      var index := 0;
      while index < |messages| && messages[index].id != next.id
        invariant 0 <= index <= |messages|
        invariant forall j :: 0 <= j < index ==> messages[j].id != next.id
      {
        index := index + 1;
      }
      assert index == FindIndex(messages, next.id) by {
        var i := FindIndex(messages, next.id);
      }
      if index == |messages| {
        messages := SortMessages(messages + [next]);
      } else {
        var copy := messages;
        copy := copy[index := next];
        messages := SortMessages(copy);
      }
    }

    method OnEvent(e: Event)
      modifies this`messages
      ensures messages == Handle(old(messages), selectedChannel, e)
    {
      match e {
        case Created(post) => if post.channel == selectedChannel { UpsertMessage(post); }
        case Updated(post) => UpsertMessage(post);
        case Deleted(post) => UpsertMessage(post);
        case ThreadReply(post) => if post.channel == selectedChannel { UpsertMessage(post); }
      }
    }

    method OnEvents(events: seq<Event>)
      modifies this`messages
      ensures messages == Fold(old(messages), selectedChannel, events)
    {
      for i := 0 to |events|
        invariant messages == Fold(old(messages), selectedChannel, events[..i])
      {
        OnEvent(events[i]);
        assert events[..i + 1][..i] == events[..i];
      }
      assert events[..|events|] == events;
    }
  }

  // ------------------------------------------------------------- convergence

  /** The last accepted version of every id. */
  function LastVersions(selected: nat, events: seq<Event>): map<nat, Post> {
    if events == [] then map[]
    else
      var before := LastVersions(selected, events[..|events| - 1]);
      var e := events[|events| - 1];
      if Accepts(selected, e) then before[e.post.id := e.post] else before
  }

  ghost predicate DistinctIds(messages: seq<Post>) {
    forall i, j :: 0 <= i < j < |messages| ==> messages[i].id != messages[j].id
  }

  /** The list holds exactly the versions of the map, one per id. */
  ghost predicate Shows(messages: seq<Post>, versions: map<nat, Post>) {
    && DistinctIds(messages)
    && (forall id :: id in versions ==> versions[id].id == id)
    && (forall p :: p in messages <==> p.id in versions && versions[p.id] == p)
  }

  function ById(data: seq<Post>): map<nat, Post>
    requires DistinctIds(data)
  {
    map p | p in data :: p.id := p
  }

  lemma LoadShows(data: seq<Post>)
    ensures DistinctIds(data) ==> Shows(SortMessages(data), ById(data))
  {
    if DistinctIds(data) {
      assert Shows(data, ById(data));
      SortShows(data, ById(data));
    }
  }

  lemma DistinctIdsPermuted(a: seq<Post>, b: seq<Post>)
    requires DistinctIds(a) && multiset(a) == multiset(b)
    ensures DistinctIds(b)
  {
    SameMultisetSameElements(a, b);
    forall i, j | 0 <= i < j < |b| ensures b[i].id != b[j].id {
      assert b[i] in a && b[j] in a;
      TwiceMeansTwo(b, i, j);
      if b[i].id == b[j].id {
        OnceById(a, b[i], b[j]);
      }
    }
  }

  lemma TwiceMeansTwo(s: seq<Post>, i: nat, j: nat)
    requires i < j < |s|
    ensures s[i] == s[j] ==> multiset(s)[s[i]] >= 2
  {
    assert s == s[..j] + [s[j]] + s[j + 1..];
    assert s[..j] == s[..i] + [s[i]] + s[i + 1..j];
  }

  lemma {:induction false} OnceById(s: seq<Post>, p: Post, q: Post)
    requires DistinctIds(s) && p in s && q in s && p.id == q.id
    ensures p == q && multiset(s)[p] == 1
  {
    var front, last := s[..|s| - 1], s[|s| - 1];
    assert s == front + [last];
    var i :| 0 <= i < |s| && s[i] == p;
    var j :| 0 <= j < |s| && s[j] == q;
    assert i == j;
    if p == last {
      assert p !in front;
    } else {
      assert front[i] == p;
      OnceById(front, p, q);
    }
  }

  lemma SortShows(messages: seq<Post>, versions: map<nat, Post>)
    requires Shows(messages, versions)
    ensures Shows(SortMessages(messages), versions)
  {
    SortIsSorted(messages, PostKey);
    SameMultisetSameElements(messages, SortMessages(messages));
    DistinctIdsPermuted(messages, SortMessages(messages));
  }

  lemma ReplacedElements(messages: seq<Post>, index: nat, next: Post)
    requires DistinctIds(messages) && index < |messages| && messages[index].id == next.id
    ensures DistinctIds(messages[index := next])
    ensures forall p :: p in messages[index := next] <==> p == next || (p in messages && p.id != next.id)
  {
    var copy := messages[index := next];
    forall p | p in copy ensures p == next || (p in messages && p.id != next.id) {
      var i :| 0 <= i < |copy| && copy[i] == p;
      if i != index {
        assert messages[i] == p;
      }
    }
    forall p | p == next || (p in messages && p.id != next.id) ensures p in copy {
      if p == next {
        assert copy[index] == p;
      } else {
        var i :| 0 <= i < |messages| && messages[i] == p;
        assert copy[i] == p;
      }
    }
  }

  lemma UpsertShows(messages: seq<Post>, versions: map<nat, Post>, next: Post)
    requires Shows(messages, versions)
    ensures Shows(Upsert(messages, next), versions[next.id := next])
  {
    var index := FindIndex(messages, next.id);
    var after := versions[next.id := next];
    if index == |messages| {
      assert forall p :: p in messages ==> p.id != next.id;
      SortShows(messages + [next], after);
    } else {
      ReplacedElements(messages, index, next);
      SortShows(messages[index := next], after);
    }
  }

  /** Whatever the order and repetition of events, the list holds the last version of each id, once. */
  lemma {:induction false} FoldShowsLastVersions(selected: nat, events: seq<Event>)
    ensures Shows(Fold([], selected, events), LastVersions(selected, events))
    ensures SortedBy(Fold([], selected, events), PostKey)
  {
    if events != [] {
      var front, e := events[..|events| - 1], events[|events| - 1];
      FoldShowsLastVersions(selected, front);
      if Accepts(selected, e) {
        var messages := Fold([], selected, front);
        UpsertShows(messages, LastVersions(selected, front), e.post);
        var index := FindIndex(messages, e.post.id);
        SortIsSorted(if index == |messages| then messages + [e.post] else messages[index := e.post], PostKey);
      }
    }
  }

  /** Different ids never carry the same sequence: what one channel's log guarantees. */
  ghost predicate OneChannel(versions: map<nat, Post>) {
    forall a, b :: a in versions && b in versions && a != b ==> versions[a].sequence != versions[b].sequence
  }

  lemma ShownStrictly(messages: seq<Post>, versions: map<nat, Post>)
    requires Shows(messages, versions) && SortedBy(messages, PostKey) && OneChannel(versions)
    ensures StrictlySortedBy(messages, PostKey)
    ensures forall i, j :: 0 <= i < j < |messages| ==> messages[i].sequence < messages[j].sequence
  {
    forall i, j | 0 <= i < j < |messages|
      ensures messages[i].sequence < messages[j].sequence && KeyLess(PostKey(messages[i]), PostKey(messages[j]))
    {
      assert messages[i] in messages && messages[j] in messages;
      assert KeyLe(PostKey(messages[i]), PostKey(messages[j]));
    }
  }

  /** Two lists that show the same versions of one channel in order are the same list. */
  lemma ShownOnce(a: seq<Post>, b: seq<Post>, versions: map<nat, Post>)
    requires Shows(a, versions) && Shows(b, versions) && OneChannel(versions)
    requires SortedBy(a, PostKey) && SortedBy(b, PostKey)
    ensures a == b
  {
    ShownStrictly(a, versions);
    ShownStrictly(b, versions);
    assert Elements(a) == Elements(b);
    StrictlySortedUnique(a, b, PostKey);
  }

  /** The view depends only on the last version received per id. */
  lemma Convergence(selected: nat, first: seq<Event>, second: seq<Event>)
    requires LastVersions(selected, first) == LastVersions(selected, second)
    requires OneChannel(LastVersions(selected, first))
    ensures Fold([], selected, first) == Fold([], selected, second)
    ensures StrictlySortedBy(Fold([], selected, first), PostKey)
  {
    FoldShowsLastVersions(selected, first);
    FoldShowsLastVersions(selected, second);
    ShownOnce(Fold([], selected, first), Fold([], selected, second), LastVersions(selected, first));
    ShownStrictly(Fold([], selected, first), LastVersions(selected, first));
  }

  /** Every accepted event carries a version of a row of the log: same id, same sequence. */
  ghost predicate CarriesRows(log: seq<Message>, selected: nat, events: seq<Event>) {
    forall i {:trigger events[i]} :: 0 <= i < |events| && Accepts(selected, events[i]) ==> IsRowOf(log, events[i].post)
  }

  ghost predicate IsRowOf(log: seq<Message>, p: Post) {
    exists j {:trigger log[j]} :: 0 <= j < |log| && log[j].id == p.id && log[j].sequence == p.sequence
  }

  lemma RowsAreOneChannel(w: World, c: nat, events: seq<Event>)
    requires Reachable(w) && CarriesRows(ChannelLog(w.log.messages, c), c, events)
    ensures OneChannel(LastVersions(c, events))
  {
    ReachableInv(w);
    var log, versions := ChannelLog(w.log.messages, c), LastVersions(c, events);
    assert Numbered(log);
    FoldShowsLastVersions(c, events);
    forall a, b | a in versions && b in versions && a != b
      ensures versions[a].sequence != versions[b].sequence
    {
      VersionsComeFromEvents(c, events, a);
      VersionsComeFromEvents(c, events, b);
      assert IsRowOf(log, versions[a]) && IsRowOf(log, versions[b]);
      var i :| 0 <= i < |log| && log[i].id == a && log[i].sequence == versions[a].sequence;
      var j :| 0 <= j < |log| && log[j].id == b && log[j].sequence == versions[b].sequence;
    }
  }

  /**
   At every moment of every stream of versions of one channel's rows the list is strictly sorted
   by sequence, and two streams with the same last versions show the same list.
   */
  lemma ChannelStreamsConverge(w: World, c: nat, first: seq<Event>, second: seq<Event>)
    requires Reachable(w) && CarriesRows(ChannelLog(w.log.messages, c), c, first)
    ensures forall i, j :: 0 <= i < j < |Fold([], c, first)| ==> Fold([], c, first)[i].sequence < Fold([], c, first)[j].sequence
    ensures LastVersions(c, first) == LastVersions(c, second) ==> Fold([], c, first) == Fold([], c, second)
  {
    RowsAreOneChannel(w, c, first);
    FoldShowsLastVersions(c, first);
    ShownStrictly(Fold([], c, first), LastVersions(c, first));
    if LastVersions(c, first) == LastVersions(c, second) {
      Convergence(c, first, second);
    }
  }

  /** A query result is the view after one Created event per message. */
  lemma LoadIsAFold(selected: nat, data: seq<Post>, events: seq<Event>)
    requires DistinctIds(data) && |events| == |data|
    requires forall i :: 0 <= i < |data| ==> events[i] == Created(data[i]) && data[i].channel == selected
    requires forall i, j :: 0 <= i < j < |data| ==> data[i].sequence != data[j].sequence
    ensures SortMessages(data) == Fold([], selected, events)
  {
    DataVersions(selected, data, events);
    var versions := LastVersions(selected, events);
    SortShows(data, versions);
    SortIsSorted(data, PostKey);
    FoldShowsLastVersions(selected, events);
    ListedInOneChannel(data, versions);
    ShownOnce(SortMessages(data), Fold([], selected, events), versions);
  }

  lemma ListedInOneChannel(data: seq<Post>, versions: map<nat, Post>)
    requires Shows(data, versions)
    requires forall i, j :: 0 <= i < j < |data| ==> data[i].sequence != data[j].sequence
    ensures OneChannel(versions)
  {
    forall a, b | a in versions && b in versions && a != b
      ensures versions[a].sequence != versions[b].sequence
    {
      assert versions[a] in data && versions[b] in data;
    }
  }

  lemma {:induction false} DataVersions(selected: nat, data: seq<Post>, events: seq<Event>)
    requires DistinctIds(data) && |events| == |data|
    requires forall i :: 0 <= i < |data| ==> events[i] == Created(data[i]) && data[i].channel == selected
    ensures Shows(data, LastVersions(selected, events))
  {
    if data != [] {
      var front, last := data[..|data| - 1], data[|data| - 1];
      DataVersions(selected, front, events[..|events| - 1]);
      assert data == front + [last];
      assert forall p :: p in front ==> p.id != last.id;
    }
  }

  // ------------------------------------------------------------ channel filter

  /** An id belongs to one channel in every version the client ever receives. */
  ghost predicate ChannelsFixed(events: seq<Event>) {
    forall i, j | 0 <= i < |events| && 0 <= j < |events| ::
      events[i].post.id == events[j].post.id ==> events[i].post.channel == events[j].post.channel
  }

  ghost predicate IsVersion(selected: nat, events: seq<Event>, p: Post) {
    exists i :: 0 <= i < |events| && Accepts(selected, events[i]) && events[i].post == p
  }

  lemma IsVersionGrows(selected: nat, events: seq<Event>, p: Post)
    requires events != [] && IsVersion(selected, events[..|events| - 1], p)
    ensures IsVersion(selected, events, p)
  {
    var front := events[..|events| - 1];
    var i :| 0 <= i < |front| && Accepts(selected, front[i]) && front[i].post == p;
    assert events[i] == front[i];
  }

  lemma {:induction false} VersionsComeFromEvents(selected: nat, events: seq<Event>, id: nat)
    requires id in LastVersions(selected, events)
    ensures IsVersion(selected, events, LastVersions(selected, events)[id])
  {
    var front, e := events[..|events| - 1], events[|events| - 1];
    if Accepts(selected, e) && id == e.post.id {
      assert events[|events| - 1].post == LastVersions(selected, events)[id];
    } else {
      VersionsComeFromEvents(selected, front, id);
      IsVersionGrows(selected, events, LastVersions(selected, front)[id]);
    }
  }

  lemma {:induction false} AcceptedHasVersion(selected: nat, events: seq<Event>, i: nat)
    requires i < |events| && Accepts(selected, events[i])
    ensures events[i].post.id in LastVersions(selected, events)
  {
    if i < |events| - 1 {
      AcceptedHasVersion(selected, events[..|events| - 1], i);
    }
  }

  /**
   The list never shows another channel's message if and only if every updated and deleted
   event that arrives is about the selected channel: those two handlers do not filter.
   */
  lemma ViewStaysInChannel(selected: nat, events: seq<Event>)
    requires ChannelsFixed(events)
    ensures (forall p :: p in Fold([], selected, events) ==> p.channel == selected)
            <==> (forall i :: 0 <= i < |events| && (events[i].Updated? || events[i].Deleted?) ==> events[i].post.channel == selected)
  {
    var view, versions := Fold([], selected, events), LastVersions(selected, events);
    FoldShowsLastVersions(selected, events);
    if forall p :: p in view ==> p.channel == selected {
      forall i | 0 <= i < |events| && (events[i].Updated? || events[i].Deleted?)
        ensures events[i].post.channel == selected
      {
        var id := events[i].post.id;
        AcceptedHasVersion(selected, events, i);
        assert versions[id] in view;
        VersionsComeFromEvents(selected, events, id);
        var j :| 0 <= j < |events| && Accepts(selected, events[j]) && events[j].post == versions[id];
        assert events[i].post.channel == events[j].post.channel;
      }
    }
    if forall i :: 0 <= i < |events| && (events[i].Updated? || events[i].Deleted?) ==> events[i].post.channel == selected {
      forall p | p in view ensures p.channel == selected {
        VersionsComeFromEvents(selected, events, p.id);
        var j :| 0 <= j < |events| && Accepts(selected, events[j]) && events[j].post == versions[p.id];
      }
    }
  }

  // -------------------------------------------------- agreement with the server

  /** An edit in channel 1 shows up in the list of channel 0. */
  lemma ForeignEditShows(p: Post)
    requires p.channel == 1
    ensures Fold([], 0, [Updated(p)]) == [p]
    ensures Fold([], 0, [Deleted(p)]) == [p]
    ensures Fold([], 0, [Created(p)]) == [] == Fold([], 0, [ThreadReply(p)])
  {
    assert SortMessages([p]) == [p] by {
      SortOfSorted([p], PostKey);
    }
    assert [] + [p] == [p];
    FoldOne(Updated(p));
    FoldOne(Deleted(p));
    FoldOne(Created(p));
    FoldOne(ThreadReply(p));
  }

  lemma FoldOne(e: Event)
    ensures Fold([], 0, [e]) == Handle([], 0, e)
  {
    assert [e][..0] == [];
    assert Fold([], 0, []) == [];
  }

  /** The channel's rows as they stand, each possibly edited or soft-deleted since its insert. */
  ghost predicate ServerLog(rows: seq<Post>, ms: seq<Message>, c: nat) {
    var log := ChannelLog(ms, c);
    && |rows| == |log|
    && (forall i :: 0 <= i < |rows| ==> rows[i].id == log[i].id && rows[i].sequence == log[i].sequence && rows[i].channel == c)
  }

  /** Once every id's last version has arrived, the view is the server's log of the channel. */
  lemma ViewEqualsServerLog(w: World, c: nat, rows: seq<Post>, events: seq<Event>)
    requires Reachable(w) && ServerLog(rows, w.log.messages, c)
    requires var versions := LastVersions(c, events);
             forall p :: p in rows <==> p.id in versions && versions[p.id] == p
    ensures Fold([], c, events) == rows
  {
    ReachableInv(w);
    var log := ChannelLog(w.log.messages, c);
    assert Numbered(log);
    ServerIdsDistinct(w, c);
    FoldShowsLastVersions(c, events);
    var versions := LastVersions(c, events);
    var view := Fold([], c, events);
    assert DistinctIds(rows);
    assert Shows(rows, versions);
    forall i, j | 0 <= i < j < |rows| ensures KeyLe(PostKey(rows[i]), PostKey(rows[j])) {
      assert rows[i].sequence == i + 1 && rows[j].sequence == j + 1;
    }
    forall a, b | a in versions && b in versions && a != b ensures versions[a].sequence != versions[b].sequence {
      assert versions[a] in rows && versions[b] in rows;
      var i :| 0 <= i < |rows| && rows[i] == versions[a];
      var j :| 0 <= j < |rows| && rows[j] == versions[b];
      assert rows[i].sequence == i + 1 && rows[j].sequence == j + 1;
    }
    ShownOnce(view, rows, versions);
  }

  function Serialize(m: Message): Post {
    Post(m.id, m.input.channel, m.sequence, m.createdAt, m.input.threadId, m.input.parent, m.input.content, false)
  }

  function SerializedLog(log: seq<Message>): seq<Post> {
    seq(|log|, i requires 0 <= i < |log| => Serialize(log[i]))
  }

  /** The event carries a message of the log. */
  ghost predicate Carries(log: seq<Message>, e: Event) {
    e.post in SerializedLog(log)
  }

  ghost predicate Arrives(events: seq<Event>, p: Post) {
    exists k {:trigger events[k]} :: 0 <= k < |events| && events[k].post == p
  }

  /** The stream brings every message of the log at least once, and nothing else, in any order. */
  ghost predicate DeliversAll(log: seq<Message>, events: seq<Event>) {
    && (forall k {:trigger events[k]} :: 0 <= k < |events| ==> Carries(log, events[k]))
    && (forall p {:trigger Arrives(events, p)} :: p in SerializedLog(log) ==> Arrives(events, p))
  }

  lemma VersionIsRow(log: seq<Message>, events: seq<Event>, c: nat, id: nat)
    requires DeliversAll(log, events) && id in LastVersions(c, events)
    ensures LastVersions(c, events)[id] in SerializedLog(log) && LastVersions(c, events)[id].id == id
  {
    VersionsComeFromEvents(c, events, id);
    FoldShowsLastVersions(c, events);
    var p := LastVersions(c, events)[id];
    var k :| 0 <= k < |events| && Accepts(c, events[k]) && events[k].post == p;
    assert Carries(log, events[k]);
  }

  lemma RowsAreDistinct(w: World, c: nat, p: Post, q: Post)
    requires Reachable(w)
    requires var rows := SerializedLog(ChannelLog(w.log.messages, c)); p in rows && q in rows && p.id == q.id
    ensures p == q
  {
    var log := ChannelLog(w.log.messages, c);
    ServerIdsDistinct(w, c);
    var i: nat :| i < |log| && SerializedLog(log)[i] == p;
    var j: nat :| j < |log| && SerializedLog(log)[j] == q;
    assert i == j;
  }

  lemma RowArrived(w: World, c: nat, events: seq<Event>, p: Post)
    requires Reachable(w) && DeliversAll(ChannelLog(w.log.messages, c), events)
    requires p in SerializedLog(ChannelLog(w.log.messages, c))
    ensures p.id in LastVersions(c, events) && LastVersions(c, events)[p.id] == p
  {
    var log := ChannelLog(w.log.messages, c);
    ChannelLogMembers(w.log.messages, c);
    var i: nat :| i < |log| && SerializedLog(log)[i] == p;
    assert log[i] in log && p.channel == c;
    assert Arrives(events, p);
    var k :| 0 <= k < |events| && events[k].post == p;
    AcceptedHasVersion(c, events, k);
    VersionIsRow(log, events, c, p.id);
    RowsAreDistinct(w, c, p, LastVersions(c, events)[p.id]);
  }

  lemma SerializedIsServerLog(ms: seq<Message>, c: nat)
    ensures ServerLog(SerializedLog(ChannelLog(ms, c)), ms, c)
  {
    var log := ChannelLog(ms, c);
    ChannelLogMembers(ms, c);
    forall i | 0 <= i < |log|
      ensures log[i].input.channel == c
    {
      assert log[i] in log;
    }
  }

  /** However the messages of an unedited log are shuffled and repeated on their way, the view is that log. */
  lemma ShuffledDelivery(w: World, c: nat, events: seq<Event>)
    requires Reachable(w) && DeliversAll(ChannelLog(w.log.messages, c), events)
    ensures Fold([], c, events) == SerializedLog(ChannelLog(w.log.messages, c))
  {
    var log := ChannelLog(w.log.messages, c);
    var rows, versions := SerializedLog(log), LastVersions(c, events);
    SerializedIsServerLog(w.log.messages, c);
    forall p
      ensures p in rows <==> p.id in versions && versions[p.id] == p
    {
      if p in rows {
        RowArrived(w, c, events, p);
      } else if p.id in versions {
        VersionIsRow(log, events, c, p.id);
      }
    }
    ViewEqualsServerLog(w, c, rows, events);
  }

  lemma ServerIdsDistinct(w: World, c: nat)
    requires Reachable(w)
    ensures var log := ChannelLog(w.log.messages, c);
            forall i, j :: 0 <= i < j < |log| ==> log[i].id != log[j].id
  {
    ReachableInv(w);
    var log := ChannelLog(w.log.messages, c);
    ChannelLogMembers(w.log.messages, c);
    assert Numbered(log);
    forall i, j | 0 <= i < j < |log| ensures log[i].id != log[j].id {
      assert log[i] in log && log[j] in log;
      assert log[i].sequence != log[j].sequence;
      if log[i].id == log[j].id {
        SameId(w, log[i], log[j]);
      }
    }
  }

  // ------------------------------------------------------- timeline and replies

  function Timeline(messages: seq<Post>): seq<Post> {
    if messages == [] then []
    else
      var rest, last := Timeline(messages[..|messages| - 1]), messages[|messages| - 1];
      if last.parent.None? && last.threadId.None? then rest + [last] else rest
  }

  /** The messages shown in a thread. */
  function Replies(messages: seq<Post>, thread: nat): seq<Post> {
    if messages == [] then []
    else
      var rest, last := Replies(messages[..|messages| - 1], thread), messages[|messages| - 1];
      if last.threadId == Some(thread) then rest + [last] else rest
  }

  /** The reduce accumulator after all messages. */
  function CountReplies(messages: seq<Post>): map<nat, nat> {
    if messages == [] then map[]
    else
      var counts, last := CountReplies(messages[..|messages| - 1]), messages[|messages| - 1];
      match last.parent
      case None => counts
      case Some(root) => counts[root := CountOf(counts, root) + 1]
  }

  function CountOf(counts: map<nat, nat>, root: nat): nat {
    if root in counts then counts[root] else 0
  }

  /** threadReplyCounts: a map updated message by message. */
  method ThreadReplyCounts(messages: seq<Post>) returns (counts: map<nat, nat>)
    ensures counts == CountReplies(messages)
    ensures forall root :: CountOf(counts, root) == |RepliesTo(messages, root)|
  {
    counts := map[];
    for i := 0 to |messages|
      invariant counts == CountReplies(messages[..i])
    {
      assert messages[..i + 1][..i] == messages[..i];
      match messages[i].parent {
        case None =>
        case Some(root) => counts := counts[root := CountOf(counts, root) + 1];
      }
    }
    assert messages[..|messages|] == messages;
    forall root ensures CountOf(counts, root) == |RepliesTo(messages, root)| {
      CountIsReplies(messages, root);
    }
  }

  function RepliesTo(messages: seq<Post>, root: nat): seq<Post> {
    if messages == [] then []
    else
      var rest, last := RepliesTo(messages[..|messages| - 1], root), messages[|messages| - 1];
      if last.parent == Some(root) then rest + [last] else rest
  }

  lemma {:induction false} CountIsReplies(messages: seq<Post>, root: nat)
    ensures CountOf(CountReplies(messages), root) == |RepliesTo(messages, root)|
  {
    if messages != [] {
      CountIsReplies(messages[..|messages| - 1], root);
    }
  }

  /** The counts of the listed roots, added up. */
  function SumAlong(counts: map<nat, nat>, roots: seq<nat>): nat {
    if roots == [] then 0 else CountOf(counts, roots[0]) + SumAlong(counts, roots[1..])
  }

  lemma {:induction false} SumAlongAdd(counts: map<nat, nat>, roots: seq<nat>, root: nat)
    requires forall i, j :: 0 <= i < j < |roots| ==> roots[i] != roots[j]
    ensures SumAlong(counts[root := CountOf(counts, root) + 1], roots) ==
            SumAlong(counts, roots) + if root in roots then 1 else 0
    decreases |roots|
  {
    if roots != [] {
      SumAlongAdd(counts, roots[1..], root);
      assert root in roots <==> root == roots[0] || root in roots[1..];
    }
  }

  lemma {:induction false} SumOfNothing(roots: seq<nat>)
    ensures SumAlong(map[], roots) == 0
    decreases |roots|
  {
    if roots != [] {
      SumOfNothing(roots[1..]);
    }
  }

  ghost predicate WellFormed(messages: seq<Post>) {
    forall p :: p in messages ==> (p.parent.Some? <==> p.threadId.Some?)
  }

  /** Timeline plus the counts of all roots account for every message exactly once. */
  lemma {:induction false} EveryMessageShownOnce(messages: seq<Post>, roots: seq<nat>)
    requires WellFormed(messages)
    requires forall i, j :: 0 <= i < j < |roots| ==> roots[i] != roots[j]
    requires forall p :: p in messages && p.parent.Some? ==> p.parent.value in roots
    ensures |Timeline(messages)| + SumAlong(CountReplies(messages), roots) == |messages|
    decreases |messages|
  {
    if messages == [] {
      SumOfNothing(roots);
    } else {
      var front, last := messages[..|messages| - 1], messages[|messages| - 1];
      EveryMessageShownOnce(front, roots);
      assert last in messages;
      if last.parent.Some? {
        SumAlongAdd(CountReplies(front), roots, last.parent.value);
      }
    }
  }

  /** The count on a root is the number of messages its thread shows. */
  lemma {:induction false} CountMatchesThread(messages: seq<Post>, root: nat, thread: nat)
    requires forall p :: p in messages ==> (p.parent == Some(root) <==> p.threadId == Some(thread))
    ensures CountOf(CountReplies(messages), root) == |Replies(messages, thread)|
  {
    if messages != [] {
      CountMatchesThread(messages[..|messages| - 1], root, thread);
      assert messages[|messages| - 1] in messages;
    }
  }

  /** The timeline is the list's messages without parent and thread, each where it stands, in the list's order. */
  lemma {:induction false} TimelineSelects(messages: seq<Post>) returns (at: seq<nat>)
    ensures IsSelection(messages, Timeline(messages), (p: Post) => p.parent.None? && p.threadId.None?, at)
  {
    at := [];
    if messages != [] {
      var front, last := messages[..|messages| - 1], messages[|messages| - 1];
      at := TimelineSelects(front);
      SelectNext(front, last, Timeline(front), (p: Post) => p.parent.None? && p.threadId.None?, at);
      assert messages == front + [last];
      if last.parent.None? && last.threadId.None? {
        at := at + [|front|];
      }
    }
  }

  /** A thread lists the messages with its id, and a root's count is over those with it as parent, in the list's order. */
  lemma {:induction false} RepliesSelect(messages: seq<Post>, thread: nat, root: nat) returns (at: seq<nat>, to: seq<nat>)
    ensures IsSelection(messages, Replies(messages, thread), (p: Post) => p.threadId == Some(thread), at)
    ensures IsSelection(messages, RepliesTo(messages, root), (p: Post) => p.parent == Some(root), to)
  {
    at, to := [], [];
    if messages != [] {
      var front, last := messages[..|messages| - 1], messages[|messages| - 1];
      at, to := RepliesSelect(front, thread, root);
      SelectNext(front, last, Replies(front, thread), (p: Post) => p.threadId == Some(thread), at);
      SelectNext(front, last, RepliesTo(front, root), (p: Post) => p.parent == Some(root), to);
      assert messages == front + [last];
      if last.threadId == Some(thread) {
        at := at + [|front|];
      }
      if last.parent == Some(root) {
        to := to + [|front|];
      }
    }
  }

  /** Timeline and thread of a sorted list need no sorting. */
  lemma ShownSorted(messages: seq<Post>, thread: nat)
    requires SortedBy(messages, PostKey)
    ensures SortMessages(Replies(messages, thread)) == Replies(messages, thread) && SortedBy(Timeline(messages), PostKey)
  {
    var at := TimelineSelects(messages);
    SelectionStaysSorted(messages, Timeline(messages), (p: Post) => p.parent.None? && p.threadId.None?, at, PostKey);
    var listed, _ := RepliesSelect(messages, thread, 0);
    SelectionStaysSorted(messages, Replies(messages, thread), (p: Post) => p.threadId == Some(thread), listed, PostKey);
    SortOfSorted(Replies(messages, thread), PostKey);
  }

  /** The replies to all the roots together. */
  function AllReplies(messages: seq<Post>, roots: seq<nat>): multiset<Post> {
    if roots == [] then multiset{} else multiset(RepliesTo(messages, roots[0])) + AllReplies(messages, roots[1..])
  }

  lemma {:induction false} AllRepliesNext(front: seq<Post>, last: Post, roots: seq<nat>)
    requires forall i, j :: 0 <= i < j < |roots| ==> roots[i] != roots[j]
    ensures AllReplies(front + [last], roots) ==
            AllReplies(front, roots) + if last.parent.Some? && last.parent.value in roots then multiset{last} else multiset{}
    decreases |roots|
  {
    if roots != [] {
      AllRepliesNext(front, last, roots[1..]);
      assert (front + [last])[..|front|] == front;
    }
  }

  lemma {:induction false} NoReplies(roots: seq<nat>)
    ensures AllReplies([], roots) == multiset{}
    decreases |roots|
  {
    if roots != [] {
      NoReplies(roots[1..]);
    }
  }

  /** The timeline and the replies to the roots are the list's messages, each as often as it is in the list. */
  lemma {:induction false} NothingLostNothingTwice(messages: seq<Post>, roots: seq<nat>)
    requires WellFormed(messages)
    requires forall i, j :: 0 <= i < j < |roots| ==> roots[i] != roots[j]
    requires forall p :: p in messages && p.parent.Some? ==> p.parent.value in roots
    ensures multiset(Timeline(messages)) + AllReplies(messages, roots) == multiset(messages)
    decreases |messages|
  {
    if messages == [] {
      NoReplies(roots);
    } else {
      var front, last := messages[..|messages| - 1], messages[|messages| - 1];
      assert messages == front + [last] && last in messages;
      NothingLostNothingTwice(front, roots);
      AllRepliesNext(front, last, roots);
      TimelineNext(front, last);
    }
  }

  lemma TimelineNext(front: seq<Post>, last: Post)
    requires last.parent.Some? <==> last.threadId.Some?
    ensures multiset(Timeline(front + [last])) ==
            multiset(Timeline(front)) + if last.parent.Some? then multiset{} else multiset{last}
  {
    assert (front + [last])[..|front|] == front;
  }

  predicate IsShown(p: Post, m: Message, c: nat, i: nat) {
    p.content == m.input.content && p.id == m.id && p.channel == c && p.sequence == i + 1 &&
    p.createdAt == m.createdAt && p.threadId == m.input.threadId && p.parent == m.input.parent && !p.deleted
  }

  /** What is shown of a stored message is what was stored; a thread of the log lists the messages of that thread. */
  lemma ShownAsStored(w: World, c: nat, thread: nat)
    requires Reachable(w)
    ensures var log := ChannelLog(w.log.messages, c);
            var shown := SerializedLog(log);
            |shown| == |log| &&
            (forall i :: 0 <= i < |log| ==> IsShown(shown[i], log[i], c, i)) &&
            forall p :: p in Replies(shown, thread) <==> p in shown && p.threadId == Some(thread)
  {
    ReachableInv(w);
    var log := ChannelLog(w.log.messages, c);
    ChannelLogMembers(w.log.messages, c);
    assert Numbered(log);
    forall i | 0 <= i < |log|
      ensures log[i].input.channel == c
    {
      assert log[i] in log;
    }
    SelectedMembers(SerializedLog(log), thread);
  }

  lemma SelectedMembers(messages: seq<Post>, thread: nat)
    ensures forall p :: p in Replies(messages, thread) <==> p in messages && p.threadId == Some(thread)
  {
    var at, _ := RepliesSelect(messages, thread, 0);
    forall p | p in messages && p.threadId == Some(thread)
      ensures p in Replies(messages, thread)
    {
      var i: nat :| i < |messages| && messages[i] == p;
      var k :| 0 <= k < |at| && at[k] == i;
      assert Replies(messages, thread)[k] == p;
    }
    forall p | p in Replies(messages, thread)
      ensures p in messages && p.threadId == Some(thread)
    {
      var k :| 0 <= k < |at| && Replies(messages, thread)[k] == p;
      assert messages[at[k]] == p;
    }
  }

  /** Every list of stored messages meets both conditions, for every thread of the database. */
  lemma StoredPostsAreWellFormed(w: World, messages: seq<Post>, t: Thread)
    requires Reachable(w) && t in w.threads
    requires forall p :: p in messages ==> exists m :: m in w.log.messages && p.parent == m.input.parent && p.threadId == m.input.threadId
    ensures WellFormed(messages)
    ensures forall p :: p in messages ==> (p.parent == Some(t.root) <==> p.threadId == Some(t.id))
  {
    forall p | p in messages
      ensures (p.parent.Some? <==> p.threadId.Some?) && (p.parent == Some(t.root) <==> p.threadId == Some(t.id))
    {
      var m :| m in w.log.messages && p.parent == m.input.parent && p.threadId == m.input.threadId;
      ForestHasDepthOne(w, m);
      ReachableInv(w);
      var i :| 0 <= i < |w.threads| && w.threads[i] == t;
      if m.input.threadId.Some? {
        var j :| 0 <= j < |w.threads| && w.threads[j] == Thread(m.input.threadId.value, m.input.channel, m.input.parent.value);
      }
    }
  }
}
