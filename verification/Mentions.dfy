/**
 Mentions as printer and parser: the client finds the context before the caret and inserts
 a handle; the server later parses handles out of the text and notifies their owners.
 */
module Mentions {
  import opened Prelude
  import opened Text

  const MAX_HANDLE := 64

  // ---------------------------------------------------------------- characters

  predicate IsWord(c: char) {
    'a' <= c <= 'z' || 'A' <= c <= 'Z' || '0' <= c <= '9' || c == '_'
  }

  /** [a-zA-Z0-9._-] */
  predicate IsHandleChar(c: char) {
    IsWord(c) || c == '.' || c == '-'
  }

  predicate IsHandleText(s: string) {
    forall i :: 0 <= i < |s| ==> IsHandleChar(s[i])
  }

  predicate WordAt(s: string, i: int) {
    0 <= i < |s| && IsWord(s[i])
  }

  /** `\b` at position i. */
  predicate Boundary(s: string, i: int) {
    WordAt(s, i - 1) != WordAt(s, i)
  }

  /** Length of the longest run of handle characters from h on. */
  function Run(s: string, h: nat): (n: nat)
    ensures h <= |s| ==> h + n <= |s|
    decreases |s| - h
  {
    if h < |s| && IsHandleChar(s[h]) then 1 + Run(s, h + 1) else 0
  }

  // ------------------------------------------------- the server's parser

  /** A match of /(^|\s)@([a-zA-Z0-9._-]{2,64})\b/; only the captured handle is kept. */
  datatype Match = Match(start: nat, end: nat)

  /** The handle a match captured, lower-cased. */
  function Captured(s: string, m: Match): string
    requires m.start <= m.end <= |s|
  {
    Lower(s[m.start..m.end])
  }

  /** Where the handle would start if the match began at i. */
  function HandleStart(s: string, i: nat): Option<nat> {
    if i == 0 && s != "" && s[0] == '@' then Some(1)
    else if i + 1 < |s| && IsSpace(s[i]) && s[i + 1] == '@' then Some(i + 2)
    else None
  }

  /** Greedy repetition with backtracking: the longest of k, k-1, ..., 2 that ends at a boundary. */
  function Backtrack(s: string, h: nat, k: nat): (end: Option<nat>)
    ensures end.Some? ==> h + 2 <= end.value <= h + k
  {
    if k < 2 then None
    else if Boundary(s, h + k) then Some(h + k)
    else Backtrack(s, h, k - 1)
  }

  function MatchAt(s: string, i: nat): (m: Option<Match>)
    ensures m.Some? ==> i < m.value.start < m.value.end <= |s|
  {
    match HandleStart(s, i)
    case None => None
    case Some(h) =>
      match Backtrack(s, h, Min(MAX_HANDLE, Run(s, h)))
      case None => None
      case Some(end) => Some(Match(h, end))
  }

  /** RegExp.exec with lastIndex: the leftmost match from `last` on. */
  function NextMatch(s: string, last: nat): (m: Option<Match>)
    ensures m.Some? ==> last < m.value.start < m.value.end <= |s|
    decreases |s| - last
  {
    if last >= |s| then None
    else if MatchAt(s, last).Some? then MatchAt(s, last)
    else NextMatch(s, last + 1)
  }

  /** What the scan does at one position: go on to the next one, or take a handle and go on at its end. */
  datatype Scan = Skip | Take(handle: string, end: nat)

  function ScanAt(s: string, i: nat): Scan {
    match MatchAt(s, i)
    case None => Skip
    case Some(m) => Take(Captured(s, m), m.end)
  }

  function Scans(s: string): seq<Scan> {
    seq(|s|, i requires 0 <= i < |s| => ScanAt(s, i))
  }

  /** The handles taken from `last` on; a match ends after its first position. */
  function Taken(scans: seq<Scan>, last: nat): set<string>
    decreases |scans| - last
  {
    if last >= |scans| then {}
    else
      match scans[last]
      case Skip => Taken(scans, last + 1)
      case Take(handle, end) => {handle} + Taken(scans, Max(end, last + 1))
  }

  /** The handles of all matches from `last` on. */
  function Handles(s: string, last: nat): set<string> {
    Taken(Scans(s), last)
  }

  /** Scanning from `last` and jumping to the next match come to the same handles. */
  lemma {:induction false} HandlesFollowMatches(s: string, last: nat)
    ensures var m := NextMatch(s, last);
            Handles(s, last) == if m.None? then {} else {Captured(s, m.value)} + Handles(s, m.value.end)
    decreases |s| - last
  {
    if last < |s| && MatchAt(s, last).None? {
      HandlesFollowMatches(s, last + 1);
    }
  }

  /** extractMentionHandles */
  method ExtractMentionHandles(content: string) returns (handles: set<string>)
    ensures handles == Handles(content, 0)
  {
    handles := {};
    var lastIndex := 0;
    var found := NextMatch(content, 0);
    HandlesFollowMatches(content, 0);
    while found.Some?
      invariant found == NextMatch(content, lastIndex)
      invariant Handles(content, 0) == handles + Handles(content, lastIndex)
      invariant Handles(content, lastIndex) ==
                if found.None? then {} else {Captured(content, found.value)} + Handles(content, found.value.end)
      decreases if found.Some? then |content| - lastIndex + 1 else 0
    {
      handles := handles + {Lower(content[found.value.start..found.value.end])};
      lastIndex := found.value.end;
      found := NextMatch(content, lastIndex);
      HandlesFollowMatches(content, lastIndex);
    }
  }

  // --------------------------------------------- what the parser's matches are

  /** The handle would start at h, behind an '@' at the start of the text or after white space at i. */
  predicate StartsAt(s: string, i: nat, h: nat) {
    (i == 0 && h == 1 && s != "" && s[0] == '@') || (h == i + 2 <= |s| && IsSpace(s[i]) && s[i + 1] == '@')
  }

  /** The handle from h could end at e: 2 to 64 handle characters up to a word boundary. */
  ghost predicate EndsAt(s: string, h: nat, e: nat) {
    h + 2 <= e <= h + MAX_HANDLE && e <= |s| && (forall k :: h <= k < e ==> IsHandleChar(s[k])) && Boundary(s, e)
  }

  lemma {:induction false} RunIsLongest(s: string, h: nat)
    requires h <= |s|
    ensures forall k :: h <= k < h + Run(s, h) ==> IsHandleChar(s[k])
    ensures h + Run(s, h) < |s| ==> !IsHandleChar(s[h + Run(s, h)])
    decreases |s| - h
  {
    if h < |s| && IsHandleChar(s[h]) {
      RunIsLongest(s, h + 1);
    }
  }

  /** Backtracking finds the last boundary at a distance of 2 to k. */
  lemma {:induction false} BacktrackFindsLast(s: string, h: nat, k: nat)
    ensures match Backtrack(s, h, k)
            case Some(e) => h + 2 <= e <= h + k && Boundary(s, e) && forall d {:trigger Boundary(s, d)} :: e < d <= h + k ==> !Boundary(s, d)
            case None => forall d {:trigger Boundary(s, d)} :: h + 2 <= d <= h + k ==> !Boundary(s, d)
  {
    if k >= 2 && !Boundary(s, h + k) {
      BacktrackFindsLast(s, h, k - 1);
    }
  }

  lemma EndsWithinRun(s: string, h: nat, e: nat)
    requires h <= |s|
    ensures EndsAt(s, h, e) <==> h + 2 <= e <= h + Min(MAX_HANDLE, Run(s, h)) && Boundary(s, e)
  {
    RunIsLongest(s, h);
  }

  /**
   The parser matches at i exactly if some handle starts there and can end, and it takes the
   longest such handle.
   */
  lemma MatchIsLongest(s: string, i: nat, h: nat, e: nat)
    ensures MatchAt(s, i) == Some(Match(h, e)) <==>
            StartsAt(s, i, h) && EndsAt(s, h, e) && forall d: nat {:trigger EndsAt(s, h, d)} :: EndsAt(s, h, d) ==> d <= e
    ensures MatchAt(s, i).None? ==> !(StartsAt(s, i, h) && EndsAt(s, h, e))
  {
    assert StartsAt(s, i, h) <==> HandleStart(s, i) == Some(h);
    if HandleStart(s, i) == Some(h) {
      var k := Min(MAX_HANDLE, Run(s, h));
      BacktrackFindsLast(s, h, k);
      EndsWithinRun(s, h, e);
      forall d: nat
        ensures EndsAt(s, h, d) <==> h + 2 <= d <= h + k && Boundary(s, d)
      {
        EndsWithinRun(s, h, d);
      }
    }
  }

  /** No match begins inside another: the handles of the scan are those of all matches there are. */
  lemma {:induction false} AllMatchesAreTaken(s: string, last: nat, i: nat)
    requires last <= i < |s| && MatchAt(s, i).Some?
    ensures Captured(s, MatchAt(s, i).value) in Handles(s, last)
    decreases |s| - last
  {
    var m := MatchAt(s, last);
    if last == i {
      HandlesTake(s, last);
    } else if m.None? {
      HandlesSkip(s, last);
      AllMatchesAreTaken(s, last + 1, i);
    } else {
      HandlesTake(s, last);
      NoMatchInside(s, last, i);
      AllMatchesAreTaken(s, m.value.end, i);
    }
  }

  lemma InsideIsNoSpace(s: string, last: nat, h: nat, e: nat, i: nat)
    requires StartsAt(s, last, h) && EndsAt(s, h, e) && last < i < e
    ensures !IsSpace(s[i])
  {
    assert h <= i ==> IsHandleChar(s[i]);
  }

  lemma NoMatchInside(s: string, last: nat, i: nat)
    requires last < i < |s| && MatchAt(s, last).Some? && MatchAt(s, i).Some?
    ensures MatchAt(s, last).value.end <= i
  {
    var m, n := MatchAt(s, last).value, MatchAt(s, i).value;
    MatchIsLongest(s, last, m.start, m.end);
    MatchIsLongest(s, i, n.start, n.end);
    if i < m.end {
      InsideIsNoSpace(s, last, m.start, m.end, i);
    }
  }

  /** A handle is parsed exactly if some match of the text captures it. */
  lemma HandlesAreAllMatches(s: string, x: string)
    ensures x in Handles(s, 0) <==> exists i: nat {:trigger MatchAt(s, i)} :: i < |s| && MatchAt(s, i).Some? && x == Captured(s, MatchAt(s, i).value)
  {
    if x in Handles(s, 0) {
      var i := HandleHasMatch(s, 0, x);
    }
    if i: nat :| i < |s| && MatchAt(s, i).Some? && x == Captured(s, MatchAt(s, i).value) {
      AllMatchesAreTaken(s, 0, i);
    }
  }

  predicate IsPunctuation(s: string) {
    forall i :: 0 <= i < |s| ==> s[i] == '.' || s[i] == '-'
  }

  /** Full stops and hyphens behind a handle do not hide it. */
  lemma PunctuationIsLeftOut(h: string, dots: string, tail: string)
    requires IsHandleText(h) && Readable(h) && IsPunctuation(dots) && (tail == "" || !IsHandleChar(tail[0]))
    ensures Lower(h) in Handles("@" + h + dots + tail, 0)
  {
    var s, e := "@" + h + dots + tail, 1 + |h|;
    assert forall k :: 1 <= k < e ==> s[k] == h[k - 1];
    assert forall k :: e <= k < e + |dots| ==> s[k] == dots[k - e];
    assert e + |dots| < |s| ==> s[e + |dots|] == tail[0];
    assert EndsAt(s, 1, e);
    forall d: nat | EndsAt(s, 1, d)
      ensures d <= e
    {
      if d > e {
        NoBoundaryInPunctuation(s, e, |dots|, d);
      }
    }
    MatchIsLongest(s, 0, 1, e);
    assert s[1..e] == h;
    HandlesTake(s, 0);
  }

  lemma NoBoundaryInPunctuation(s: string, e: nat, n: nat, d: nat)
    requires e + n <= |s| && (forall k :: e <= k < e + n ==> s[k] == '.' || s[k] == '-')
    requires e + n < |s| ==> !IsHandleChar(s[e + n])
    requires d <= |s| && (forall k :: e <= k < d ==> IsHandleChar(s[k])) && d > e
    ensures !Boundary(s, d)
  {
    assert d <= e + n;
  }

  // --------------------------------------------- the parser splits at whitespace

  lemma {:induction false} RunPrefix(s: string, p: nat, h: nat)
    requires p < |s| && IsSpace(s[p]) && h <= p
    ensures Run(s, h) == Run(s[..p], h)
    decreases p - h
  {
    if h < p && IsHandleChar(s[h]) {
      RunPrefix(s, p, h + 1);
    }
  }

  lemma {:induction false} BacktrackPrefix(s: string, p: nat, h: nat, k: nat)
    requires p < |s| && IsSpace(s[p]) && h + k <= p
    ensures Backtrack(s, h, k) == Backtrack(s[..p], h, k)
  {
    if k >= 2 {
      BacktrackPrefix(s, p, h, k - 1);
    }
  }

  /** Before a space the rest of the text does not matter. */
  lemma MatchPrefix(s: string, p: nat, i: nat)
    requires p < |s| && IsSpace(s[p]) && i < p
    ensures MatchAt(s, i) == MatchAt(s[..p], i)
  {
    assert HandleStart(s, i) == HandleStart(s[..p], i);
    if HandleStart(s, i).Some? {
      var h := HandleStart(s, i).value;
      RunPrefix(s, p, h);
      BacktrackPrefix(s, p, h, Min(MAX_HANDLE, Run(s, h)));
    }
  }

  lemma HandlesSkip(s: string, last: nat)
    requires last < |s| && MatchAt(s, last).None?
    ensures Handles(s, last) == Handles(s, last + 1)
  {
  }

  lemma HandlesTake(s: string, last: nat)
    requires last < |s| && MatchAt(s, last).Some?
    ensures var m := MatchAt(s, last).value;
            Handles(s, last) == {Captured(s, m)} + Handles(s, m.end)
  {
  }

  lemma HandlesDone(s: string, last: nat)
    requires last >= |s|
    ensures Handles(s, last) == {}
  {
  }

  lemma {:induction false} TakenUpTo(a: seq<Scan>, p: nat, last: nat)
    requires last <= p <= |a|
    requires forall i :: 0 <= i < p && a[i].Take? ==> a[i].end <= p
    ensures Taken(a, last) == Taken(a[..p], last) + Taken(a, p)
    decreases p - last
  {
    if last < p {
      TakenUpTo(a, p, if a[last].Skip? then last + 1 else Max(a[last].end, last + 1));
    }
  }

  lemma ScanPrefix(s: string, p: nat, i: nat)
    requires i < p < |s| && IsSpace(s[p])
    ensures ScanAt(s, i) == ScanAt(s[..p], i) && (ScanAt(s, i).Take? ==> ScanAt(s, i).end <= p)
  {
    MatchPrefix(s, p, i);
    var m := MatchAt(s[..p], i);
    if m.Some? {
      assert s[..p][m.value.start..m.value.end] == s[m.value.start..m.value.end];
    }
  }

  /** Scanning from `last` up to a space at p, and then from p. */
  lemma HandlesUpTo(s: string, p: nat, last: nat)
    requires p < |s| && IsSpace(s[p]) && last <= p
    ensures Handles(s, last) == Handles(s[..p], last) + Handles(s, p)
  {
    forall i: nat | i < p
      ensures Scans(s)[i] == Scans(s[..p])[i] && (Scans(s)[i].Take? ==> Scans(s)[i].end <= p)
    {
      ScanPrefix(s, p, i);
    }
    assert Scans(s)[..p] == Scans(s[..p]);
    TakenUpTo(Scans(s), p, last);
  }

  lemma {:induction false} RunShift(s: string, k: nat, h: nat)
    requires k <= |s| && h <= |s| - k
    ensures Run(s, k + h) == Run(s[k..], h)
    decreases |s| - k - h
  {
    if k + h < |s| && IsHandleChar(s[k + h]) {
      RunShift(s, k, h + 1);
    }
  }

  function Shifted(end: Option<nat>, k: nat): Option<nat> {
    if end.None? then None else Some(end.value + k)
  }

  lemma {:induction false} BacktrackShift(s: string, k: nat, h: nat, n: nat)
    requires k <= |s| && h + n <= |s| - k
    ensures Backtrack(s, k + h, n) == Shifted(Backtrack(s[k..], h, n), k)
  {
    if n >= 2 {
      BacktrackShift(s, k, h, n - 1);
    }
  }

  /** Dropping the first k characters moves a match; only a leading '@' sees the start. */
  lemma MatchShift(s: string, k: nat, i: nat)
    requires 0 < k <= |s| && i <= |s| - k && (i > 0 || k == |s| || s[k] != '@')
    ensures MatchAt(s, k + i) == ShiftedMatch(MatchAt(s[k..], i), k)
  {
    var t := s[k..];
    assert HandleStart(s, k + i) == Shifted(HandleStart(t, i), k);
    if HandleStart(t, i).Some? {
      var h := HandleStart(t, i).value;
      RunShift(s, k, h);
      BacktrackShift(s, k, h, Min(MAX_HANDLE, Run(t, h)));
    }
  }

  function ShiftedMatch(m: Option<Match>, k: nat): Option<Match> {
    if m.None? then None else Some(Match(m.value.start + k, m.value.end + k))
  }

  function ShiftedScan(scan: Scan, k: nat): Scan {
    if scan.Skip? then Skip else Take(scan.handle, scan.end + k)
  }

  lemma {:induction false} TakenShift(a: seq<Scan>, k: nat, b: seq<Scan>, i: nat)
    requires |a| == k + |b| && forall j :: i <= j < |b| ==> a[k + j] == ShiftedScan(b[j], k)
    ensures Taken(a, k + i) == Taken(b, i)
    decreases |b| - i
  {
    if i < |b| {
      assert a[k + i] == ShiftedScan(b[i], k);
      TakenShift(a, k, b, if b[i].Skip? then i + 1 else Max(b[i].end, i + 1));
    }
  }

  lemma ScanShift(s: string, k: nat, i: nat)
    requires 0 < k <= |s| && i <= |s| - k && (i > 0 || k == |s| || s[k] != '@')
    ensures ScanAt(s, k + i) == ShiftedScan(ScanAt(s[k..], i), k)
  {
    MatchShift(s, k, i);
    CapturedShift(s, k, MatchAt(s[k..], i));
  }

  lemma CapturedShift(s: string, k: nat, m: Option<Match>)
    requires k <= |s| && (m.Some? ==> m.value.start <= m.value.end <= |s| - k)
    ensures m.Some? ==> Captured(s, Match(m.value.start + k, m.value.end + k)) == Captured(s[k..], m.value)
  {
    if m.Some? {
      assert s[k..][m.value.start..m.value.end] == s[m.value.start + k..m.value.end + k];
    }
  }

  lemma HandlesShift(s: string, k: nat, i: nat)
    requires 0 < k <= |s| && i <= |s| - k && (i > 0 || k == |s| || s[k] != '@')
    ensures Handles(s, k + i) == Handles(s[k..], i)
  {
    var t := s[k..];
    forall j: nat | i <= j < |t|
      ensures Scans(s)[k + j] == ShiftedScan(Scans(t)[j], k)
    {
      ScanShift(s, k, j);
    }
    TakenShift(Scans(s), k, Scans(t), i);
  }

  /** The handles of a text are those before any whitespace character and those from it on. */
  lemma HandlesSplit(s: string, p: nat)
    requires p < |s| && IsSpace(s[p])
    ensures Handles(s, 0) == Handles(s[..p], 0) + Handles(s[p..], 0)
  {
    HandlesUpTo(s, p, 0);
    if p > 0 {
      HandlesShift(s, p, 0);
    } else {
      assert s[0..] == s;
    }
  }

  // ---------------------------------------------------------------- trimming

  lemma LoneSpace(c: char)
    requires IsSpace(c)
    ensures Handles([c], 0) == {}
  {
    assert MatchAt([c], 0).None?;
    HandlesSkip([c], 0);
  }

  /** A space before a leading '@' only moves the match. */
  lemma SpaceBeforeHandle(s: string)
    requires |s| > 1 && IsSpace(s[0]) && s[1] == '@'
    ensures MatchAt(s, 0) == ShiftedMatch(MatchAt(s[1..], 0), 1)
    ensures MatchAt(s, 1).None?
  {
    var t := s[1..];
    RunShift(s, 1, 1);
    BacktrackShift(s, 1, 1, Min(MAX_HANDLE, Run(t, 1)));
  }

  lemma DropSpaceBeforeAt(s: string)
    requires |s| > 1 && IsSpace(s[0]) && s[1] == '@'
    ensures Handles(s, 0) == Handles(s[1..], 0)
  {
    var t := s[1..];
    var m := MatchAt(t, 0);
    SpaceBeforeHandle(s);
    if m.None? {
      HandlesSkip(s, 0);
      HandlesSkip(s, 1);
      HandlesSkip(t, 0);
      HandlesShift(s, 1, 1);
    } else {
      HandlesTake(s, 0);
      HandlesTake(t, 0);
      CapturedShift(s, 1, m);
      HandlesShift(s, 1, m.value.end);
    }
  }

  lemma DropLeadingSpace(s: string)
    requires s != "" && IsSpace(s[0])
    ensures Handles(s, 0) == Handles(s[1..], 0)
  {
    if |s| > 1 && s[1] == '@' {
      DropSpaceBeforeAt(s);
    } else {
      HandlesSkip(s, 0);
      HandlesShift(s, 1, 0);
    }
  }

  lemma {:induction false} TrimStartKeepsHandles(s: string)
    ensures Handles(TrimStart(s), 0) == Handles(s, 0)
  {
    if s != "" && IsSpace(s[0]) {
      DropLeadingSpace(s);
      TrimStartKeepsHandles(s[1..]);
    }
  }

  lemma {:induction false} TrimEndKeepsHandles(s: string)
    ensures Handles(TrimEnd(s), 0) == Handles(s, 0)
  {
    if s != "" && IsSpace(s[|s| - 1]) {
      HandlesSplit(s, |s| - 1);
      assert s[|s| - 1..] == [s[|s| - 1]];
      LoneSpace(s[|s| - 1]);
      TrimEndKeepsHandles(s[..|s| - 1]);
    }
  }

  /** The handles parsed from the raw and from the trimmed content are the same. */
  lemma TrimKeepsHandles(s: string)
    ensures Handles(Trim(s), 0) == Handles(s, 0)
  {
    TrimEndKeepsHandles(TrimStart(s));
    TrimStartKeepsHandles(s);
  }

  // ------------------------------------------------- the context at the caret

  /** What the user has typed after '@', and which part of the text it takes up. */
  datatype Context = Context(query: string, start: nat, end: nat)

  /** Length of the run of handle characters that ends the text. */
  function TailRun(u: string): (n: nat)
    ensures n <= |u|
    ensures forall i :: |u| - n <= i < |u| ==> IsHandleChar(u[i])
    ensures n < |u| ==> !IsHandleChar(u[|u| - n - 1])
  {
    if u != "" && IsHandleChar(u[|u| - 1]) then 1 + TailRun(u[..|u| - 1]) else 0
  }

  /** u ends with a match of /(?:^|\s)@([a-zA-Z0-9._-]{1,64})$/ that captures n characters. */
  ghost predicate EndsInContext(u: string, n: nat) {
    1 <= n <= MAX_HANDLE && n < |u| && IsHandleText(u[|u| - n..]) && u[|u| - n - 1] == '@' &&
    (n + 1 == |u| || IsSpace(u[|u| - n - 2]))
  }

  function SafeCaret(content: string, caret: int): (c: nat)
    ensures c <= |content| && (0 <= caret <= |content| ==> c == caret) && (caret < 0 ==> c == 0)
    ensures caret > |content| ==> c == |content|
  {
    Max(0, Min(caret, |content|))
  }

  /** extractMentionContext */
  function ExtractMentionContext(content: string, caret: int): (c: Option<Context>)
    ensures c.Some? ==> c.value.start < c.value.end == SafeCaret(content, caret)
  {
    var safe := SafeCaret(content, caret);
    var u := content[..safe];
    var n := TailRun(u);
    if 1 <= n <= MAX_HANDLE && n < safe && u[safe - n - 1] == '@' && (n + 1 == safe || IsSpace(u[safe - n - 2])) then
      Some(Context(u[safe - n..], safe - n - 1, safe))
    else
      None
  }

  /** There is a context exactly when the text up to the caret matches, and it is the one match there is. */
  lemma ContextIsTheMatch(content: string, caret: int, n: nat)
    ensures var u := content[..SafeCaret(content, caret)];
            EndsInContext(u, n) <==>
            ExtractMentionContext(content, caret) == Some(Context(u[Max(0, |u| - n)..], Max(0, |u| - n - 1), |u|)) &&
            0 < n < |u|
  {
    var u := content[..SafeCaret(content, caret)];
    var k := TailRun(u);
    if EndsInContext(u, n) {
      assert forall i :: |u| - n <= i < |u| ==> u[i] == u[|u| - n..][i - (|u| - n)];
      assert n == k;
    } else if ExtractMentionContext(content, caret).Some? && n == k {
      assert IsHandleText(u[|u| - k..]);
    }
  }

  datatype Inserted = Inserted(content: string, caret: nat)

  /** insertMention: slices clamp as in JavaScript. */
  function InsertMention(content: string, mention: Context, handle: string): Inserted {
    var replacement := "@" + handle + " ";
    var before, after := content[..Min(mention.start, |content|)], content[Min(mention.end, |content|)..];
    Inserted(before + replacement + after, mention.start + |replacement|)
  }

  // ------------------------------------------------------ building a handle

  /** replace(/\s+/g, '-') */
  function HyphenateSpaces(s: string): string
    decreases |s|
  {
    if s == "" then ""
    else if IsSpace(s[0]) then "-" + HyphenateSpaces(TrimStart(s[1..]))
    else [s[0]] + HyphenateSpaces(s[1..])
  }

  predicate IsPlainChar(c: char) {
    'a' <= c <= 'z' || '0' <= c <= '9' || c == '.' || c == '_' || c == '-'
  }

  /** replace(/[^a-z0-9._-]/g, '') */
  function KeepPlain(s: string): (t: string)
    ensures forall i :: 0 <= i < |t| ==> IsPlainChar(t[i])
  {
    if s == "" then ""
    else if IsPlainChar(s[0]) then [s[0]] + KeepPlain(s[1..])
    else KeepPlain(s[1..])
  }

  /** buildMentionHandle, in the service and in the client */
  function BuildMentionHandle(displayName: string, email: string): (h: string)
    ensures |h| >= 2 && forall i :: 0 <= i < |h| ==> IsPlainChar(h[i])
  {
    var name := KeepPlain(HyphenateSpaces(Lower(Trim(displayName))));
    var local := KeepPlain(Lower(Trim(UpTo(email, '@'))));
    if |name| >= 2 then name else if |local| >= 2 then local else "user"
  }

  lemma {:induction false} LowerKeepsPlain(s: string)
    requires forall i :: 0 <= i < |s| ==> IsPlainChar(s[i])
    ensures Lower(s) == s
  {
    if s != "" {
      LowerKeepsPlain(s[1..]);
    }
  }

  lemma {:induction false} KeepPlainKeeps(s: string)
    requires forall i :: 0 <= i < |s| ==> IsPlainChar(s[i])
    ensures KeepPlain(s) == s && HyphenateSpaces(s) == s && TrimStart(s) == s && TrimEnd(s) == s
  {
    if s != "" {
      KeepPlainKeeps(s[1..]);
    }
  }

  /** A handle taken as a display name builds itself again. */
  lemma HandlesAreStable(displayName: string, email: string, other: string)
    ensures var h := BuildMentionHandle(displayName, email); BuildMentionHandle(h, other) == h
  {
    var h := BuildMentionHandle(displayName, email);
    KeepPlainKeeps(h);
    LowerKeepsPlain(h);
  }

  /** The plain characters of a text, lower-cased. */
  function PlainOf(s: string): string {
    if s == "" then ""
    else if IsPlainChar(LowerChar(s[0])) then [LowerChar(s[0])] + PlainOf(s[1..])
    else PlainOf(s[1..])
  }

  /** Words with white space between them, in any amount. */
  function Joined(words: seq<string>, gaps: seq<string>): string
    requires |words| <= |gaps| + 1
  {
    if words == [] then ""
    else if |words| == 1 then words[0]
    else words[0] + (gaps[0] + Joined(words[1..], gaps[1..]))
  }

  /** The plain part of each word, with hyphens between them. */
  function Hyphened(words: seq<string>): string {
    if words == [] then ""
    else if |words| == 1 then PlainOf(words[0])
    else PlainOf(words[0]) + ("-" + Hyphened(words[1..]))
  }

  ghost predicate IsGap(gap: string) {
    gap != "" && forall i :: 0 <= i < |gap| ==> IsSpace(gap[i])
  }

  ghost predicate Spelled(words: seq<string>, gaps: seq<string>) {
    && (if words == [] then gaps == [] else |words| == |gaps| + 1)
    && (forall i :: 0 <= i < |words| ==> words[i] != "" && Spaceless(words[i]))
    && (forall i :: 0 <= i < |gaps| ==> IsGap(gaps[i]))
  }

  function NamePart(s: string): string {
    KeepPlain(HyphenateSpaces(Lower(s)))
  }

  lemma {:induction false} GapIsTrimmed(gap: string, rest: string)
    requires gap == "" || IsGap(gap)
    requires rest != "" && !IsSpace(rest[0])
    ensures TrimStart(gap + rest) == rest
  {
    if gap == "" {
      assert gap + rest == rest;
    } else {
      assert (gap + rest)[1..] == gap[1..] + rest;
      GapIsTrimmed(gap[1..], rest);
    }
  }

  lemma OneMore(c: char, x: string)
    ensures KeepPlain([c] + x) == (if IsPlainChar(c) then [c] + KeepPlain(x) else KeepPlain(x))
    ensures !IsSpace(c) ==> HyphenateSpaces([c] + x) == [c] + HyphenateSpaces(x)
    ensures IsSpace(c) ==> HyphenateSpaces([c] + x) == "-" + HyphenateSpaces(TrimStart(x))
  {
    assert ([c] + x)[1..] == x;
  }

  lemma {:induction false} WordThenRest(word: string, rest: string)
    requires Spaceless(word)
    ensures NamePart(word + rest) == PlainOf(word) + NamePart(rest)
  {
    if word == "" {
      assert word + rest == rest;
    } else {
      assert (word + rest)[1..] == word[1..] + rest;
      WordThenRest(word[1..], rest);
      var c, x := LowerChar(word[0]), Lower(word[1..] + rest);
      assert Lower(word + rest) == [c] + x;
      OneMore(c, x);
      OneMore(c, HyphenateSpaces(x));
    }
  }

  lemma GapThenRest(gap: string, rest: string)
    requires IsGap(gap) && rest != "" && !IsSpace(rest[0])
    ensures NamePart(gap + rest) == "-" + NamePart(rest)
  {
    assert gap + rest == [gap[0]] + (gap[1..] + rest);
    LowerConcat(gap[1..], rest);
    var x := Lower(gap[1..]) + Lower(rest);
    assert Lower(gap + rest) == [LowerChar(gap[0])] + x;
    GapIsTrimmed(Lower(gap[1..]), Lower(rest));
    OneMore(LowerChar(gap[0]), x);
    OneMore('-', HyphenateSpaces(Lower(rest)));
  }

  lemma {:induction false} WordsArePlain(words: seq<string>, gaps: seq<string>)
    requires Spelled(words, gaps)
    ensures NamePart(Joined(words, gaps)) == Hyphened(words)
  {
    if |words| == 1 {
      WordThenRest(words[0], "");
      assert words[0] + "" == words[0];
    } else if |words| > 1 {
      var rest := Joined(words[1..], gaps[1..]);
      WordThenRest(words[0], gaps[0] + rest);
      assert rest[0] == words[1][0];
      GapThenRest(gaps[0], rest);
      WordsArePlain(words[1..], gaps[1..]);
    }
  }

  function WordEnd(t: string): (n: nat)
    ensures n <= |t| && Spaceless(t[..n]) && (n < |t| ==> IsSpace(t[n]))
  {
    if t == "" || IsSpace(t[0]) then 0
    else
      var n := WordEnd(t[1..]) + 1;
      assert t[..n] == [t[0]] + t[1..][..n - 1];
      n
  }

  function GapEnd(t: string): (n: nat)
    ensures n <= |t| && (forall i :: 0 <= i < n ==> IsSpace(t[i])) && (n < |t| ==> !IsSpace(t[n]))
  {
    if t == "" || !IsSpace(t[0]) then 0 else GapEnd(t[1..]) + 1
  }

  lemma SplitOff(t: string) returns (word: string, gap: string, rest: string)
    requires t != "" && !IsSpace(t[0]) && !IsSpace(t[|t| - 1]) && WordEnd(t) < |t|
    ensures t == word + (gap + rest) && word != "" && Spaceless(word) && IsGap(gap) && |rest| < |t|
    ensures rest != "" && !IsSpace(rest[0]) && !IsSpace(rest[|rest| - 1])
  {
    var n := WordEnd(t);
    var tail := t[n..];
    assert tail[|tail| - 1] == t[|t| - 1];
    var g := GapEnd(tail);
    word, gap, rest := t[..n], tail[..g], tail[g..];
  }

  /** Every trimmed text is words with white space between them. */
  lemma {:induction false} EveryNameHasWords(t: string) returns (words: seq<string>, gaps: seq<string>)
    requires t != "" ==> !IsSpace(t[0]) && !IsSpace(t[|t| - 1])
    ensures Spelled(words, gaps) && Joined(words, gaps) == t && (t == "" <==> words == [])
    decreases |t|
  {
    if t == "" {
      words, gaps := [], [];
    } else if WordEnd(t) == |t| {
      words, gaps := [t], [];
      assert t[..|t|] == t;
    } else {
      var word, gap, rest := SplitOff(t);
      var ws, gs := EveryNameHasWords(rest);
      words, gaps := [word] + ws, [gap] + gs;
      assert words[1..] == ws && gaps[1..] == gs;
    }
  }

  lemma {:induction false} PlainIsKept(s: string)
    ensures KeepPlain(Lower(s)) == PlainOf(s)
  {
    if s != "" {
      PlainIsKept(s[1..]);
      OneMore(LowerChar(s[0]), Lower(s[1..]));
    }
  }

  lemma {:induction false} PlainOfStart(s: string)
    ensures PlainOf(TrimStart(s)) == PlainOf(s)
  {
    if s != "" && IsSpace(s[0]) {
      PlainOfStart(s[1..]);
    }
  }

  lemma {:induction false} PlainOfConcat(a: string, b: string)
    ensures PlainOf(a + b) == PlainOf(a) + PlainOf(b)
  {
    if a == "" {
      assert a + b == b;
    } else {
      assert (a + b)[1..] == a[1..] + b;
      PlainOfConcat(a[1..], b);
    }
  }

  lemma {:induction false} PlainOfEnd(s: string)
    ensures PlainOf(TrimEnd(s)) == PlainOf(s)
  {
    if s != "" && IsSpace(s[|s| - 1]) {
      PlainOfEnd(s[..|s| - 1]);
      PlainOfConcat(s[..|s| - 1], [s[|s| - 1]]);
      assert s == s[..|s| - 1] + [s[|s| - 1]];
    }
  }

  lemma LocalIsPlain(s: string)
    ensures KeepPlain(Lower(Trim(s))) == PlainOf(s)
  {
    PlainIsKept(Trim(s));
    PlainOfEnd(TrimStart(s));
    PlainOfStart(s);
  }

  /**
   The handle of a display name is the plain part of each of its words, lower-cased, joined by
   hyphens, whatever white space there is; every name has such words.
   */
  lemma WordsBecomeHandle(displayName: string, email: string) returns (words: seq<string>, gaps: seq<string>)
    ensures Spelled(words, gaps) && Trim(displayName) == Joined(words, gaps)
    ensures |Hyphened(words)| >= 2 ==> BuildMentionHandle(displayName, email) == Hyphened(words)
    ensures |Hyphened(words)| < 2 ==> BuildMentionHandle(displayName, email) == AddressHandle(email)
  {
    TrimmedEnds(displayName);
    words, gaps := EveryNameHasWords(Trim(displayName));
    WordsArePlain(words, gaps);
    AddressBecomesHandle(displayName, email);
  }

  /** The plain characters of the address before its first '@', lower-cased, or "user" if they are fewer than two. */
  function AddressHandle(email: string): string {
    var local := PlainOf(UpTo(email, '@'));
    if |local| >= 2 then local else "user"
  }

  /** A name that leaves fewer than two characters gives way to the address, whatever either holds. */
  lemma AddressBecomesHandle(displayName: string, email: string)
    ensures |NamePart(Trim(displayName))| < 2 ==> BuildMentionHandle(displayName, email) == AddressHandle(email)
  {
    LocalIsPlain(UpTo(email, '@'));
  }

  // ------------------------------------------------- what the parser reads back

  /** The handles a parser can take up again: at most 64 characters, the last a letter, digit or underscore. */
  predicate Readable(h: string) {
    2 <= |h| <= MAX_HANDLE && IsWord(h[|h| - 1])
  }

  lemma {:induction false} RunOfHandle(s: string, h: nat)
    requires h <= |s| && IsHandleText(s[h..])
    ensures Run(s, h) == |s| - h
    decreases |s| - h
  {
    if h < |s| {
      assert s[h..][0] == s[h];
      assert s[h + 1..] == s[h..][1..];
      RunOfHandle(s, h + 1);
    }
  }

  /** Every parsed handle was captured by a match. */
  lemma {:induction false} HandleHasMatch(s: string, last: nat, x: string) returns (i: nat)
    requires x in Handles(s, last)
    ensures i < |s| && MatchAt(s, i).Some? && x == Captured(s, MatchAt(s, i).value)
    decreases |s| - last
  {
    var m := MatchAt(s, last);
    if m.None? {
      i := HandleHasMatch(s, last + 1, x);
    } else if x == Captured(s, m.value) {
      i := last;
    } else {
      i := HandleHasMatch(s, m.value.end, x);
    }
  }

  lemma MatchOfHandle(h: string)
    requires IsHandleText(h) && |h| >= 2
    ensures MatchAt("@" + h, 0) == Some(Match(1, 1 + |h|)) <==> Readable(h)
  {
    var s := "@" + h;
    assert s[1..] == h;
    RunOfHandle(s, 1);
    assert WordAt(s, |h|) == IsWord(h[|h| - 1]);
  }

  lemma OneMatchInHandle(h: string, i: nat)
    requires IsHandleText(h)
    ensures MatchAt("@" + h, i).Some? ==> i == 0 && MatchAt("@" + h, 0).value.start == 1
  {
    var s := "@" + h;
    assert 0 < i < |s| ==> s[i] == h[i - 1];
  }

  lemma ReadableIsReadBack(h: string)
    requires IsHandleText(h) && Readable(h)
    ensures Handles("@" + h, 0) == {Lower(h)}
  {
    var s := "@" + h;
    MatchOfHandle(h);
    HandlesTake(s, 0);
    HandlesDone(s, |s|);
    assert s[1..|s|] == h;
  }

  lemma CapturedLength(s: string, m: Match)
    requires m.start <= m.end <= |s|
    ensures |Captured(s, m)| == m.end - m.start
  {
  }

  lemma UnreadableIsNot(h: string)
    requires IsHandleText(h) && |h| >= 2 && !Readable(h)
    ensures Lower(h) !in Handles("@" + h, 0)
  {
    MatchOfHandle(h);
    if Lower(h) in Handles("@" + h, 0) {
      var i := HandleHasMatch("@" + h, 0, Lower(h));
      OneMatchInHandle(h, i);
      CapturedLength("@" + h, MatchAt("@" + h, i).value);
    }
  }

  /** A handle written after '@' is read back exactly when it is Readable; the built handle may not be. */
  lemma ReadBackIff(h: string)
    requires IsHandleText(h) && |h| >= 2
    ensures Lower(h) in Handles("@" + h, 0) <==> Readable(h)
    ensures Readable(h) ==> Handles("@" + h, 0) == {Lower(h)}
  {
    if Readable(h) {
      ReadableIsReadBack(h);
    } else {
      UnreadableIsNot(h);
    }
  }

  lemma {:induction false} Repeated(n: nat) returns (h: string)
    ensures |h| == n && forall i :: 0 <= i < n ==> h[i] == 'a'
  {
    h := seq(n, i => 'a');
  }

  /** Names whose handle is never read back: one ends in a full stop, one is too long. */
  lemma UnreadableNames() returns (dotted: string, long: string)
    ensures forall email :: !Readable(BuildMentionHandle(dotted, email)) && !Readable(BuildMentionHandle(long, email))
    ensures dotted == "ab." && |long| == MAX_HANDLE + 1
  {
    dotted := "ab.";
    long := Repeated(MAX_HANDLE + 1);
    PlainNameIsHandle(dotted);
    PlainNameIsHandle(long);
  }

  /** A plain name of two characters or more is its own handle. */
  lemma PlainNameIsHandle(name: string)
    requires |name| >= 2 && forall i :: 0 <= i < |name| ==> IsPlainChar(name[i])
    ensures forall email :: BuildMentionHandle(name, email) == name
  {
    KeepPlainKeeps(name);
    LowerKeepsPlain(name);
  }

  lemma SplitBeforeHandle(pre: string, sp: char, word: string)
    requires IsSpace(sp)
    ensures Handles(pre + [sp] + word, 0) == Handles(pre, 0) + Handles(word, 0)
  {
    var s, p := pre + [sp] + word, |pre|;
    assert s[..p] == pre && s[p..] == [sp] + word && ([sp] + word)[1..] == word;
    HandlesSplit(s, p);
    DropLeadingSpace([sp] + word);
  }

  lemma HandleAfterSpace(pre: string, word: string)
    requires pre == "" || IsSpace(pre[|pre| - 1])
    ensures Handles(pre + word, 0) == Handles(pre, 0) + Handles(word, 0)
  {
    if pre == "" {
      assert pre + word == word;
      HandlesDone(pre, 0);
    } else {
      var front, sp := pre[..|pre| - 1], pre[|pre| - 1];
      assert pre == front + [sp] == front + [sp] + "";
      SplitBeforeHandle(front, sp, word);
      SplitBeforeHandle(front, sp, "");
      HandlesDone("", 0);
    }
  }

  lemma TextAroundContext(content: string, caret: int)
    requires ExtractMentionContext(content, caret).Some?
    ensures var c := ExtractMentionContext(content, caret).value;
            c.end <= |content| && (c.start == 0 || IsSpace(content[..c.start][c.start - 1]))
  {
  }

  /**
   The insertion reads as what stood before the context, the handle, and what stood after the
   caret: nothing on either side changes its meaning, whatever the handle is.
   */
  lemma InsertedHandles(content: string, caret: int, h: string)
    requires ExtractMentionContext(content, caret).Some?
    ensures var c := ExtractMentionContext(content, caret).value;
            Handles(InsertMention(content, c, h).content, 0) ==
            Handles(content[..c.start], 0) + Handles("@" + h, 0) + Handles(content[c.end..], 0)
  {
    var c := ExtractMentionContext(content, caret).value;
    TextAroundContext(content, caret);
    var pre, post := content[..c.start], content[c.end..];
    var s := InsertMention(content, c, h).content;
    assert s == (pre + ("@" + h)) + [' '] + post;
    SplitBeforeHandle(pre + ("@" + h), ' ', post);
    HandleAfterSpace(pre, "@" + h);
  }

  /**
   Round trip: after inserting a built handle the server parses it, from the raw and from the
   trimmed text, exactly when it is Readable or was already mentioned on one of the two sides.
   */
  lemma MentionRoundTrip(content: string, caret: int, displayName: string, email: string)
    requires ExtractMentionContext(content, caret).Some?
    ensures var c := ExtractMentionContext(content, caret).value;
            var h := BuildMentionHandle(displayName, email);
            var text := InsertMention(content, c, h).content;
            (h in Handles(text, 0) <==>
             Readable(h) || h in Handles(content[..c.start], 0) || h in Handles(content[c.end..], 0)) &&
            Handles(content[..c.start], 0) <= Handles(text, 0) &&
            Handles(Trim(text), 0) == Handles(text, 0)
  {
    var c := ExtractMentionContext(content, caret).value;
    var h := BuildMentionHandle(displayName, email);
    InsertedHandles(content, caret, h);
    ReadBackIff(h);
    LowerKeepsPlain(h);
    TrimKeepsHandles(InsertMention(content, c, h).content);
  }

  /** The new caret stands right after the inserted space, and no context is open there. */
  lemma CaretLeavesContext(content: string, caret: int, h: string)
    requires ExtractMentionContext(content, caret).Some?
    ensures var c := ExtractMentionContext(content, caret).value;
            var r := InsertMention(content, c, h);
            r.content[..r.caret] == content[..c.start] + "@" + h + " " &&
            r.content[r.caret..] == content[c.end..] &&
            ExtractMentionContext(r.content, r.caret).None?
  {
    var c := ExtractMentionContext(content, caret).value;
    var r := InsertMention(content, c, h);
    assert r.content == content[..c.start] + ("@" + h + " ") + content[c.end..];
    assert r.content[..r.caret] == content[..c.start] + "@" + h + " ";
    assert r.content[r.caret - 1] == ' ';
  }

  // ------------------------------------------------------------ notifications

  datatype User = User(id: nat, displayName: string, email: string)

  /** A workspace member; the user record may be missing, and only some members are in the channel. */
  datatype Member = Member(user: Option<User>, inChannel: bool)

  predicate Audience(m: Member, isPublic: bool) {
    m.user.Some? && (isPublic || m.inChannel)
  }

  ghost predicate Mentions(m: Member, isPublic: bool, actor: nat, content: string) {
    Audience(m, isPublic) && m.user.value.id != actor &&
    BuildMentionHandle(m.user.value.displayName, m.user.value.email) in Handles(content, 0)
  }

  ghost predicate Notified(members: seq<Member>, isPublic: bool, actor: nat, content: string, id: nat) {
    exists k {:trigger members[k]} :: 0 <= k < |members| && Mentions(members[k], isPublic, actor, content) && members[k].user.value.id == id
  }

  /** emitMentionNotifications: the users for whom a MENTION notification is created. */
  method EmitMentionNotifications(members: seq<Member>, isPublic: bool, actor: nat, content: string)
    returns (mentioned: set<nat>)
    ensures forall id :: id in mentioned <==> Notified(members, isPublic, actor, content, id)
  {
    var handles := ExtractMentionHandles(content);
    mentioned := {};
    if handles == {} {
      return;
    }
    for n := 0 to |members|
      invariant forall id :: id in mentioned <==> Notified(members[..n], isPublic, actor, content, id)
    {
      var member := members[n];
      ghost var before := mentioned;
      if Audience(member, isPublic) && member.user.value.id != actor {
        var handle := BuildMentionHandle(member.user.value.displayName, member.user.value.email);
        if handle in handles {
          mentioned := mentioned + {member.user.value.id};
        }
      }
      OneMoreMember(members, n, isPublic, actor, content);
    }
    assert members[..|members|] == members;
  }

  lemma OneMoreMember(members: seq<Member>, n: nat, isPublic: bool, actor: nat, content: string)
    requires n < |members|
    ensures forall id :: Notified(members[..n + 1], isPublic, actor, content, id) <==>
                         Notified(members[..n], isPublic, actor, content, id) ||
                         (Mentions(members[n], isPublic, actor, content) && members[n].user.value.id == id)
  {
    var all, front := members[..n + 1], members[..n];
    assert all == front + [members[n]] && all[n] == members[n];
    forall id
      ensures Notified(front, isPublic, actor, content, id) ==> Notified(all, isPublic, actor, content, id)
    {
      if Notified(front, isPublic, actor, content, id) {
        var k :| 0 <= k < |front| && Mentions(front[k], isPublic, actor, content) && front[k].user.value.id == id;
        assert all[k] == front[k];
      }
    }
    forall k | 0 <= k < |all| && k != n
      ensures all[k] == front[k]
    {
    }
  }

  /** In a private channel only its members are notified, and the others make no difference; in a public one all are. */
  lemma AudienceIsTheChannel(members: seq<Member>, actor: nat, content: string, id: nat)
    ensures Notified(members, false, actor, content, id) <==>
            exists k {:trigger members[k]} :: 0 <= k < |members| && members[k].inChannel && Mentions(members[k], true, actor, content) && members[k].user.value.id == id
    ensures Notified(members, false, actor, content, id) ==> Notified(members, true, actor, content, id)
  {
  }

  /** End to end: who picks a member from the suggestions and sends the text, trimmed or not, notifies that member. */
  lemma PickedMemberIsNotified(content: string, caret: int, members: seq<Member>, k: nat, isPublic: bool, actor: nat)
    requires ExtractMentionContext(content, caret).Some?
    requires k < |members| && Audience(members[k], isPublic) && members[k].user.value.id != actor
    requires Readable(BuildMentionHandle(members[k].user.value.displayName, members[k].user.value.email))
    ensures var u := members[k].user.value;
            var c := ExtractMentionContext(content, caret).value;
            var text := InsertMention(content, c, BuildMentionHandle(u.displayName, u.email)).content;
            Notified(members, isPublic, actor, text, u.id) && Notified(members, isPublic, actor, Trim(text), u.id)
  {
    var u := members[k].user.value;
    MentionRoundTrip(content, caret, u.displayName, u.email);
  }
}
