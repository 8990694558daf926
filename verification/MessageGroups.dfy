/** Parsing a flat history into groups, one assistant tool-call message with its replies or one
    other message, and the filter that keeps only the groups that may be sent to a model. */
module MessageGroups {
  import opened Messages

  datatype Group = Group(messages: seq<Message>)

  function ExpectedIds(m: Message): set<CallId> {
    set c | c in m.calls && c.id != Missing :: c.id
  }

  predicate OpensGroup(m: Message) {
    m.role.Assistant? && m.calls != []
  }

  /** How many messages at the head of `s` the parser takes as replies, when the ids in `seen`
      have been answered so far. */
  function ReplyRun(ids: set<CallId>, seen: set<CallId>, s: seq<Message>): (n: nat)
    ensures n <= |s|
    decreases |s|
  {
    if s == [] || !s[0].role.Tool? || s[0].replyTo !in ids then 0
    else if ids <= seen + {s[0].replyTo} then 1
    else 1 + ReplyRun(ids, seen + {s[0].replyTo}, s[1..])
  }

  function GroupLength(s: seq<Message>): (n: nat)
    requires s != []
    ensures 1 <= n <= |s|
  {
    if OpensGroup(s[0]) then 1 + ReplyRun(ExpectedIds(s[0]), {}, s[1..]) else 1
  }

  function Groups(s: seq<Message>): seq<Group> {
    if s == [] then [] else [Group(s[..GroupLength(s)])] + Groups(s[GroupLength(s)..])
  }

  function ReplyIds(s: seq<Message>): set<CallId> {
    if s == [] then {}
    else (if s[0].role.Tool? && s[0].replyTo != Missing then {s[0].replyTo} else {}) + ReplyIds(s[1..])
  }

  predicate ValidGroup(g: seq<Message>) {
    g != [] && !g[0].role.Tool?
    && (OpensGroup(g[0]) ==> ExpectedIds(g[0]) != {} && ExpectedIds(g[0]) <= ReplyIds(g[1..]))
  }

  ghost predicate AllValid(gs: seq<Group>) {
    forall i :: 0 <= i < |gs| ==> ValidGroup(gs[i].messages)
  }

  /** Each group parses alone to itself. */
  ghost predicate AllUnits(gs: seq<Group>) {
    forall i :: 0 <= i < |gs| ==> Groups(gs[i].messages) == [gs[i]]
  }

  /** A history that may be sent as it is: its parse holds valid groups only. */
  predicate WellFormed(s: seq<Message>) {
    s == [] || (ValidGroup(s[..GroupLength(s)]) && WellFormed(s[GroupLength(s)..]))
  }

  function Flatten(gs: seq<Group>): seq<Message> {
    if gs == [] then [] else gs[0].messages + Flatten(gs[1..])
  }

  function ValidOnly(gs: seq<Group>): seq<Group> {
    if gs == [] then []
    else (if ValidGroup(gs[0].messages) then [gs[0]] else []) + ValidOnly(gs[1..])
  }

  /** The prompt-safe part of a history. */
  function ValidPrompt(s: seq<Message>): seq<Message> {
    Flatten(ValidOnly(Groups(s)))
  }

  // ----- lists of groups -----

  lemma {:induction false} ReplyIdsMember(s: seq<Message>, id: CallId)
    ensures id in ReplyIds(s) <==> id != Missing && exists k :: 0 <= k < |s| && s[k].role.Tool? && s[k].replyTo == id
  {
    if s != [] {
      ReplyIdsMember(s[1..], id);
      if k :| 0 <= k < |s| && s[k].role.Tool? && s[k].replyTo == id {
        assert k > 0 ==> s[1..][k - 1] == s[k];
      }
    }
  }

  lemma {:induction false} ReplyIdsGrow(s: seq<Message>, n: nat)
    requires n <= |s|
    ensures ReplyIds(s[..n]) <= ReplyIds(s)
  {
    if n > 0 {
      assert s[..n][1..] == s[1..][..n - 1];
      ReplyIdsGrow(s[1..], n - 1);
    }
  }

  lemma {:induction false} FlattenConcat(a: seq<Group>, b: seq<Group>)
    ensures Flatten(a + b) == Flatten(a) + Flatten(b)
  {
    if a == [] {
      assert a + b == b;
    } else {
      assert (a + b)[1..] == a[1..] + b;
      FlattenConcat(a[1..], b);
    }
  }

  lemma {:induction false} ValidOnlyConcat(a: seq<Group>, b: seq<Group>)
    ensures ValidOnly(a + b) == ValidOnly(a) + ValidOnly(b)
  {
    if a == [] {
      assert a + b == b;
    } else {
      ValidOnlyConcat(a[1..], b);
      var h := if ValidGroup(a[0].messages) then [a[0]] else [];
      assert (a + b)[1..] == a[1..] + b;
      assert h + (ValidOnly(a[1..]) + ValidOnly(b)) == (h + ValidOnly(a[1..])) + ValidOnly(b);
    }
  }

  lemma {:induction false} ValidOnlyFacts(gs: seq<Group>)
    ensures AllValid(ValidOnly(gs))
    ensures AllUnits(gs) ==> AllUnits(ValidOnly(gs))
  {
    if gs != [] {
      ValidOnlyFacts(gs[1..]);
      assert AllUnits(gs) ==> AllUnits(gs[1..]);
    }
  }

  lemma {:induction false} ValidOnlyOfValid(gs: seq<Group>)
    requires AllValid(gs)
    ensures ValidOnly(gs) == gs
  {
    if gs != [] {
      ValidOnlyOfValid(gs[1..]);
    }
  }

  lemma {:induction false} ValidOnlySubsequence(gs: seq<Group>)
    ensures IsSubsequence(Flatten(ValidOnly(gs)), Flatten(gs))
    ensures |Flatten(ValidOnly(gs))| <= |Flatten(gs)|
  {
    if gs != [] {
      ValidOnlySubsequence(gs[1..]);
      var rest := Flatten(ValidOnly(gs[1..]));
      if ValidGroup(gs[0].messages) {
        SubsequenceRefl(gs[0].messages);
        SubsequenceConcat(gs[0].messages, gs[0].messages, rest, Flatten(gs[1..]));
        assert ValidOnly(gs)[1..] == ValidOnly(gs[1..]);
      } else {
        SubsequenceConcat([], gs[0].messages, rest, Flatten(gs[1..]));
        assert [] + rest == rest;
        assert ValidOnly(gs) == ValidOnly(gs[1..]);
      }
    }
  }

  // ----- the parse -----

  lemma FlattenCons(g: Group, gs: seq<Group>)
    ensures Flatten([g] + gs) == g.messages + Flatten(gs)
  {
    assert ([g] + gs)[1..] == gs;
  }

  /** Concatenating the groups gives back the list, whatever it holds. */
  lemma {:induction false} GroupsLossless(s: seq<Message>)
    ensures Flatten(Groups(s)) == s
  {
    if s != [] {
      var n := GroupLength(s);
      GroupsLossless(s[n..]);
      FlattenCons(Group(s[..n]), Groups(s[n..]));
    }
  }

  lemma {:induction false} ReplyRunPrefix(ids: set<CallId>, seen: set<CallId>, s: seq<Message>)
    ensures var n := ReplyRun(ids, seen, s); ReplyRun(ids, seen, s[..n]) == n
    decreases |s|
  {
    var n := ReplyRun(ids, seen, s);
    if n > 1 {
      ReplyRunPrefix(ids, seen + {s[0].replyTo}, s[1..]);
      assert s[..n][1..] == s[1..][..n - 1];
    }
  }

  /** The replies taken stay the same when messages are added behind them, provided the run
      stopped early, or answered everything, or what follows is not a tool message. */
  lemma {:induction false} ReplyRunStable(ids: set<CallId>, seen: set<CallId>, s: seq<Message>, t: seq<Message>)
    requires ReplyRun(ids, seen, s) < |s| || t == [] || !t[0].role.Tool?
             || (!(ids <= seen) && ids <= seen + ReplyIds(s))
    ensures ReplyRun(ids, seen, s + t) == ReplyRun(ids, seen, s)
    decreases |s|
  {
    if s == [] {
      assert s + t == t;
    } else if s[0].role.Tool? && s[0].replyTo in ids {
      var seen' := seen + {s[0].replyTo};
      if !(ids <= seen') {
        assert (s + t)[1..] == s[1..] + t;
        ReplyRunStable(ids, seen', s[1..], t);
      }
    }
  }

  lemma GroupIsUnit(s: seq<Message>)
    requires s != []
    ensures var g := s[..GroupLength(s)]; GroupLength(g) == |g| && Groups(g) == [Group(g)]
  {
    var n := GroupLength(s);
    if OpensGroup(s[0]) {
      ReplyRunPrefix(ExpectedIds(s[0]), {}, s[1..]);
      assert s[..n][1..] == s[1..][..n - 1];
    }
    assert s[..n][..n] == s[..n];
    assert Groups(s[..n][n..]) == [];
  }

  /** Every group of a parse parses alone to itself. */
  lemma {:induction false} GroupsAreUnits(s: seq<Message>)
    ensures AllUnits(Groups(s))
  {
    if s != [] {
      GroupIsUnit(s);
      GroupsAreUnits(s[GroupLength(s)..]);
    }
  }

  lemma GroupLengthStable(s: seq<Message>, t: seq<Message>)
    requires s != []
    requires t == [] || !t[0].role.Tool? || ValidGroup(s[..GroupLength(s)])
    ensures GroupLength(s + t) == GroupLength(s)
  {
    if OpensGroup(s[0]) {
      var n := GroupLength(s);
      assert (s + t)[1..] == s[1..] + t;
      assert s[..n][1..] == s[1..][..n - 1];
      ReplyIdsGrow(s[1..], n - 1);
      ReplyRunStable(ExpectedIds(s[0]), {}, s[1..], t);
    }
  }

  lemma FirstGroupStable(s: seq<Message>, t: seq<Message>)
    requires s != [] && GroupLength(s + t) == GroupLength(s)
    ensures Groups(s + t) == [Group(s[..GroupLength(s)])] + Groups(s[GroupLength(s)..] + t)
  {
    var n := GroupLength(s);
    assert (s + t)[..n] == s[..n];
    assert (s + t)[n..] == s[n..] + t;
  }

  lemma AllValidCons(g: Group, gs: seq<Group>)
    ensures AllValid([g] + gs) <==> ValidGroup(g.messages) && AllValid(gs)
  {
    var all := [g] + gs;
    assert all[0] == g && forall i :: 0 <= i < |gs| ==> all[i + 1] == gs[i];
    assert AllValid(all) ==> AllValid(gs) by {
      if AllValid(all) {
        forall i | 0 <= i < |gs| ensures ValidGroup(gs[i].messages) { assert ValidGroup(all[i + 1].messages); }
      }
    }
  }

  lemma {:induction false} WellFormedMeaning(s: seq<Message>)
    ensures WellFormed(s) <==> AllValid(Groups(s))
    decreases |s|
  {
    if s != [] {
      WellFormedMeaning(s[GroupLength(s)..]);
      AllValidCons(Group(s[..GroupLength(s)]), Groups(s[GroupLength(s)..]));
    }
  }

  /** Parsing is compositional at any point that is not followed by a tool message, and behind
      any list that parses into valid groups only. */
  lemma {:induction false} GroupsConcat(s: seq<Message>, t: seq<Message>)
    requires t == [] || !t[0].role.Tool? || WellFormed(s)
    ensures Groups(s + t) == Groups(s) + Groups(t)
    decreases |s|
  {
    if s == [] {
      assert s + t == t;
    } else {
      var n := GroupLength(s);
      GroupsConcat(s[n..], t);
      GroupLengthStable(s, t);
      FirstGroupStable(s, t);
    }
  }

  /** Unique re-parse: any concatenation of valid groups parses back to exactly those groups. */
  lemma {:induction false} UniqueReparse(gs: seq<Group>)
    requires AllValid(gs)
    requires AllUnits(gs)
    ensures Groups(Flatten(gs)) == gs
  {
    if gs != [] {
      assert gs == [gs[0]] + gs[1..];
      UniqueReparse(gs[1..]);
      WellFormedMeaning(gs[0].messages);
      GroupsConcat(gs[0].messages, Flatten(gs[1..]));
    }
  }

  /** Filtering is a projection: its result parses into the surviving groups, so filtering again
      changes nothing. */
  lemma ValidPromptIdempotent(s: seq<Message>)
    ensures Groups(ValidPrompt(s)) == ValidOnly(Groups(s))
    ensures WellFormed(ValidPrompt(s))
    ensures ValidPrompt(ValidPrompt(s)) == ValidPrompt(s)
    ensures IsSubsequence(ValidPrompt(s), s)
  {
    GroupsAreUnits(s);
    ValidOnlyFacts(Groups(s));
    ValidOnlySubsequence(Groups(s));
    UniqueReparse(ValidOnly(Groups(s)));
    ValidOnlyOfValid(ValidOnly(Groups(s)));
    GroupsLossless(s);
    WellFormedMeaning(ValidPrompt(s));
  }

  // ----- what a well-formed list is, without the parser -----

  /** Only tool messages stand strictly between positions `j` and `i`. */
  ghost predicate OnlyRepliesBetween(s: seq<Message>, j: int, i: int)
    requires 0 <= j < i <= |s|
  {
    forall k :: j < k < i ==> s[k].role.Tool?
  }

  ghost predicate Unanswered(s: seq<Message>, from: int, to: int, id: CallId)
    requires 0 <= from <= to <= |s|
  {
    forall k :: from <= k < to ==> s[k].replyTo != id
  }

  /** Some id called by the message at `j` has no reply before position `i` yet. */
  ghost predicate StillWaiting(s: seq<Message>, ids: set<CallId>, j: int, i: int)
    requires 0 <= j < i <= |s|
  {
    exists id :: id in ids && Unanswered(s, j + 1, i, id)
  }

  /** The tool message at `i` answers a call of the message at `j` that is still waiting. */
  ghost predicate Answers(s: seq<Message>, j: int, i: int)
    requires 0 <= i < |s|
  {
    0 <= j < i && s[j].role == Assistant && |s[j].calls| > 0 && OnlyRepliesBetween(s, j, i)
    && s[i].replyTo in ExpectedIds(s[j]) && StillWaiting(s, ExpectedIds(s[j]), j, i)
  }

  ghost predicate Answered(s: seq<Message>, j: int, id: CallId)
    requires 0 <= j < |s|
  {
    exists i :: j < i < |s| && s[i].role.Tool? && s[i].replyTo == id && OnlyRepliesBetween(s, j, i)
  }

  ghost predicate NotOrphan(s: seq<Message>, i: int)
    requires 0 <= i < |s|
  {
    s[i].role.Tool? ==> exists j :: Answers(s, j, i)
  }

  ghost predicate FullyAnswered(s: seq<Message>, j: int)
    requires 0 <= j < |s|
  {
    s[j].role == Assistant && |s[j].calls| > 0 ==>
      ExpectedIds(s[j]) != {} && forall id :: id in ExpectedIds(s[j]) ==> Answered(s, j, id)
  }

  /** No tool reply stands without a waiting call before it, and no call is left unanswered. */
  ghost predicate PromptSafe(s: seq<Message>) {
    && (forall i :: 0 <= i < |s| ==> NotOrphan(s, i))
    && (forall j :: 0 <= j < |s| ==> FullyAnswered(s, j))
  }

  /** `seen` holds exactly the ids answered in positions 1 up to `to`. */
  ghost predicate Tracks(s: seq<Message>, ids: set<CallId>, seen: set<CallId>, to: int)
    requires 1 <= to <= |s|
  {
    forall id :: id in ids ==> (id !in seen <==> Unanswered(s, 1, to, id))
  }

  lemma TracksWaiting(s: seq<Message>, ids: set<CallId>, seen: set<CallId>, to: int)
    requires 1 <= to <= |s| && Tracks(s, ids, seen, to)
    ensures ids <= seen <==> !StillWaiting(s, ids, 0, to)
  {
  }

  lemma TracksNext(s: seq<Message>, ids: set<CallId>, seen: set<CallId>, to: int)
    requires 1 <= to < |s| && Tracks(s, ids, seen, to)
    ensures Tracks(s, ids, seen + {s[to].replyTo}, to + 1)
  {
    forall id | id in ids
      ensures Unanswered(s, 1, to + 1, id) <==> Unanswered(s, 1, to, id) && s[to].replyTo != id
    {
    }
  }

  ghost predicate RunEnds(s: seq<Message>, ids: set<CallId>, to: int)
    requires 1 <= to <= |s|
  {
    !StillWaiting(s, ids, 0, to) || to == |s| || !s[to].role.Tool? || s[to].replyTo !in ids
  }

  /** The position where the run of replies that starts at `from` ends. */
  function RunEnd(ids: set<CallId>, seen: set<CallId>, s: seq<Message>, from: nat): (to: nat)
    requires from <= |s|
    ensures from <= to <= |s|
    decreases |s| - from
  {
    if from == |s| || !s[from].role.Tool? || s[from].replyTo !in ids then from
    else if ids <= seen + {s[from].replyTo} then from + 1
    else RunEnd(ids, seen + {s[from].replyTo}, s, from + 1)
  }

  lemma {:induction false} RunEndIsReplyRun(ids: set<CallId>, seen: set<CallId>, s: seq<Message>, from: nat)
    requires from <= |s|
    ensures RunEnd(ids, seen, s, from) == from + ReplyRun(ids, seen, s[from..])
    decreases |s| - from
  {
    if from < |s| {
      assert s[from..][1..] == s[from + 1..];
      RunEndIsReplyRun(ids, seen + {s[from].replyTo}, s, from + 1);
    }
  }

  /** Each message of the run behind a call at position 0 is an expected reply, and an id is
      still waiting when it comes. */
  lemma {:induction false} RunItem(ids: set<CallId>, seen: set<CallId>, s: seq<Message>, from: nat, k: nat)
    requires 1 <= from <= |s| && Tracks(s, ids, seen, from) && !(ids <= seen)
    requires from <= k < RunEnd(ids, seen, s, from)
    ensures s[k].role.Tool? && s[k].replyTo in ids && StillWaiting(s, ids, 0, k)
    decreases |s| - from
  {
    if k == from {
      TracksWaiting(s, ids, seen, from);
    } else {
      TracksNext(s, ids, seen, from);
      RunItem(ids, seen + {s[from].replyTo}, s, from + 1, k);
    }
  }

  /** The run ends when nothing waits, at the end of the list, or before a message that is not
      an expected reply. */
  lemma {:induction false} RunStops(ids: set<CallId>, seen: set<CallId>, s: seq<Message>, from: nat)
    requires 1 <= from <= |s| && Tracks(s, ids, seen, from)
    ensures RunEnds(s, ids, RunEnd(ids, seen, s, from))
    decreases |s| - from
  {
    if from < |s| && s[from].role.Tool? && s[from].replyTo in ids {
      var seen' := seen + {s[from].replyTo};
      TracksNext(s, ids, seen, from);
      TracksWaiting(s, ids, seen', from + 1);
      RunStops(ids, seen', s, from + 1);
    }
  }

  lemma FirstGroupItem(s: seq<Message>, k: nat)
    requires s != [] && OpensGroup(s[0]) && ExpectedIds(s[0]) != {} && 1 <= k < GroupLength(s)
    ensures s[k].role.Tool? && s[k].replyTo in ExpectedIds(s[0]) && StillWaiting(s, ExpectedIds(s[0]), 0, k)
  {
    assert Tracks(s, ExpectedIds(s[0]), {}, 1);
    RunEndIsReplyRun(ExpectedIds(s[0]), {}, s, 1);
    RunItem(ExpectedIds(s[0]), {}, s, 1, k);
  }

  lemma FirstGroupEnd(s: seq<Message>)
    requires s != [] && OpensGroup(s[0]) && ExpectedIds(s[0]) != {}
    ensures RunEnds(s, ExpectedIds(s[0]), GroupLength(s))
  {
    assert Tracks(s, ExpectedIds(s[0]), {}, 1);
    RunStops(ExpectedIds(s[0]), {}, s, 1);
    RunEndIsReplyRun(ExpectedIds(s[0]), {}, s, 1);
  }

  lemma FirstGroupRepliesOnly(s: seq<Message>)
    requires s != [] && (OpensGroup(s[0]) ==> ExpectedIds(s[0]) != {})
    ensures OnlyRepliesBetween(s, 0, GroupLength(s))
  {
    forall k | 0 < k < GroupLength(s) ensures s[k].role.Tool? {
      FirstGroupItem(s, k);
    }
  }

  // ----- the same facts in a suffix and in the whole list -----

  lemma UnansweredShift(s: seq<Message>, n: int, from: int, to: int, id: CallId)
    requires 0 <= n <= from <= to <= |s|
    ensures Unanswered(s[n..], from - n, to - n, id) <==> Unanswered(s, from, to, id)
  {
    assert forall k :: from <= k < to ==> s[k] == s[n..][k - n];
    assert forall k :: from - n <= k < to - n ==> s[k + n] == s[n..][k];
  }

  lemma AnswersShift(s: seq<Message>, n: int, j: int, i: int)
    requires 0 <= n <= j < i < |s|
    ensures Answers(s[n..], j - n, i - n) <==> Answers(s, j, i)
  {
    forall id | id in ExpectedIds(s[j])
      ensures Unanswered(s[n..], j - n + 1, i - n, id) <==> Unanswered(s, j + 1, i, id) {
      UnansweredShift(s, n, j + 1, i, id);
    }
    OnlyRepliesShift(s, n, j, i);
  }

  lemma OnlyRepliesShift(s: seq<Message>, n: int, j: int, i: int)
    requires 0 <= n <= j < i <= |s|
    ensures OnlyRepliesBetween(s[n..], j - n, i - n) <==> OnlyRepliesBetween(s, j, i)
  {
    assert forall k :: j < k < i ==> s[k] == s[n..][k - n];
    assert forall k :: j - n < k < i - n ==> s[k + n] == s[n..][k];
  }

  lemma NotOrphanShift(s: seq<Message>, n: int, i: int)
    requires 0 <= n <= i < |s| && NotOrphan(s[n..], i - n)
    ensures NotOrphan(s, i)
  {
    if s[i].role.Tool? {
      var j :| Answers(s[n..], j, i - n);
      AnswersShift(s, n, j + n, i);
    }
  }

  lemma AnsweredShift(s: seq<Message>, n: int, j: int, id: CallId)
    requires 0 <= n <= j < |s|
    ensures Answered(s[n..], j - n, id) <==> Answered(s, j, id)
  {
    var t := s[n..];
    if Answered(t, j - n, id) {
      var i :| j - n < i < |t| && t[i].role.Tool? && t[i].replyTo == id && OnlyRepliesBetween(t, j - n, i);
      OnlyRepliesShift(s, n, j, i + n);
      assert s[i + n] == t[i];
    }
    if Answered(s, j, id) {
      var i :| j < i < |s| && s[i].role.Tool? && s[i].replyTo == id && OnlyRepliesBetween(s, j, i);
      OnlyRepliesShift(s, n, j, i);
      assert s[i] == t[i - n];
    }
  }

  lemma FullyAnsweredShift(s: seq<Message>, n: int, j: int)
    requires 0 <= n <= j < |s|
    ensures FullyAnswered(s[n..], j - n) <==> FullyAnswered(s, j)
  {
    assert s[n..][j - n] == s[j];
    forall id | id in ExpectedIds(s[j]) ensures Answered(s[n..], j - n, id) <==> Answered(s, j, id) {
      AnsweredShift(s, n, j, id);
    }
  }

  // ----- valid first groups -----

  lemma ValidFirstGroup(s: seq<Message>, id: CallId) returns (k: nat)
    requires s != [] && ValidGroup(s[..GroupLength(s)]) && OpensGroup(s[0])
    requires id in ExpectedIds(s[0])
    ensures 1 <= k < GroupLength(s) && s[k].role.Tool? && s[k].replyTo == id
  {
    var r := s[..GroupLength(s)][1..];
    ReplyIdsMember(r, id);
    var l :| 0 <= l < |r| && r[l].role.Tool? && r[l].replyTo == id;
    k := l + 1;
    assert s[k] == r[l];
  }

  /** Every position of a valid first group is in order. */
  lemma FirstGroupSound(s: seq<Message>, i: int)
    requires s != [] && ValidGroup(s[..GroupLength(s)])
    requires 0 <= i < GroupLength(s)
    ensures NotOrphan(s, i) && FullyAnswered(s, i)
    ensures i > 0 ==> s[i].role.Tool? && OpensGroup(s[0])
  {
    if OpensGroup(s[0]) {
      FirstGroupRepliesOnly(s);
      if i > 0 {
        FirstGroupItem(s, i);
        assert Answers(s, 0, i);
      } else {
        forall id | id in ExpectedIds(s[0]) ensures Answered(s, 0, id) {
          var k := ValidFirstGroup(s, id);
          assert OnlyRepliesBetween(s, 0, k);
        }
      }
    }
  }

  lemma {:induction false} WellFormedSound(s: seq<Message>)
    requires WellFormed(s)
    ensures PromptSafe(s)
    decreases |s|
  {
    if s != [] {
      var n := GroupLength(s);
      WellFormedSound(s[n..]);
      forall i | 0 <= i < |s| ensures NotOrphan(s, i) && FullyAnswered(s, i) {
        if i < n {
          FirstGroupSound(s, i);
        } else {
          assert NotOrphan(s[n..], i - n) && FullyAnswered(s[n..], i - n);
          NotOrphanShift(s, n, i);
          FullyAnsweredShift(s, n, i);
        }
      }
    }
  }

  lemma ReplyInFirstGroup(s: seq<Message>, id: CallId) returns (k: nat)
    requires s != [] && PromptSafe(s) && OpensGroup(s[0]) && id in ExpectedIds(s[0])
    ensures 1 <= k < GroupLength(s) && s[k].role.Tool? && s[k].replyTo == id
  {
    var n := GroupLength(s);
    assert FullyAnswered(s, 0) && Answered(s, 0, id);
    var i :| 0 < i < |s| && s[i].role.Tool? && s[i].replyTo == id && OnlyRepliesBetween(s, 0, i);
    FirstGroupStops(s);
    k := i;
  }

  /** No tool message can follow the first group. */
  lemma FirstGroupStops(s: seq<Message>)
    requires s != [] && PromptSafe(s) && OpensGroup(s[0])
    ensures GroupLength(s) == |s| || !s[GroupLength(s)].role.Tool?
  {
    var n := GroupLength(s);
    assert FullyAnswered(s, 0) && (n < |s| ==> NotOrphan(s, n));
    FirstGroupRepliesOnly(s);
    FirstGroupEnd(s);
  }

  lemma FirstGroupComplete(s: seq<Message>)
    requires s != [] && PromptSafe(s)
    ensures ValidGroup(s[..GroupLength(s)])
  {
    assert NotOrphan(s, 0) && FullyAnswered(s, 0);
    if OpensGroup(s[0]) {
      var r := s[..GroupLength(s)][1..];
      forall id | id in ExpectedIds(s[0]) ensures id in ReplyIds(r) {
        var k := ReplyInFirstGroup(s, id);
        assert r[k - 1] == s[k];
        ReplyIdsMember(r, id);
      }
    }
  }

  /** A message behind a valid first group answers nothing in it. */
  lemma NotInFirstGroup(s: seq<Message>, j: int, i: int)
    requires s != [] && ValidGroup(s[..GroupLength(s)])
    requires GroupLength(s) <= i < |s| && Answers(s, j, i)
    ensures GroupLength(s) <= j
  {
    if j < GroupLength(s) {
      if j > 0 {
        FirstGroupSound(s, j);
      }
      var id :| id in ExpectedIds(s[0]) && Unanswered(s, 1, i, id);
      var k := ValidFirstGroup(s, id);
    }
  }

  lemma TailStaysSafe(s: seq<Message>)
    requires s != [] && PromptSafe(s) && ValidGroup(s[..GroupLength(s)])
    ensures PromptSafe(s[GroupLength(s)..])
  {
    var n := GroupLength(s);
    var t := s[n..];
    forall i | 0 <= i < |t| ensures NotOrphan(t, i) && FullyAnswered(t, i) {
      FullyAnsweredShift(s, n, i + n);
      assert NotOrphan(s, i + n) && s[i + n] == t[i];
      if t[i].role.Tool? {
        var j :| Answers(s, j, i + n);
        NotInFirstGroup(s, j, i + n);
        AnswersShift(s, n, j, i + n);
      }
    }
  }

  /** A list parses into valid groups exactly when it holds no orphan reply and no call with an
      unanswered id, both stated on positions of the list alone. */
  lemma {:induction false} WellFormedExactly(s: seq<Message>)
    ensures WellFormed(s) <==> PromptSafe(s)
    decreases |s|
  {
    if WellFormed(s) {
      WellFormedSound(s);
    }
    if s != [] && PromptSafe(s) {
      FirstGroupComplete(s);
      TailStaysSafe(s);
      WellFormedExactly(s[GroupLength(s)..]);
    }
  }
}
