/** The views of a history that are sent to a model: the recent window and the compaction of
    repeated wait turns. */
module PromptViews {
  import opened Messages
  import opened MessageGroups
  import opened HistoryTrim
  import opened Options

  // ----- the recent window -----

  /** The first group of the window when groups from `k` on are selected already. */
  function WindowStart(vs: seq<Group>, limit: int, k: nat): (start: nat)
    requires k <= |vs|
    ensures start <= k
  {
    if k == 0 then 0
    else if k < |vs| && Count(vs, k) + |vs[k - 1].messages| > limit then k
    else if Count(vs, k - 1) >= limit then k - 1
    else WindowStart(vs, limit, k - 1)
  }

  function RecentWindow(messages: seq<Message>, limit: int): seq<Message> {
    var vs := ValidOnly(Groups(messages));
    if limit <= 0 then [] else Flatten(vs[WindowStart(vs, limit, |vs|)..])
  }

  ghost predicate NoEmptyGroup(gs: seq<Group>) {
    forall i :: 0 <= i < |gs| ==> gs[i].messages != []
  }

  lemma {:induction false} WindowMeaning(vs: seq<Group>, limit: int, k: nat)
    requires k <= |vs| && NoEmptyGroup(vs) && limit > 0
    requires k < |vs| ==> Count(vs, k) < limit
    ensures var start := WindowStart(vs, limit, k);
            && (vs != [] ==> start < |vs|)
            && (Count(vs, start) <= limit || start == |vs| - 1)
            && (start > 0 ==> Count(vs, start - 1) > limit)
  {
    if k > 0 {
      assert Count(vs, k - 1) == |vs[k - 1].messages| + Count(vs, k);
      if !(k < |vs| && Count(vs, k) + |vs[k - 1].messages| > limit) {
        if Count(vs, k - 1) >= limit {
          assert k > 1 ==> vs[k - 2].messages != [];
        } else {
          WindowMeaning(vs, limit, k - 1);
        }
      }
    }
  }

  lemma {:induction false} ValidGroupsNotEmpty(gs: seq<Group>)
    ensures NoEmptyGroup(ValidOnly(gs))
  {
    if gs != [] {
      ValidGroupsNotEmpty(gs[1..]);
    }
  }

  /** The window is the longest suffix of the valid groups with at most `limit` messages, or the
      newest valid group alone when that is already too long; it needs no further filtering. */
  lemma RecentWindowIsLongestSuffix(messages: seq<Message>, limit: int)
    ensures limit <= 0 ==> RecentWindow(messages, limit) == []
    ensures limit > 0 ==>
            var vs := ValidOnly(Groups(messages));
            var start := WindowStart(vs, limit, |vs|);
            && RecentWindow(messages, limit) == Flatten(vs[start..])
            && Groups(RecentWindow(messages, limit)) == vs[start..]
            && WellFormed(RecentWindow(messages, limit))
            && (vs != [] ==> start < |vs|)
            && (|RecentWindow(messages, limit)| <= limit || start == |vs| - 1)
            && (forall j :: 0 <= j < start ==> |Flatten(vs[j..])| > limit)
  {
    if limit > 0 {
      var vs := ValidOnly(Groups(messages));
      var start := WindowStart(vs, limit, |vs|);
      ValidGroupsNotEmpty(Groups(messages));
      WindowMeaning(vs, limit, |vs|);
      forall j | 0 <= j < start ensures |Flatten(vs[j..])| > limit {
        CountMonotone(vs, j, start - 1);
        CountIsLength(vs, j);
      }
      CountIsLength(vs, start);
      WindowParses(messages, start);
    }
  }

  lemma WindowParses(messages: seq<Message>, start: nat)
    requires start <= |ValidOnly(Groups(messages))|
    ensures var w := ValidOnly(Groups(messages))[start..]; Groups(Flatten(w)) == w && WellFormed(Flatten(w))
  {
    var w := ValidOnly(Groups(messages))[start..];
    GroupsAreUnits(messages);
    ValidOnlyFacts(Groups(messages));
    UniqueReparse(w);
    WellFormedMeaning(Flatten(w));
  }

  // ----- compaction of wait turns -----

  /** A call of `wait` alone, followed by its own reply, which reports a successful wait. */
  predicate IsWaitPair(a: Message, t: Message) {
    && IsWaitCall(a, t)
    && t.content.Object? && Get(t.content.fields, "action") == Str("wait") && Truthy(Get(t.content.fields, "success"))
  }

  predicate IsWaitCall(a: Message, t: Message) {
    a.role.Assistant? && t.role.Tool? && |a.calls| == 1 && a.calls[0].name == "wait" && t.replyTo == a.calls[0].id
  }

  /** The reply to a call of `wait` parses, but to no object: looking up its action raises. */
  predicate StrayHead(s: seq<Message>) {
    |s| >= 2 && IsWaitCall(s[0], s[1]) && s[1].content.OtherJson?
  }

  ghost predicate NoStray(s: seq<Message>) {
    forall i :: 0 <= i < |s| ==> !StrayHead(s[i..])
  }

  /** How many wait pairs stand at the head of a list. */
  function WaitRun(s: seq<Message>): (n: nat)
    ensures 2 * n <= |s|
  {
    if |s| >= 2 && IsWaitPair(s[0], s[1]) then 1 + WaitRun(s[2..]) else 0
  }

  /** How many of the `n` pairs of a run are summarised: Python's `run[:-keep]`, whose sign cases
      are all one split position. */
  function SplitRun(n: nat, keep: int): (cut: nat)
    ensures cut <= n
  {
    if keep > 0 then (if keep < n then n - keep else 0)
    else if -keep < n then -keep else n
  }

  function KeptFields(f: Fields): Fields {
    map["latest_request_id" := Get(f, "request_id"),
        "latest_success" := Get(f, "success"),
        "latest_bot_state" := Get(f, "bot_state"),
        "latest_bot_phase" := Get(f, "bot_phase"),
        "latest_route_progress" := Get(f, "route_progress"),
        "latest_route_next_step" := Get(f, "route_next_step")]
  }

  function WaitSummary(turns: nat, last: Message): Message
    requires last.content.Object?
  {
    Message(System, WaitNote(turns, KeptFields(last.content.fields)), [], Missing)
  }

  lemma {:induction false} RunMember(s: seq<Message>, i: nat)
    requires i < WaitRun(s)
    ensures IsWaitPair(s[2 * i], s[2 * i + 1])
  {
    if i > 0 {
      RunMember(s[2..], i - 1);
    }
  }

  function Prepend(s: seq<Message>, rest: Option<seq<Message>>): Option<seq<Message>> {
    match rest
    case None => None
    case Some(r) => Some(s + r)
  }

  /** Wait compaction; `None` is the IndexError of summarising an empty run, or the AttributeError of
      a stray reply. */
  function CompactWaits(s: seq<Message>, least: int, keep: int): Option<seq<Message>> {
    if s == [] then Some([])
    else
      var n := WaitRun(s);
      if StrayHead(s) then None
      else if n == 0 then Prepend([s[0]], CompactWaits(s[1..], least, keep))
      else if n < least then Prepend(s[..2 * n], CompactWaits(s[2 * n..], least, keep))
      else
        var cut := SplitRun(n, keep);
        if cut == 0 then None
        else
          RunMember(s, cut - 1);
          Prepend([WaitSummary(cut, s[2 * cut - 1])] + s[2 * cut..2 * n], CompactWaits(s[2 * n..], least, keep))
  }

  // ----- what compaction removes -----

  predicate IsWaitSummary(m: Message) {
    m.role.System? && m.content.WaitNote?
  }

  /** A turn of waiting: the assistant calls `wait` and nothing else, and what follows is the reply to that very
      call, an object that names the action and reports success. */
  predicate IsWaitTurn(a: Message, t: Message) {
    && a.role == Assistant && |a.calls| == 1 && a.calls[0].name == "wait"
    && t.role == Tool && t.replyTo == a.calls[0].id && t.content.Object?
    && "action" in t.content.fields && t.content.fields["action"] == Str("wait")
    && "success" in t.content.fields
    && t.content.fields["success"] !in {Null, Bool(false), Number(0.0), Str("")}
    && (t.content.fields["success"].Compound? ==> !t.content.fields["success"].empty)
  }

  lemma WaitTurnExactly(a: Message, t: Message)
    ensures IsWaitPair(a, t) <==> IsWaitTurn(a, t)
  {
  }

  /** The list begins with `k` turns of waiting. */
  predicate AllWaitTurns(s: seq<Message>, k: nat) {
    2 * k <= |s| && forall i :: 0 <= i < k ==> IsWaitTurn(s[2 * i], s[2 * i + 1])
  }

  lemma {:induction false} RunIsTurns(s: seq<Message>, k: nat)
    ensures AllWaitTurns(s, k) <==> k <= WaitRun(s)
  {
    if k > 0 && |s| >= 2 {
      WaitTurnExactly(s[0], s[1]);
      var rest := s[2..];
      RunIsTurns(rest, k - 1);
      if AllWaitTurns(s, k) {
        assert IsWaitTurn(s[2 * 0], s[2 * 0 + 1]);
        forall i | 0 <= i < k - 1 ensures IsWaitTurn(rest[2 * i], rest[2 * i + 1]) {
          assert IsWaitTurn(s[2 * (i + 1)], s[2 * (i + 1) + 1]);
        }
      }
      if k <= WaitRun(s) {
        forall i | 0 <= i < k ensures IsWaitTurn(s[2 * i], s[2 * i + 1]) {
          if i > 0 {
            assert IsWaitTurn(rest[2 * (i - 1)], rest[2 * (i - 1) + 1]);
          }
        }
      }
    }
  }

  /** `out` is `s` with some stretches of whole successful wait pairs replaced by a summary of
      their number and of the last of their results, and with nothing else changed. */
  predicate Restores(out: seq<Message>, s: seq<Message>) {
    || (out == [] && s == [])
    || (out != [] && s != [] && out[0] == s[0] && Restores(out[1..], s[1..]))
    || (out != [] && IsWaitSummary(out[0]) && out[0].content.turnsCompacted >= 1
        && var k := out[0].content.turnsCompacted;
        && AllWaitTurns(s, k)
        && s[2 * k - 1].content.Object?
        && out[0] == WaitSummary(k, s[2 * k - 1])
        && Restores(out[1..], s[2 * k..]))
  }

  lemma {:induction false} RestoresPrefix(p: seq<Message>, out: seq<Message>, s: seq<Message>)
    requires Restores(out, s)
    ensures Restores(p + out, p + s)
    decreases |p|
  {
    if p == [] {
      assert p + out == out && p + s == s;
    } else {
      RestoresPrefix(p[1..], out, s);
      assert (p + out)[1..] == p[1..] + out && (p + s)[1..] == p[1..] + s;
    }
  }

  lemma SplitSeq(s: seq<Message>, n: nat)
    requires n <= |s|
    ensures s == s[..n] + s[n..]
  {
  }

  /** Slices behind the first `a` messages. */
  lemma Behind(s: seq<Message>, a: nat, i: nat, j: nat)
    requires a <= i <= j <= |s|
    ensures s[a..][i - a..] == s[i..] && s[a..][i - a..j - a] == s[i..j]
    ensures s[..i] == s[..a] + s[a..][..i - a]
  {
  }

  /** A summary in front of what restores the rest. */
  lemma SummaryHead(out: seq<Message>, s: seq<Message>, cut: nat)
    requires 1 <= cut <= WaitRun(s) && s[2 * cut - 1].content.Object?
    requires out != [] && out[0] == WaitSummary(cut, s[2 * cut - 1])
    requires Restores(out[1..], s[2 * cut..])
    ensures Restores(out, s)
  {
    RunIsTurns(s, cut);
  }

  lemma Rejoin(s: seq<Message>, i: nat, j: nat)
    requires i <= j <= |s|
    ensures s[i..] == s[i..j] + s[j..]
  {
  }

  lemma HeadThenRest(m: Message, kept: seq<Message>, rest: seq<Message>)
    ensures ([m] + kept + rest)[0] == m && ([m] + kept + rest)[1..] == kept + rest
  {
  }

  lemma SummaryRestores(s: seq<Message>, cut: nat, rest: seq<Message>)
    requires 1 <= cut <= WaitRun(s) && Restores(rest, s[2 * WaitRun(s)..])
    ensures s[2 * cut - 1].content.Object?
    ensures Restores([WaitSummary(cut, s[2 * cut - 1])] + s[2 * cut..2 * WaitRun(s)] + rest, s)
  {
    var m := 2 * WaitRun(s);
    RunMember(s, cut - 1);
    var kept, summary := s[2 * cut..m], WaitSummary(cut, s[2 * cut - 1]);
    RestoresPrefix(kept, rest, s[m..]);
    Rejoin(s, 2 * cut, m);
    HeadThenRest(summary, kept, rest);
    SummaryHead([summary] + kept + rest, s, cut);
  }

  /** Compaction removes whole successful wait pairs only. */
  lemma {:induction false} CompactionRestores(s: seq<Message>, least: int, keep: int)
    requires CompactWaits(s, least, keep).Some?
    ensures Restores(CompactWaits(s, least, keep).value, s)
    decreases |s|
  {
    if s != [] {
      var n := WaitRun(s);
      var m := if n == 0 then 1 else 2 * n;
      CompactionRestores(s[m..], least, keep);
      var rest := CompactWaits(s[m..], least, keep).value;
      if n == 0 || n < least {
        assert n == 0 ==> [s[0]] == s[..m];
        RestoresPrefix(s[..m], rest, s[m..]);
        SplitSeq(s, m);
      } else {
        SummaryRestores(s, SplitRun(n, keep), rest);
      }
    }
  }

  function Summaries(s: seq<Message>): nat {
    if s == [] then 0 else (if IsWaitSummary(s[0]) then 1 else 0) + Summaries(s[1..])
  }

  function CompactedTurns(s: seq<Message>): nat {
    if s == [] then 0 else (if IsWaitSummary(s[0]) then s[0].content.turnsCompacted else 0) + CompactedTurns(s[1..])
  }

  /** The length of a history with every summary counted as the messages it stands for. */
  function FullLength(s: seq<Message>): int {
    |s| - Summaries(s) + 2 * CompactedTurns(s)
  }

  lemma OrdinaryHead(s: seq<Message>)
    requires s != [] && !IsWaitSummary(s[0])
    ensures FullLength(s) == 1 + FullLength(s[1..])
  {
  }

  lemma {:induction false} PairsHoldNoSummary(s: seq<Message>, k: nat)
    requires k <= WaitRun(s)
    ensures FullLength(s) == 2 * k + FullLength(s[2 * k..])
  {
    if k > 0 {
      PairsHoldNoSummary(s[2..], k - 1);
      assert s[2..][2 * (k - 1)..] == s[2 * k..];
      OrdinaryHead(s);
      OrdinaryHead(s[1..]);
      assert s[1..][1..] == s[2..];
    }
  }

  /** Every removed message is accounted for by the summaries. */
  lemma {:induction false} RestoredLength(out: seq<Message>, s: seq<Message>)
    requires Restores(out, s)
    ensures FullLength(out) == FullLength(s)
    decreases |out|
  {
    if out != [] {
      if s != [] && out[0] == s[0] && Restores(out[1..], s[1..]) {
        RestoredLength(out[1..], s[1..]);
      } else {
        var k := out[0].content.turnsCompacted;
        RunIsTurns(s, k);
        RestoredLength(out[1..], s[2 * k..]);
        PairsHoldNoSummary(s, k);
      }
    }
  }

  lemma CompactionAccounts(s: seq<Message>, least: int, keep: int)
    requires CompactWaits(s, least, keep).Some? && Summaries(s) == 0
    ensures var out := CompactWaits(s, least, keep).value;
            |s| == |out| - Summaries(out) + 2 * CompactedTurns(out)
  {
    CompactionRestores(s, least, keep);
    RestoredLength(CompactWaits(s, least, keep).value, s);
    NoSummaryNoTurns(s);
  }

  lemma {:induction false} NoSummaryNoTurns(s: seq<Message>)
    requires Summaries(s) == 0
    ensures CompactedTurns(s) == 0
  {
    if s != [] {
      NoSummaryNoTurns(s[1..]);
    }
  }

  // ----- compaction keeps validity -----

  lemma ConcatWellFormed(s: seq<Message>, t: seq<Message>)
    requires WellFormed(s) && WellFormed(t)
    ensures WellFormed(s + t)
  {
    GroupsConcat(s, t);
    WellFormedMeaning(s);
    WellFormedMeaning(t);
    assert AllValid(Groups(s + t));
    WellFormedMeaning(s + t);
  }

  /** In a list that starts between two groups, what follows a run of wait pairs does too. */
  lemma AfterPair(s: seq<Message>)
    requires WellFormed(s) && |s| >= 2 && IsWaitPair(s[0], s[1])
    ensures WellFormed(s[..2]) && WellFormed(s[2..])
  {
    FirstPairIsGroup(s);
    GroupIsUnit(s);
    assert s[..2][2..] == [] && s[..2][..2] == s[..2];
  }

  /** A pair moves from the rest to what is in front of it. */
  lemma TakePair(s: seq<Message>, i: nat)
    requires i + 2 <= |s| && IsWaitPair(s[i], s[i + 1])
    requires WellFormed(s[..i]) && WellFormed(s[i..])
    ensures WellFormed(s[..i + 2]) && WellFormed(s[i + 2..])
  {
    AfterPair(s[i..]);
    Behind(s, i, i + 2, i + 2);
    ConcatWellFormed(s[..i], s[i..][..2]);
  }

  lemma {:induction false} AfterRun(s: seq<Message>, k: nat)
    requires WellFormed(s) && k <= WaitRun(s)
    ensures WellFormed(s[..2 * k]) && WellFormed(s[2 * k..])
    decreases k
  {
    if k == 0 {
      assert s[..0] == [] && s[0..] == s;
    } else {
      RunMember(s, k - 1);
      AfterRun(s, k - 1);
      TakePair(s, 2 * (k - 1));
    }
  }

  lemma FirstPairIsGroup(s: seq<Message>)
    requires WellFormed(s) && |s| >= 2 && IsWaitPair(s[0], s[1])
    ensures GroupLength(s) == 2
  {
    OneCallIds(s[0]);
    assert ReplyRun({s[1].replyTo}, {}, s[1..]) == 1;
  }

  lemma OneCallIds(m: Message)
    requires |m.calls| == 1 && ExpectedIds(m) != {}
    ensures ExpectedIds(m) == {m.calls[0].id}
  {
  }

  lemma {:induction false} CompactionKeepsHead(s: seq<Message>, n: nat, least: int, keep: int)
    requires 1 <= n <= |s| && WaitRun(s) == 0 && !StrayHead(s)
    requires forall k :: 1 <= k < n ==> s[k].role.Tool?
    ensures CompactWaits(s, least, keep) == Prepend(s[..n], CompactWaits(s[n..], least, keep))
    decreases n
  {
    if n == 1 {
      assert s[..1] == [s[0]];
    } else {
      CompactionKeepsHead(s[1..], n - 1, least, keep);
      assert s[1..][n - 1..] == s[n..];
      assert [s[0]] + s[1..][..n - 1] == s[..n];
      assert forall r: seq<Message> :: [s[0]] + (s[1..][..n - 1] + r) == s[..n] + r;
    }
  }

  /** A history of valid groups only is compacted to a history of valid groups only. */
  lemma {:induction false} CompactionStaysWellFormed(s: seq<Message>, least: int, keep: int)
    requires WellFormed(s) && CompactWaits(s, least, keep).Some?
    ensures WellFormed(CompactWaits(s, least, keep).value)
    decreases |s|
  {
    if s != [] {
      var n := WaitRun(s);
      if n == 0 {
        var m := GroupLength(s);
        FirstGroupShape(s);
        CompactionKeepsHead(s, m, least, keep);
        CompactionStaysWellFormed(s[m..], least, keep);
        FirstGroupAlone(s);
        ConcatWellFormed(s[..m], CompactWaits(s[m..], least, keep).value);
      } else {
        AfterRun(s, n);
        CompactionStaysWellFormed(s[2 * n..], least, keep);
        var rest := CompactWaits(s[2 * n..], least, keep).value;
        if n < least {
          ConcatWellFormed(s[..2 * n], rest);
        } else {
          var cut := SplitRun(n, keep);
          RunMember(s, cut - 1);
          KeptPairsWellFormed(s, cut, n);
          SystemMessageWellFormed(WaitSummary(cut, s[2 * cut - 1]));
          ConcatWellFormed([WaitSummary(cut, s[2 * cut - 1])], s[2 * cut..2 * n]);
          ConcatWellFormed([WaitSummary(cut, s[2 * cut - 1])] + s[2 * cut..2 * n], rest);
        }
      }
    }
  }

  lemma SystemMessageWellFormed(m: Message)
    requires m.role.System?
    ensures WellFormed([m])
  {
    assert [m][1..] == [] && [m][..1] == [m];
  }

  lemma KeptPairsWellFormed(s: seq<Message>, cut: nat, n: nat)
    requires WellFormed(s) && cut <= n <= WaitRun(s)
    ensures WellFormed(s[2 * cut..2 * n])
  {
    AfterRun(s, n);
    RunOfPrefix(s, n);
    AfterRun(s[..2 * n], cut);
    assert s[..2 * n][2 * cut..] == s[2 * cut..2 * n];
  }

  lemma {:induction false} RunOfPrefix(s: seq<Message>, n: nat)
    requires n <= WaitRun(s)
    ensures WaitRun(s[..2 * n]) == n
  {
    if n > 0 {
      RunOfPrefix(s[2..], n - 1);
      assert s[..2 * n][2..] == s[2..][..2 * (n - 1)];
    }
  }

  lemma FirstGroupShape(s: seq<Message>)
    requires s != []
    ensures forall k :: 1 <= k < GroupLength(s) ==> s[k].role.Tool?
  {
    if OpensGroup(s[0]) {
      TakenAreReplies(ExpectedIds(s[0]), {}, s[1..]);
    }
  }

  lemma FirstGroupAlone(s: seq<Message>)
    requires s != [] && WellFormed(s)
    ensures WellFormed(s[..GroupLength(s)])
  {
    GroupIsUnit(s);
    var g := s[..GroupLength(s)];
    assert g[..GroupLength(g)] == g && g[GroupLength(g)..] == [];
  }

  // ----- compacting twice -----

  lemma HeadOfCompaction(s: seq<Message>, least: int, keep: int)
    requires s != [] && CompactWaits(s, least, keep).Some?
    ensures var out := CompactWaits(s, least, keep).value; out != [] && (out[0] == s[0] || out[0].role.System?)
  {
  }

  /** Compaction makes no new wait pair at the head, and no stray reply. */
  lemma CompactionKeepsNoPair(s: seq<Message>, least: int, keep: int)
    requires WaitRun(s) == 0 && CompactWaits(s, least, keep).Some?
    ensures WaitRun(CompactWaits(s, least, keep).value) == 0
    ensures !StrayHead(CompactWaits(s, least, keep).value)
  {
    if |s| >= 2 {
      HeadOfCompaction(s[1..], least, keep);
    }
  }

  lemma {:induction false} RunThenNone(p: seq<Message>, rest: seq<Message>)
    requires 2 * WaitRun(p) == |p| && WaitRun(rest) == 0
    ensures WaitRun(p + rest) == WaitRun(p)
  {
    if p == [] {
      assert p + rest == rest;
    } else {
      assert (p + rest)[2..] == p[2..] + rest;
      RunThenNone(p[2..], rest);
    }
  }

  lemma {:induction false} NoPairBehindRun(s: seq<Message>)
    ensures WaitRun(s[2 * WaitRun(s)..]) == 0
  {
    if WaitRun(s) > 0 {
      NoPairBehindRun(s[2..]);
      assert s[2..][2 * WaitRun(s[2..])..] == s[2 * WaitRun(s)..];
    } else {
      assert s[0..] == s;
    }
  }

  lemma {:induction false} RunSuffix(s: seq<Message>, i: nat)
    requires i <= WaitRun(s)
    ensures WaitRun(s[2 * i..]) == WaitRun(s) - i
  {
    if i > 0 {
      RunSuffix(s[2..], i - 1);
      assert s[2..][2 * (i - 1)..] == s[2 * i..];
    }
  }

  lemma RunBetween(s: seq<Message>, i: nat)
    requires i <= WaitRun(s)
    ensures var n := WaitRun(s); WaitRun(s[2 * i..2 * n]) == n - i
  {
    var run := s[..2 * WaitRun(s)];
    RunOfPrefix(s, WaitRun(s));
    RunSuffix(run, i);
    assert run[2 * i..] == s[2 * i..2 * WaitRun(s)];
  }

  lemma RunIsMaximal(s: seq<Message>, i: nat)
    requires i <= WaitRun(s)
    ensures var n := WaitRun(s); WaitRun(s[2 * i..2 * n]) == n - i && WaitRun(s[2 * n..]) == 0
  {
    NoPairBehindRun(s);
    RunBetween(s, i);
  }

  /** A run too short to compact, put before a list with no pair at its head, stays. */
  lemma ShortRunStays(p: seq<Message>, rest: seq<Message>, least: int, keep: int)
    requires p != [] && 2 * WaitRun(p) == |p| && WaitRun(p) < least && WaitRun(rest) == 0
    ensures CompactWaits(p + rest, least, keep) == Prepend(p, CompactWaits(rest, least, keep))
  {
    RunThenNone(p, rest);
    assert (p + rest)[..|p|] == p && (p + rest)[|p|..] == rest;
  }

  /** Compacting a compacted history changes nothing. */
  lemma {:induction false} CompactionIdempotent(s: seq<Message>, least: int, keep: int)
    requires 1 <= keep < least && CompactWaits(s, least, keep).Some?
    ensures CompactWaits(CompactWaits(s, least, keep).value, least, keep) == CompactWaits(s, least, keep)
    decreases |s|
  {
    if s != [] {
      var n := WaitRun(s);
      var m := if n == 0 then 1 else 2 * n;
      CompactionIdempotent(s[m..], least, keep);
      var rest := CompactWaits(s[m..], least, keep).value;
      if n == 0 {
        CompactionKeepsNoPair(s, least, keep);
        assert ([s[0]] + rest)[1..] == rest;
      } else {
        RunIsMaximal(s, 0);
        CompactionKeepsNoPair(s[m..], least, keep);
        if n < least {
          assert s[0..m] == s[..m];
          ShortRunStays(s[..m], rest, least, keep);
        } else {
          var cut := SplitRun(n, keep);
          RunMember(s, cut - 1);
          RunIsMaximal(s, cut);
          ShortRunStays(s[2 * cut..m], rest, least, keep);
          SummaryStays(WaitSummary(cut, s[2 * cut - 1]), s[2 * cut..m], rest, least, keep);
        }
      }
    }
  }

  lemma {:induction false} RunsInside(p: seq<Message>, rest: seq<Message>, i: nat)
    requires 2 * WaitRun(p) == |p| && WaitRun(rest) == 0 && i <= |p|
    ensures WaitRun((p + rest)[i..]) <= WaitRun(p)
  {
    if i == 0 {
      RunThenNone(p, rest);
      assert (p + rest)[0..] == p + rest;
    } else if i == 1 {
      assert (p + rest)[1..][0] == p[1];
    } else {
      RunsInside(p[2..], rest, i - 2);
      assert (p + rest)[i..] == (p[2..] + rest)[i - 2..];
    }
  }

  /** No suffix of the list begins with `least` turns of waiting. */
  ghost predicate NoLongRun(s: seq<Message>, least: int) {
    forall i :: 0 <= i <= |s| ==> WaitRun(s[i..]) < least
  }

  lemma LongRunBehind(p: seq<Message>, rest: seq<Message>, least: int)
    requires 2 * WaitRun(p) == |p| && WaitRun(p) < least && WaitRun(rest) == 0 && NoLongRun(rest, least)
    ensures NoLongRun(p + rest, least)
  {
    forall i | 0 <= i <= |p + rest| ensures WaitRun((p + rest)[i..]) < least {
      if i <= |p| {
        RunsInside(p, rest, i);
      } else {
        assert (p + rest)[i..] == rest[i - |p|..];
      }
    }
  }

  lemma NoRunAtHead(m: Message, rest: seq<Message>, least: int)
    requires WaitRun([m] + rest) == 0 && NoLongRun(rest, least) && least > 0
    ensures NoLongRun([m] + rest, least)
  {
    forall i | 0 <= i <= |rest| + 1 ensures WaitRun(([m] + rest)[i..]) < least {
      if i == 0 {
        assert ([m] + rest)[0..] == [m] + rest;
      } else {
        assert ([m] + rest)[i..] == rest[i - 1..];
      }
    }
  }

  lemma {:induction false} CompactionShortensRuns(s: seq<Message>, least: int, keep: int)
    requires 1 <= keep < least && CompactWaits(s, least, keep).Some?
    ensures NoLongRun(CompactWaits(s, least, keep).value, least)
    decreases |s|
  {
    if s != [] {
      var n := WaitRun(s);
      var m := if n == 0 then 1 else 2 * n;
      CompactionShortensRuns(s[m..], least, keep);
      var rest := CompactWaits(s[m..], least, keep).value;
      if n == 0 {
        CompactionKeepsNoPair(s, least, keep);
        NoRunAtHead(s[0], rest, least);
      } else {
        RunIsMaximal(s, 0);
        CompactionKeepsNoPair(s[m..], least, keep);
        if n < least {
          assert s[0..m] == s[..m];
          LongRunBehind(s[..m], rest, least);
        } else {
          SummarisedRunIsShort(s, rest, least, keep);
        }
      }
    }
  }

  lemma SummarisedRunIsShort(s: seq<Message>, rest: seq<Message>, least: int, keep: int)
    requires 1 <= keep < least <= WaitRun(s) && WaitRun(rest) == 0 && NoLongRun(rest, least)
    ensures var n := WaitRun(s); var cut := SplitRun(n, keep);
            cut >= 1 && s[2 * cut - 1].content.Object?
            && NoLongRun([WaitSummary(cut, s[2 * cut - 1])] + s[2 * cut..2 * n] + rest, least)
  {
    var n := WaitRun(s);
    var cut := SplitRun(n, keep);
    RunMember(s, cut - 1);
    RunIsMaximal(s, cut);
    BehindSummary(WaitSummary(cut, s[2 * cut - 1]), s[2 * cut..2 * n], rest, least);
  }

  lemma NoRunAtSystem(m: Message, t: seq<Message>)
    requires m.role.System?
    ensures WaitRun([m] + t) == 0
  {
  }

  lemma SummaryJoins(m: Message, kept: seq<Message>, rest: seq<Message>)
    ensures [m] + (kept + rest) == [m] + kept + rest
  {
  }

  lemma BehindSummary(m: Message, kept: seq<Message>, rest: seq<Message>, least: int)
    requires m.role.System? && 2 * WaitRun(kept) == |kept| && WaitRun(kept) < least
    requires WaitRun(rest) == 0 && NoLongRun(rest, least)
    ensures NoLongRun([m] + kept + rest, least)
  {
    var t := kept + rest;
    LongRunBehind(kept, rest, least);
    NoRunAtSystem(m, t);
    NoRunAtHead(m, t, least);
    SummaryJoins(m, kept, rest);
  }

  /** With a kept number below the minimum, no stretch of as many turns of waiting as the minimum is left. */
  lemma CompactionLeavesNoLongRun(s: seq<Message>, least: int, keep: int, i: nat)
    requires 1 <= keep < least && CompactWaits(s, least, keep).Some?
    requires i <= |CompactWaits(s, least, keep).value|
    ensures !AllWaitTurns(CompactWaits(s, least, keep).value[i..], least)
  {
    CompactionShortensRuns(s, least, keep);
    RunIsTurns(CompactWaits(s, least, keep).value[i..], least);
  }

  lemma SummaryStays(m: Message, p: seq<Message>, rest: seq<Message>, least: int, keep: int)
    requires m.role.System?
    requires CompactWaits(p + rest, least, keep) == Some(p + rest)
    ensures CompactWaits([m] + p + rest, least, keep) == Some([m] + p + rest)
  {
    var q := p + rest;
    assert [m] + p + rest == [m] + q && ([m] + q)[1..] == q;
  }

  // ----- when compaction fails, and when a second one changes nothing -----

  function WaitTurns(n: nat): (s: seq<Message>)
    ensures |s| == 2 * n
  {
    if n == 0 then []
    else
      [Message(Assistant, Text(""), [ToolCall(Id("w"), "wait", "{}")], Missing),
       Message(Tool, Object(map["action" := Str("wait"), "success" := Bool(true)]), [], Id("w"))] + WaitTurns(n - 1)
  }

  lemma {:induction false} WaitTurnsRun(n: nat)
    ensures WaitRun(WaitTurns(n)) == n
  {
    if n > 0 {
      WaitTurnsRun(n - 1);
      assert WaitTurns(n)[2..] == WaitTurns(n - 1);
    }
  }

  lemma {:induction false} WaitTurnsDrop(n: nat, k: nat)
    requires k <= n
    ensures WaitTurns(n)[2 * k..] == WaitTurns(n - k)
  {
    if k > 0 {
      WaitTurnsDrop(n - 1, k - 1);
      assert WaitTurns(n)[2..] == WaitTurns(n - 1);
      assert WaitTurns(n)[2..][2 * (k - 1)..] == WaitTurns(n)[2 * k..];
    }
  }

  /** A run of wait turns alone: nothing to summarise, or a summary and the turns behind it. */
  lemma CompactTurns(n: nat, least: int, keep: int) returns (m: Message)
    requires n > 0 && n >= least
    ensures SplitRun(n, keep) == 0 ==> CompactWaits(WaitTurns(n), least, keep).None?
    ensures SplitRun(n, keep) > 0 ==>
              m.role.System?
              && CompactWaits(WaitTurns(n), least, keep) == Some([m] + WaitTurns(n - SplitRun(n, keep)))
  {
    var cut := SplitRun(n, keep);
    WaitTurnsRun(n);
    if cut == 0 {
      m := TrimSummary(0);
    } else {
      WaitTurnsDrop(n, cut);
      m := CompactRunOnly(WaitTurns(n), least, keep);
    }
  }

  /** A list that is one run of pairs, some of which are summarised. */
  lemma CompactRunOnly(s: seq<Message>, least: int, keep: int) returns (m: Message)
    requires var n := WaitRun(s); |s| == 2 * n && 0 < n && n >= least && SplitRun(n, keep) > 0
    requires !StrayHead(s)
    ensures m.role.System?
    ensures CompactWaits(s, least, keep) == Some([m] + s[2 * SplitRun(WaitRun(s), keep)..])
  {
    var n, cut := WaitRun(s), SplitRun(WaitRun(s), keep);
    RunMember(s, cut - 1);
    m := WaitSummary(cut, s[2 * cut - 1]);
    assert s[2 * cut..2 * n] == s[2 * cut..] && s[2 * n..] == [];
    assert [m] + s[2 * cut..] + [] == [m] + s[2 * cut..];
  }

  lemma SummaryAhead(m: Message, q: seq<Message>, least: int, keep: int)
    requires m.role.System?
    ensures CompactWaits([m] + q, least, keep) == Prepend([m], CompactWaits(q, least, keep))
  {
    assert ([m] + q)[1..] == q;
  }

  /** Outside the numbers a second compaction raises, or summarises what the first one had kept. */
  lemma SecondCompactionDiffers(least: int, keep: int) returns (s: seq<Message>)
    requires keep < 0 || (keep > 0 && least <= keep)
    ensures CompactWaits(s, least, keep).Some?
    ensures CompactWaits(CompactWaits(s, least, keep).value, least, keep) != CompactWaits(s, least, keep)
  {
    var left := if keep > 0 then keep else if least > 1 then least else 1;
    var n := left + if keep > 0 then 1 else -keep;
    s := WaitTurns(n);
    var m := CompactTurns(n, least, keep);
    TurnsDiffer(m, left, least, keep);
    NotTheSame(s, [m] + WaitTurns(left), least, keep);
  }

  lemma NotTheSame(s: seq<Message>, first: seq<Message>, least: int, keep: int)
    requires CompactWaits(s, least, keep) == Some(first) && CompactWaits(first, least, keep) != Some(first)
    ensures CompactWaits(s, least, keep).Some?
    ensures CompactWaits(CompactWaits(s, least, keep).value, least, keep) != CompactWaits(s, least, keep)
  {
  }

  lemma TurnsDiffer(m: Message, left: nat, least: int, keep: int)
    requires m.role.System? && left > 0 && left >= least && (keep < 0 || left == keep)
    ensures CompactWaits([m] + WaitTurns(left), least, keep) != Some([m] + WaitTurns(left))
  {
    SummaryAhead(m, WaitTurns(left), least, keep);
    var second := CompactTurns(left, least, keep);
    var cut := SplitRun(left, keep);
    if cut > 0 {
      LengthsDiffer(m, second, WaitTurns(left), WaitTurns(left - cut));
    }
  }

  lemma LengthsDiffer(m: Message, second: Message, a: seq<Message>, b: seq<Message>)
    requires |a| != |b| + 1
    ensures [m] + a != [m] + ([second] + b)
  {
    assert |[m] + a| != |[m] + ([second] + b)|;
  }

  lemma {:induction false} NothingKeptNothingChanged(s: seq<Message>, least: int)
    requires CompactWaits(s, least, 0).Some?
    ensures CompactWaits(s, least, 0) == Some(s)
    decreases |s|
  {
    if s != [] {
      var m := if WaitRun(s) == 0 then 1 else 2 * WaitRun(s);
      NothingKeptNothingChanged(s[m..], least);
      SplitSeq(s, m);
      assert [s[0]] == s[..1];
    }
  }

  /** Where compaction does not raise, a second one changes nothing. */
  ghost predicate SecondChangesNothing(least: int, keep: int) {
    forall s :: CompactWaits(s, least, keep).Some? ==>
      CompactWaits(CompactWaits(s, least, keep).value, least, keep) == CompactWaits(s, least, keep)
  }

  /** For all numbers: compacting a compacted history changes nothing, whatever the history, exactly when
      `keep` is 0, where nothing is ever summarised, or lies between 1 and `least - 1`. */
  lemma CompactionIdempotentExactly(least: int, keep: int)
    ensures SecondChangesNothing(least, keep) <==> keep == 0 || 1 <= keep < least
  {
    if keep == 0 || 1 <= keep < least {
      forall s | CompactWaits(s, least, keep).Some?
        ensures CompactWaits(CompactWaits(s, least, keep).value, least, keep) == CompactWaits(s, least, keep)
      {
        if keep == 0 {
          NothingKeptNothingChanged(s, least);
        } else {
          CompactionIdempotent(s, least, keep);
        }
      }
    } else {
      var s := SecondCompactionDiffers(least, keep);
    }
  }

  lemma {:induction false} CompactionSucceeds(s: seq<Message>, least: int, keep: int)
    requires (keep < 0 || 1 <= keep < least) && NoStray(s)
    ensures CompactWaits(s, least, keep).Some?
    decreases |s|
  {
    if s != [] {
      var n := WaitRun(s);
      var m := if n == 0 then 1 else 2 * n;
      assert s[0..] == s && !StrayHead(s[0..]);
      NoStraySuffix(s, m);
      CompactionSucceeds(s[m..], least, keep);
    }
  }

  lemma NoStraySuffix(s: seq<Message>, m: nat)
    requires m <= |s| && NoStray(s)
    ensures NoStray(s[m..])
  {
    forall i | 0 <= i < |s| - m ensures !StrayHead(s[m..][i..]) {
      assert s[m..][i..] == s[m + i..];
    }
  }

  /** A stray reply makes compaction fail, wherever it stands and whatever the numbers are. */
  lemma {:induction false} StrayFails(s: seq<Message>, i: nat, least: int, keep: int)
    requires i < |s| && StrayHead(s[i..])
    ensures CompactWaits(s, least, keep).None?
    decreases |s|
  {
    var n := WaitRun(s);
    var m := if n == 0 then 1 else 2 * n;
    if i < m {
      assert s[i..][0] == s[i] && s[i..][1] == s[i + 1];
      if n > 0 {
        RunMember(s, i / 2);
        assert false;
      }
      assert s[0..] == s;
    } else {
      assert s[m..][i - m..] == s[i..];
      StrayFails(s[m..], i - m, least, keep);
    }
  }

  lemma CompactionFails(least: int, keep: int) returns (s: seq<Message>)
    requires !(keep < 0 || 1 <= keep < least)
    ensures CompactWaits(s, least, keep).None? && NoStray(s)
  {
    var n := if least > 1 then least else 1;
    s := WaitTurns(n);
    WaitTurnsRun(n);
    forall i | 0 <= i < |s| ensures !StrayHead(s[i..]) {
      WaitTurnsContent(n, i);
      if i + 1 < |s| {
        WaitTurnsContent(n, i + 1);
      }
    }
  }

  lemma {:induction false} WaitTurnsContent(n: nat, i: nat)
    requires i < 2 * n
    ensures !WaitTurns(n)[i].content.OtherJson?
  {
    if i >= 2 {
      WaitTurnsContent(n - 1, i - 2);
    }
  }

  /** Compaction works exactly on the histories without a stray reply. */
  ghost predicate FailsOnlyOnStray(least: int, keep: int) {
    forall s :: CompactWaits(s, least, keep).Some? <==> NoStray(s)
  }

  /** A wait reply that is JSON but no object makes compaction fail whatever the numbers are; it fails on
      no other history exactly when `keep` is negative or lies between 1 and `least - 1`. */
  lemma CompactionTotalExactly(least: int, keep: int)
    ensures FailsOnlyOnStray(least, keep) <==> keep < 0 || 1 <= keep < least
    ensures forall s :: !NoStray(s) ==> CompactWaits(s, least, keep).None?
  {
    forall s | !NoStray(s) ensures CompactWaits(s, least, keep).None? {
      var i :| 0 <= i < |s| && StrayHead(s[i..]);
      StrayFails(s, i, least, keep);
    }
    if keep < 0 || 1 <= keep < least {
      forall s ensures CompactWaits(s, least, keep).Some? <==> NoStray(s) {
        if NoStray(s) {
          CompactionSucceeds(s, least, keep);
        }
      }
    } else {
      var s := CompactionFails(least, keep);
      assert !CompactWaits(s, least, keep).Some?;
    }
  }

  /** One wait turn whose reply is the JSON text `5`. */
  lemma StrayReplyRaises(least: int, keep: int) returns (s: seq<Message>)
    ensures WellFormed(s) && !NoStray(s) && CompactWaits(s, least, keep).None?
  {
    var call := Message(Assistant, Text(""), [ToolCall(Id("w"), "wait", "{}")], Missing);
    var reply := Message(Tool, OtherJson("5"), [], Id("w"));
    s := [call, reply];
    assert s[0..] == s && StrayHead(s[0..]);
    StrayFails(s, 0, least, keep);
    assert ExpectedIds(call) == {Id("w")};
    assert s[1..] == [reply] && ReplyRun({Id("w")}, {}, [reply]) == 1;
    assert s[..2] == s && s[2..] == [];
  }
}
