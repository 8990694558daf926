/** The object that owns a role's prompt history. Each method is tied to the function that says
    what it computes. */
module HistoryManager {
  import opened Messages
  import opened MessageGroups
  import opened HistoryTrim
  import opened PromptViews
  import opened Options

  // ----- one more element -----

  lemma {:induction false} ReplyIdsSnoc(s: seq<Message>, m: Message)
    ensures ReplyIds(s + [m]) == ReplyIds(s) + ReplyIds([m])
  {
    if s == [] {
      assert s + [m] == [m];
    } else {
      assert (s + [m])[1..] == s[1..] + [m];
      ReplyIdsSnoc(s[1..], m);
    }
  }

  lemma FlattenSnoc(gs: seq<Group>, k: nat)
    requires k < |gs|
    ensures Flatten(gs[..k + 1]) == Flatten(gs[..k]) + gs[k].messages
  {
    assert gs[..k + 1] == gs[..k] + [gs[k]];
    FlattenConcat(gs[..k], [gs[k]]);
    assert Flatten([gs[k]]) == gs[k].messages + Flatten([]);
  }

  lemma CountSnoc(gs: seq<Group>, g: Group)
    ensures Count(gs + [g], 0) == Count(gs, 0) + |g.messages|
  {
    CountIsLength(gs, 0);
    CountIsLength(gs + [g], 0);
    assert gs[0..] == gs && (gs + [g])[0..] == gs + [g];
    FlattenConcat(gs, [g]);
    assert Flatten([g]) == g.messages + Flatten([]);
  }

  lemma CountCons(g: Group, gs: seq<Group>)
    ensures Count([g] + gs, 0) == |g.messages| + Count(gs, 0)
  {
    CountShift([g], gs, 0);
  }

  lemma ImportantUsersSnoc(s: seq<Message>, m: Message)
    ensures ImportantUsers(s + [m]) == ImportantUsers(s) + if IsImportantUser(m) then [m] else []
  {
    ImportantUsersConcat(s, [m]);
  }

  lemma PrependTwice(a: seq<Message>, b: seq<Message>, rest: Option<seq<Message>>)
    ensures Prepend(a, Prepend(b, rest)) == Prepend(a + b, rest)
  {
    if rest.Some? {
      assert a + (b + rest.value) == a + b + rest.value;
    }
  }

  lemma PrependNothing(s: seq<Message>, r: Option<seq<Message>>)
    ensures Prepend([], r) == r && Prepend(s, Some([])) == Some(s)
  {
    assert s + [] == s;
    if r.Some? {
      assert [] + r.value == r.value;
    }
  }

  lemma GroupsAssociate(a: seq<Group>, g: Group, b: seq<Group>)
    ensures a + ([g] + b) == a + [g] + b
  {
  }

  // ----- the methods' loops -----

  lemma SliceGrows(s: seq<Message>, i: nat, j: nat)
    requires i <= j < |s|
    ensures s[i..j] + [s[j]] == s[i..j + 1] && s[j..][1..] == s[j + 1..]
  {
  }

  /** A reply continues the group that is being collected, unless it answers nothing that was called. */
  lemma OneMoreReply(ids: set<CallId>, replies: seq<Message>, messages: seq<Message>, index: nat)
    requires index < |messages| && Missing !in ids
    ensures var next := messages[index];
            var all := ReplyIds(replies + [next]);
            ReplyRun(ids, ReplyIds(replies), messages[index..])
              == if !next.role.Tool? || next.replyTo !in ids then 0
                 else if ids <= all then 1
                 else 1 + ReplyRun(ids, all, messages[index + 1..])
  {
    var next := messages[index];
    ReplyIdsSnoc(replies, next);
    assert ReplyIds([next]) == if next.role.Tool? && next.replyTo != Missing then {next.replyTo} else {};
    assert messages[index..][1..] == messages[index + 1..];
  }

  /** The tool-call message at `start` and the replies that follow it. */
  method CollectGroup(messages: seq<Message>, start: nat) returns (group: seq<Message>, index: nat)
    requires start < |messages| && OpensGroup(messages[start])
    ensures index == start + GroupLength(messages[start..]) && group == messages[start..index]
  {
    var expected := ExpectedIds(messages[start]);
    var replies := [];
    index := start + 1;
    SliceGrows(messages, start, start);
    while index < |messages|
      invariant start < index <= |messages| && [messages[start]] + replies == messages[start..index]
      invariant GroupLength(messages[start..]) ==
                (index - start) + ReplyRun(expected, ReplyIds(replies), messages[index..])
    {
      var next := messages[index];
      OneMoreReply(expected, replies, messages, index);
      if !next.role.Tool? || next.replyTo !in expected {
        break;
      }
      SliceGrows(messages, start, index);
      OneMoreInGroup(messages[start], replies, next);
      replies := replies + [next];
      index := index + 1;
      if expected <= ReplyIds(replies) {
        break;
      }
    }
    group := [messages[start]] + replies;
  }

  lemma OneMoreInGroup(head: Message, replies: seq<Message>, next: Message)
    ensures [head] + (replies + [next]) == [head] + replies + [next]
  {
  }

  method FindGroups(messages: seq<Message>) returns (groups: seq<Group>)
    ensures groups == Groups(messages)
  {
    groups := [];
    var index := 0;
    assert messages[0..] == messages;
    while index < |messages|
      invariant index <= |messages|
      invariant groups + Groups(messages[index..]) == Groups(messages)
    {
      var group, next := [messages[index]], index + 1;
      if OpensGroup(messages[index]) {
        group, next := CollectGroup(messages, index);
      }
      GroupsFrom(messages, index, next);
      assert group == messages[index..next];
      GroupsAssociate(groups, Group(group), Groups(messages[next..]));
      groups := groups + [Group(group)];
      index := next;
    }
  }

  lemma GroupsFrom(messages: seq<Message>, index: nat, next: nat)
    requires index < |messages| && next == index + GroupLength(messages[index..])
    ensures Groups(messages[index..]) == [Group(messages[index..next])] + Groups(messages[next..])
  {
    assert messages[index..][..next - index] == messages[index..next];
    assert messages[index..][next - index..] == messages[next..];
  }

  lemma FilterStep(valid: seq<Message>, groups: seq<Group>, i: nat)
    requires i < |groups|
    ensures valid + Flatten(ValidOnly(groups[i..])) ==
            (if ValidGroup(groups[i].messages) then valid + groups[i].messages else valid)
            + Flatten(ValidOnly(groups[i + 1..]))
  {
    assert groups[i..][1..] == groups[i + 1..];
    var rest := ValidOnly(groups[i + 1..]);
    if ValidGroup(groups[i].messages) {
      assert ([groups[i]] + rest)[1..] == rest;
      assert valid + (groups[i].messages + Flatten(rest)) == valid + groups[i].messages + Flatten(rest);
    } else {
      assert [] + rest == rest;
    }
  }

  method ValidPromptMessages(messages: seq<Message>) returns (valid: seq<Message>)
    ensures valid == ValidPrompt(messages)
  {
    valid := [];
    var groups := FindGroups(messages);
    assert groups[0..] == groups;
    for i := 0 to |groups|
      invariant valid + Flatten(ValidOnly(groups[i..])) == ValidPrompt(messages)
    {
      FilterStep(valid, groups, i);
      if ValidGroup(groups[i].messages) {
        valid := valid + groups[i].messages;
      }
    }
    assert groups[|groups|..] == [];
  }

  /** What the scan has at `start`: the valid groups from there on, and the count of all of them. */
  ghost predicate Scanned(groups: seq<Group>, start: int, recent: seq<Group>, dropped: seq<Group>, count: int) {
    && 0 <= start <= |groups|
    && recent == ValidOnly(groups[start..])
    && Count(dropped, 0) + Count(recent, 0) == count == Count(groups, start)
  }

  lemma ValidFrom(groups: seq<Group>, i: nat)
    requires i < |groups|
    ensures ValidOnly(groups[i..])
            == (if ValidGroup(groups[i].messages) then [groups[i]] else []) + ValidOnly(groups[i + 1..])
    ensures Count(groups, i) == |groups[i].messages| + Count(groups, i + 1)
  {
    assert groups[i..][1..] == groups[i + 1..];
  }

  lemma NothingAhead(groups: seq<Group>)
    ensures [] + groups == groups
  {
  }

  lemma ScanDrops(groups: seq<Group>, start: nat, recent: seq<Group>, dropped: seq<Group>, count: int)
    requires start < |groups| && Scanned(groups, start + 1, recent, dropped, count)
    requires !ValidGroup(groups[start].messages)
    ensures Scanned(groups, start, recent, dropped + [groups[start]], count + |groups[start].messages|)
  {
    ValidFrom(groups, start);
    CountSnoc(dropped, groups[start]);
    NothingAhead(recent);
  }

  lemma ScanKeeps(groups: seq<Group>, start: nat, recent: seq<Group>, dropped: seq<Group>, count: int)
    requires start < |groups| && Scanned(groups, start + 1, recent, dropped, count)
    requires ValidGroup(groups[start].messages)
    ensures Scanned(groups, start, [groups[start]] + recent, dropped, count + |groups[start].messages|)
  {
    ValidFrom(groups, start);
    CountCons(groups[start], recent);
  }

  /** The backward scan of a trim: the recent groups, how many messages of invalid groups were
      dropped, and where the recent part starts. */
  method ScanRecent(groups: seq<Group>, limit: int)
      returns (recent: seq<Group>, dropped: seq<Group>, start: nat)
    ensures start == RecentStart(groups, limit, |groups|, false)
    ensures recent == ValidOnly(groups[start..])
    ensures Count(dropped, 0) + Count(recent, 0) == Count(groups, start)
  {
    recent, dropped := [], [];
    start := |groups|;
    var count := 0;
    var index := |groups|;
    assert groups[|groups|..] == [];
    while index > 0
      invariant index == start && Scanned(groups, start, recent, dropped, count)
      invariant RecentStart(groups, limit, |groups|, false) == RecentStart(groups, limit, index, recent != [])
    {
      index := index - 1;
      var group := groups[index];
      if !ValidGroup(group.messages) {
        ScanDrops(groups, index, recent, dropped, count);
        dropped := dropped + [group];
        count := count + |group.messages|;
        start := index;
        if count >= limit {
          break;
        }
        continue;
      }
      if count >= limit && recent != [] {
        break;
      }
      ScanKeeps(groups, index, recent, dropped, count);
      recent := [group] + recent;
      count := count + |group.messages|;
      start := index;
    }
  }

  /** The pass over the old groups, which keeps the user messages and counts the others. */
  method KeepUsers(past: seq<Group>) returns (keep: seq<Message>, dropped: int)
    ensures keep == ImportantUsers(Flatten(past))
    ensures dropped == |Flatten(past)| - |keep|
  {
    keep, dropped := [], 0;
    for k := 0 to |past|
      invariant keep == ImportantUsers(Flatten(past[..k]))
      invariant dropped == |Flatten(past[..k])| - |keep|
    {
      var group := past[k].messages;
      ghost var before := Flatten(past[..k]);
      assert before + group[..0] == before;
      for j := 0 to |group|
        invariant keep == ImportantUsers(before + group[..j])
        invariant dropped == |before + group[..j]| - |keep|
      {
        ImportantUsersSnoc(before + group[..j], group[j]);
        assert before + group[..j + 1] == (before + group[..j]) + [group[j]];
        if IsImportantUser(group[j]) {
          keep := keep + [group[j]];
        } else {
          dropped := dropped + 1;
        }
      }
      assert group[..|group|] == group;
      FlattenSnoc(past, k);
    }
    assert past[..|past|] == past;
  }

  method JoinGroups(front: seq<Message>, groups: seq<Group>) returns (joined: seq<Message>)
    ensures joined == front + Flatten(groups)
  {
    joined := front;
    for k := 0 to |groups|
      invariant joined == front + Flatten(groups[..k])
    {
      FlattenSnoc(groups, k);
      joined := joined + groups[k].messages;
    }
    assert groups[..|groups|] == groups;
  }

  /** The pairs of the run of wait turns that starts at `from`; a stray reply behind them raises. */
  method CollectRun(messages: seq<Message>, from: nat)
      returns (pairs: seq<(Message, Message)>, i: nat, raised: bool)
    requires from <= |messages|
    ensures |pairs| == WaitRun(messages[from..]) && i == from + 2 * |pairs| <= |messages|
    ensures raised <==> StrayHead(messages[i..])
    ensures forall k :: 0 <= k < |pairs| ==> pairs[k] == (messages[from + 2 * k], messages[from + 2 * k + 1])
  {
    pairs, i := [], from;
    while i + 1 < |messages| && IsWaitPair(messages[i], messages[i + 1])
      invariant i == from + 2 * |pairs| <= |messages|
      invariant WaitRun(messages[from..]) == |pairs| + WaitRun(messages[i..])
      invariant forall k :: 0 <= k < |pairs| ==> pairs[k] == (messages[from + 2 * k], messages[from + 2 * k + 1])
    {
      assert messages[i..][2..] == messages[i + 2..];
      pairs := pairs + [(messages[i], messages[i + 1])];
      i := i + 2;
    }
    raised := i + 1 < |messages| && IsWaitCall(messages[i], messages[i + 1]) && messages[i + 1].content.OtherJson?;
  }

  method JoinPairs(front: seq<Message>, pairs: seq<(Message, Message)>, ghost flat: seq<Message>)
      returns (joined: seq<Message>)
    requires |flat| == 2 * |pairs|
    requires forall k :: 0 <= k < |pairs| ==> pairs[k] == (flat[2 * k], flat[2 * k + 1])
    ensures joined == front + flat
  {
    joined := front;
    for k := 0 to |pairs|
      invariant joined == front + flat[..2 * k]
    {
      assert flat[..2 * (k + 1)] == flat[..2 * k] + [flat[2 * k], flat[2 * k + 1]];
      joined := joined + [pairs[k].0, pairs[k].1];
    }
    assert flat[..2 * |pairs|] == flat;
  }

  lemma OneMessage(s: seq<Message>, i: nat, least: int, keep: int)
    requires i < |s| && WaitRun(s[i..]) == 0 && !StrayHead(s[i..])
    ensures CompactWaits(s[i..], least, keep) == Prepend([s[i]], CompactWaits(s[i + 1..], least, keep))
  {
    assert s[i..][1..] == s[i + 1..];
  }

  /** What stands for a run of wait turns: the run itself, or a summary and its last pairs. */
  function RunView(run: seq<Message>, least: int, keep: int): Option<seq<Message>>
    requires run != [] && 2 * WaitRun(run) == |run|
  {
    var n := WaitRun(run);
    var cut := SplitRun(n, keep);
    if n < least then Some(run)
    else if cut == 0 then None
    else
      RunMember(run, cut - 1);
      Some([WaitSummary(cut, run[2 * cut - 1])] + run[2 * cut..])
  }

  lemma OneRun(s: seq<Message>, i: nat, n: nat, least: int, keep: int)
    requires i < |s| && 0 < n == WaitRun(s[i..])
    ensures 2 * WaitRun(s[i..i + 2 * n]) == 2 * n
    ensures CompactWaits(s[i..], least, keep) ==
            match RunView(s[i..i + 2 * n], least, keep)
            case None => None
            case Some(view) => Prepend(view, CompactWaits(s[i + 2 * n..], least, keep))
  {
    var rest, cut := s[i..], SplitRun(n, keep);
    RunOfPrefix(rest, n);
    assert rest[..2 * n] == s[i..i + 2 * n] && rest[2 * n..] == s[i + 2 * n..];
    assert rest[2 * cut..2 * n] == rest[..2 * n][2 * cut..];
    if cut > 0 {
      RunMember(rest, cut - 1);
    }
  }

  lemma RunThenStray(s: seq<Message>, i: nat, n: nat, least: int, keep: int)
    requires i < |s| && n == WaitRun(s[i..]) && StrayHead(s[i + 2 * n..])
    ensures CompactWaits(s[i..], least, keep).None?
  {
    if n > 0 {
      OneRun(s, i, n, least, keep);
    }
  }

  lemma PairsOfSlice(pairs: seq<(Message, Message)>, s: seq<Message>, i: nat)
    requires i + 2 * |pairs| <= |s|
    requires forall k :: 0 <= k < |pairs| ==> pairs[k] == (s[i + 2 * k], s[i + 2 * k + 1])
    ensures var run := s[i..i + 2 * |pairs|];
            forall k :: 0 <= k < |pairs| ==> pairs[k] == (run[2 * k], run[2 * k + 1])
  {
  }

  method ViewRun(pairs: seq<(Message, Message)>, least: int, keep: int, front: seq<Message>, ghost run: seq<Message>)
      returns (r: Option<seq<Message>>)
    requires pairs != [] && |run| == 2 * |pairs| == 2 * WaitRun(run)
    requires forall k :: 0 <= k < |pairs| ==> pairs[k] == (run[2 * k], run[2 * k + 1])
    ensures r == match RunView(run, least, keep) case None => None case Some(view) => Some(front + view)
  {
    if |pairs| < least {
      var joined := JoinPairs(front, pairs, run);
      return Some(joined);
    }
    var cut := SplitRun(|pairs|, keep);
    if cut == 0 {
      return None;
    }
    RunMember(run, cut - 1);
    assert pairs[cut - 1] == (run[2 * (cut - 1)], run[2 * (cut - 1) + 1]);
    var summary := WaitSummary(cut, pairs[cut - 1].1);
    var joined := JoinPairs(front + [summary], pairs[cut..], run[2 * cut..]);
    assert joined == front + ([summary] + run[2 * cut..]);
    return Some(joined);
  }

  /** What is done, followed by what compaction makes of the rest, is what it makes of all. */
  ghost predicate Compacting(compacted: seq<Message>, s: seq<Message>, i: int, least: int, keep: int) {
    0 <= i <= |s| && Prepend(compacted, CompactWaits(s[i..], least, keep)) == CompactWaits(s, least, keep)
  }

  lemma CompactingStarts(s: seq<Message>, least: int, keep: int)
    ensures Compacting([], s, 0, least, keep)
  {
    assert s[0..] == s;
    PrependNothing([], CompactWaits(s, least, keep));
  }

  lemma CompactingEnds(compacted: seq<Message>, s: seq<Message>, least: int, keep: int)
    requires Compacting(compacted, s, |s|, least, keep)
    ensures CompactWaits(s, least, keep) == Some(compacted)
  {
    assert s[|s|..] == [];
    PrependNothing(compacted, None);
  }

  lemma MessageStep(compacted: seq<Message>, s: seq<Message>, i: nat, least: int, keep: int)
    requires Compacting(compacted, s, i, least, keep)
    requires i < |s| && WaitRun(s[i..]) == 0 && !StrayHead(s[i..])
    ensures Compacting(compacted + [s[i]], s, i + 1, least, keep)
  {
    OneMessage(s, i, least, keep);
    PrependTwice(compacted, [s[i]], CompactWaits(s[i + 1..], least, keep));
  }

  lemma RunStep(compacted: seq<Message>, s: seq<Message>, i: nat, n: nat, least: int, keep: int)
    requires Compacting(compacted, s, i, least, keep)
    requires i < |s| && 0 < n == WaitRun(s[i..])
    ensures 2 * WaitRun(s[i..i + 2 * n]) == 2 * n
    ensures match RunView(s[i..i + 2 * n], least, keep)
            case None => CompactWaits(s, least, keep).None?
            case Some(view) => Compacting(compacted + view, s, i + 2 * n, least, keep)
  {
    OneRun(s, i, n, least, keep);
    var view := RunView(s[i..i + 2 * n], least, keep);
    if view.Some? {
      PrependTwice(compacted, view.value, CompactWaits(s[i + 2 * n..], least, keep));
    }
  }

  lemma StrayStep(compacted: seq<Message>, s: seq<Message>, i: nat, n: nat, least: int, keep: int)
    requires Compacting(compacted, s, i, least, keep)
    requires i < |s| && n == WaitRun(s[i..]) && StrayHead(s[i + 2 * n..])
    ensures CompactWaits(s, least, keep).None?
  {
    RunThenStray(s, i, n, least, keep);
  }

  method CompactMessages(s: seq<Message>, least: int, keep: int) returns (r: Option<seq<Message>>)
    ensures r == CompactWaits(s, least, keep)
  {
    var compacted := [];
    var i := 0;
    CompactingStarts(s, least, keep);
    while i < |s|
      invariant Compacting(compacted, s, i, least, keep)
    {
      var pairs, next, raised := CollectRun(s, i);
      if raised {
        StrayStep(compacted, s, i, |pairs|, least, keep);
        return None;
      }
      if |pairs| == 0 {
        MessageStep(compacted, s, i, least, keep);
        compacted := compacted + [s[i]];
        i := i + 1;
      } else {
        RunStep(compacted, s, i, |pairs|, least, keep);
        PairsOfSlice(pairs, s, i);
        var more := ViewRun(pairs, least, keep, compacted, s[i..next]);
        if more.None? {
          return None;
        }
        compacted := more.value;
        i := next;
      }
    }
    CompactingEnds(compacted, s, least, keep);
    return Some(compacted);
  }

  lemma ValidSnoc(groups: seq<Group>, index: nat)
    requires index < |groups|
    ensures ValidOnly(groups[..index + 1])
            == ValidOnly(groups[..index]) + if ValidGroup(groups[index].messages) then [groups[index]] else []
  {
    assert groups[..index + 1] == groups[..index] + [groups[index]];
    ValidOnlyConcat(groups[..index], [groups[index]]);
    assert ValidOnly([groups[index]])
           == (if ValidGroup(groups[index].messages) then [groups[index]] else []) + ValidOnly([]);
  }

  lemma LastOfPrefix(vs: seq<Group>, k: nat, front: seq<Group>, g: Group)
    requires k <= |vs| && vs[..k] == front + [g]
    ensures vs[k - 1] == g && vs[..k - 1] == front && vs[k - 1..] == [g] + vs[k..]
    ensures Count(vs, k - 1) == |g.messages| + Count(vs, k)
  {
    assert vs[..k][k - 1] == g && vs[..k][..k - 1] == front;
  }

  /** The valid groups among the first `index` are the first `k` valid groups; the others were selected. */
  ghost predicate Selecting(groups: seq<Group>, index: int, vs: seq<Group>, k: int, selected: seq<Group>, count: int) {
    && 0 <= index <= |groups| && 0 <= k <= |vs|
    && ValidOnly(groups[..index]) == vs[..k]
    && selected == vs[k..] && count == Count(vs, k)
  }

  lemma SkipGroup(groups: seq<Group>, index: nat, vs: seq<Group>, k: nat, selected: seq<Group>, count: int)
    requires index < |groups| && Selecting(groups, index + 1, vs, k, selected, count)
    requires !ValidGroup(groups[index].messages)
    ensures Selecting(groups, index, vs, k, selected, count)
  {
    ValidSnoc(groups, index);
  }

  lemma TakeGroup(groups: seq<Group>, index: nat, vs: seq<Group>, k: nat, selected: seq<Group>, count: int)
    requires index < |groups| && Selecting(groups, index + 1, vs, k, selected, count)
    requires ValidGroup(groups[index].messages)
    ensures k > 0 && vs[k - 1] == groups[index]
    ensures Selecting(groups, index, vs, k - 1, [groups[index]] + selected, count + |groups[index].messages|)
  {
    ValidSnoc(groups, index);
    LastOfPrefix(vs, k, ValidOnly(groups[..index]), groups[index]);
  }

  lemma WindowStep(vs: seq<Group>, limit: int, k: nat, selected: seq<Group>, count: int)
    requires 0 < k <= |vs| && selected == vs[k..] && count == Count(vs, k)
    ensures var size := |vs[k - 1].messages|;
            WindowStart(vs, limit, k) ==
            if selected != [] && count + size > limit then k
            else if count + size >= limit then k - 1
            else WindowStart(vs, limit, k - 1)
  {
    assert Count(vs, k - 1) == |vs[k - 1].messages| + Count(vs, k);
  }

  lemma AllSelected(groups: seq<Group>, vs: seq<Group>, k: nat, selected: seq<Group>, count: int, limit: int)
    requires Selecting(groups, 0, vs, k, selected, count)
    ensures k == 0 && WindowStart(vs, limit, k) == 0
  {
    assert groups[..0] == [] && |vs[..k]| == k;
  }

  method SelectRecent(groups: seq<Group>, limit: int) returns (selected: seq<Group>)
    ensures var vs := ValidOnly(groups); selected == vs[WindowStart(vs, limit, |vs|)..]
  {
    ghost var vs := ValidOnly(groups);
    ghost var k := |vs|;
    selected := [];
    var count := 0;
    var index := |groups|;
    assert groups[..|groups|] == groups;
    while index > 0
      invariant Selecting(groups, index, vs, k, selected, count)
      invariant WindowStart(vs, limit, |vs|) == WindowStart(vs, limit, k)
    {
      index := index - 1;
      var group := groups[index];
      if !ValidGroup(group.messages) {
        SkipGroup(groups, index, vs, k, selected, count);
        continue;
      }
      TakeGroup(groups, index, vs, k, selected, count);
      WindowStep(vs, limit, k, selected, count);
      if selected != [] && count + |group.messages| > limit {
        return;
      }
      selected := [group] + selected;
      count := count + |group.messages|;
      k := k - 1;
      if count >= limit {
        return;
      }
    }
    AllSelected(groups, vs, k, selected, count, limit);
  }

  class HistoryManager {
    const maxMessages: int
    var messages: seq<Message>

    constructor (maxMessages: int := 40)
      ensures this.maxMessages == maxMessages && messages == []
    {
      this.maxMessages := maxMessages;
      messages := [];
    }

    method Append(message: Message)
      modifies this
      ensures messages == old(messages) + [message]
    {
      messages := messages + [message];
    }

    method TrimPreservingUserMessages()
      modifies this
      ensures messages == Trimmed(old(messages), maxMessages)
    {
      if |messages| <= maxMessages {
        return;
      }
      var groups := FindGroups(messages);
      var recent, dropped, start := ScanRecent(groups, maxMessages);
      var keep, droppedUsers := KeepUsers(groups[..start]);
      var droppedCount := Count(dropped, 0) + droppedUsers;
      ghost var parts := TrimParts(groups, maxMessages);
      TrimPartsGood(messages, maxMessages);
      assert parts == Parts(keep, droppedCount, recent);
      if droppedCount != 0 {
        keep := keep + [TrimSummary(droppedCount)];
      }
      assert keep == parts.users + Summary(parts.dropped);
      messages := JoinGroups(keep, recent);
    }

    /** `None` is an exception: the IndexError of summarising an empty run, or the AttributeError of a stray
        reply. */
    method ForPrompt(compactWaits: bool := false, waitCompactMin: int := 4, waitPairKeep: int := 2)
        returns (prompt: Option<seq<Message>>)
      ensures prompt == if compactWaits then CompactWaits(ValidPrompt(messages), waitCompactMin, waitPairKeep)
                        else Some(ValidPrompt(messages))
    {
      var valid := ValidPromptMessages(messages);
      if !compactWaits {
        return Some(valid);
      }
      prompt := CompactMessages(valid, waitCompactMin, waitPairKeep);
    }

    method RecentForPrompt(limit: int) returns (recent: seq<Message>)
      ensures recent == RecentWindow(messages, limit)
    {
      if limit <= 0 {
        return [];
      }
      var groups := FindGroups(messages);
      var selected := SelectRecent(groups, limit);
      recent := JoinGroups([], selected);
    }
  }
}
