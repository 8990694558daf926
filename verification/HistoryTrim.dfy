/** Trimming a history to its recent groups: what is kept, what is dropped, and that trimming a
    second time changes nothing but the number in the summary. */
module HistoryTrim {
  import opened Messages
  import opened MessageGroups

  /** The number of messages in the groups from position `i` on. */
  function Count(gs: seq<Group>, i: nat): nat
    decreases |gs| - i
  {
    if i >= |gs| then 0 else |gs[i].messages| + Count(gs, i + 1)
  }

  lemma {:induction false} CountIsLength(gs: seq<Group>, i: nat)
    requires i <= |gs|
    ensures Count(gs, i) == |Flatten(gs[i..])|
    decreases |gs| - i
  {
    if i < |gs| {
      CountIsLength(gs, i + 1);
    }
  }

  /** Where the recent part begins. The scan walks back from group `i`; `taken` says that a valid
      group was kept already. Invalid groups count towards the limit although they are dropped. */
  function RecentStart(gs: seq<Group>, limit: int, i: nat, taken: bool): (start: nat)
    requires i <= |gs|
    ensures start <= i
  {
    if i == 0 then 0
    else if !ValidGroup(gs[i - 1].messages) then
      if Count(gs, i - 1) >= limit then i - 1 else RecentStart(gs, limit, i - 1, taken)
    else if Count(gs, i) >= limit && taken then i
    else RecentStart(gs, limit, i - 1, true)
  }

  /** The pieces of a trimmed history. */
  datatype Parts = Parts(users: seq<Message>, dropped: int, recent: seq<Group>)

  function TrimParts(gs: seq<Group>, limit: int): Parts {
    var start := RecentStart(gs, limit, |gs|, false);
    var past, users, recent := Flatten(gs[..start]), ImportantUsers(Flatten(gs[..start])), ValidOnly(gs[start..]);
    Parts(users, (Count(gs, start) - Count(recent, 0)) + (|past| - |users|), recent)
  }

  function TrimSummary(dropped: nat): Message {
    Message(System, TrimNote(dropped), [], Missing)
  }

  function Summary(dropped: int): seq<Message> {
    if dropped > 0 then [TrimSummary(dropped)] else []
  }

  function Assemble(p: Parts): seq<Message> {
    p.users + Summary(p.dropped) + Flatten(p.recent)
  }

  function Trimmed(messages: seq<Message>, limit: int): seq<Message> {
    if |messages| <= limit then messages else Assemble(TrimParts(Groups(messages), limit))
  }

  // ----- one trim -----

  /** Conservation: every message is in the output or counted in the summary. */
  lemma TrimConserves(messages: seq<Message>, limit: int)
    ensures var p := TrimParts(Groups(messages), limit);
            |messages| == |Assemble(p)| - (if p.dropped > 0 then 1 else 0) + p.dropped
  {
    var gs := Groups(messages);
    var start := RecentStart(gs, limit, |gs|, false);
    GroupsLossless(messages);
    SplitFlatten(gs, start);
    CountIsLength(gs, start);
    CountIsLength(ValidOnly(gs[start..]), 0);
    AssembleLength(TrimParts(gs, limit));
  }

  lemma AssembleLength(p: Parts)
    ensures |Assemble(p)| == |p.users| + (if p.dropped > 0 then 1 else 0) + |Flatten(p.recent)|
  {
  }

  /** Groups of messages other than tool-call messages. */
  function Singles(s: seq<Message>): seq<Group> {
    if s == [] then [] else [Group([s[0]])] + Singles(s[1..])
  }

  lemma {:induction false} SinglesFlat(s: seq<Message>)
    ensures Flatten(Singles(s)) == s
  {
    if s != [] {
      SinglesFlat(s[1..]);
      FlattenCons(Group([s[0]]), Singles(s[1..]));
    }
  }

  lemma {:induction false} SinglesAt(s: seq<Message>)
    ensures |Singles(s)| == |s|
    ensures forall i :: 0 <= i < |s| ==> Singles(s)[i] == Group([s[i]])
  {
    if s != [] {
      SinglesAt(s[1..]);
      forall i | 0 < i < |s| ensures Singles(s)[i] == Group([s[i]]) {
        assert Singles(s)[i] == Singles(s[1..])[i - 1];
      }
    }
  }

  lemma {:induction false} SinglesGroups(s: seq<Message>)
    requires forall i :: 0 <= i < |s| ==> !OpensGroup(s[i]) && !s[i].role.Tool?
    ensures Groups(s) == Singles(s)
  {
    if s != [] {
      SinglesGroups(s[1..]);
      assert s[..1] == [s[0]];
    }
  }

  lemma SinglesParse(s: seq<Message>)
    requires forall i :: 0 <= i < |s| ==> !OpensGroup(s[i]) && !s[i].role.Tool?
    ensures Flatten(Singles(s)) == s && Groups(s) == Singles(s) && AllValid(Singles(s))
    ensures |Singles(s)| == |s|
    ensures forall i :: 0 <= i < |s| ==> Singles(s)[i] == Group([s[i]])
  {
    SinglesFlat(s);
    SinglesAt(s);
    SinglesGroups(s);
  }

  /** The groups of a trimmed history, read off its pieces. */
  function PartGroups(p: Parts): seq<Group> {
    Singles(p.users + Summary(p.dropped)) + p.recent
  }

  ghost predicate GoodParts(p: Parts) {
    && AllImportant(p.users)
    && ImportantUsers(p.users) == p.users
    && AllValid(p.recent)
    && AllUnits(p.recent)
    && p.dropped >= 0
  }

  lemma TrimPartsGood(messages: seq<Message>, limit: int)
    ensures GoodParts(TrimParts(Groups(messages), limit))
  {
    var gs := Groups(messages);
    var start := RecentStart(gs, limit, |gs|, false);
    GroupsAreUnits(messages);
    ValidOnlyFacts(gs[start..]);
    ValidOnlySubsequence(gs[start..]);
    CountIsLength(gs, start);
    CountIsLength(ValidOnly(gs[start..]), 0);
    ImportantUsersSubsequence(Flatten(gs[..start]));
  }

  lemma AssembleParses(p: Parts)
    requires GoodParts(p)
    ensures Groups(Assemble(p)) == PartGroups(p) && AllValid(PartGroups(p)) && Flatten(PartGroups(p)) == Assemble(p)
  {
    var front := p.users + Summary(p.dropped);
    SinglesParse(front);
    forall i | 0 <= i < |front| ensures Groups([front[i]]) == [Singles(front)[i]] {
      assert [front[i]][..1] == [front[i]];
    }
    UniqueReparse(PartGroups(p));
    FlattenConcat(Singles(front), p.recent);
  }

  /** A trim that runs leaves only valid groups, so filtering its result changes nothing. */
  lemma TrimIsSafe(messages: seq<Message>, limit: int)
    requires |messages| > limit
    ensures WellFormed(Trimmed(messages, limit))
    ensures ValidPrompt(Trimmed(messages, limit)) == Trimmed(messages, limit)
  {
    var p := TrimParts(Groups(messages), limit);
    TrimPartsGood(messages, limit);
    AssembleParses(p);
    ValidOnlyOfValid(PartGroups(p));
    WellFormedMeaning(Assemble(p));
  }

  lemma {:induction false} ImportantInGroups(gs: seq<Group>)
    requires AllUnits(gs)
    ensures ImportantUsers(Flatten(ValidOnly(gs))) == ImportantUsers(Flatten(gs))
  {
    if gs != [] {
      ImportantInGroups(gs[1..]);
      ImportantUsersConcat(gs[0].messages, Flatten(gs[1..]));
      ImportantUsersConcat(gs[0].messages, Flatten(ValidOnly(gs[1..])));
      if ValidGroup(gs[0].messages) {
        assert ValidOnly(gs)[1..] == ValidOnly(gs[1..]);
      } else {
        InvalidGroupHasNoUser(gs[0].messages);
        assert ValidOnly(gs) == ValidOnly(gs[1..]);
      }
    }
  }

  lemma InvalidGroupHasNoUser(g: seq<Message>)
    requires Groups(g) == [Group(g)] && !ValidGroup(g)
    ensures ImportantUsers(g) == []
  {
    if g != [] {
      assert GroupLength(g) == |g| by { assert Groups(g)[0] == Group(g[..GroupLength(g)]); }
      if OpensGroup(g[0]) {
        TakenAreReplies(ExpectedIds(g[0]), {}, g[1..]);
        NoUsersInReplies(g[1..]);
      } else {
        assert g[1..] == [];
      }
    }
  }

  lemma {:induction false} TakenAreReplies(ids: set<CallId>, seen: set<CallId>, s: seq<Message>)
    ensures forall k :: 0 <= k < ReplyRun(ids, seen, s) ==> s[k].role.Tool?
    decreases |s|
  {
    if ReplyRun(ids, seen, s) > 1 {
      TakenAreReplies(ids, seen + {s[0].replyTo}, s[1..]);
    }
  }

  lemma {:induction false} NoUsersInReplies(s: seq<Message>)
    requires forall i :: 0 <= i < |s| ==> s[i].role.Tool?
    ensures ImportantUsers(s) == []
  {
    if s != [] {
      NoUsersInReplies(s[1..]);
    }
  }

  lemma SplitFlatten(gs: seq<Group>, i: nat)
    requires i <= |gs|
    ensures Flatten(gs) == Flatten(gs[..i]) + Flatten(gs[i..])
  {
    assert gs == gs[..i] + gs[i..];
    FlattenConcat(gs[..i], gs[i..]);
  }

  lemma AssembleImportant(p: Parts)
    ensures ImportantUsers(Assemble(p)) == ImportantUsers(p.users) + ImportantUsers(Flatten(p.recent))
  {
    ImportantUsersConcat(p.users, Summary(p.dropped));
    ImportantUsersConcat(p.users + Summary(p.dropped), Flatten(p.recent));
  }

  /** No important user message is ever lost, moved or duplicated. */
  lemma TrimKeepsUsers(messages: seq<Message>, limit: int)
    ensures ImportantUsers(Trimmed(messages, limit)) == ImportantUsers(messages)
  {
    var gs := Groups(messages);
    var start := RecentStart(gs, limit, |gs|, false);
    GroupsLossless(messages);
    GroupsAreUnits(messages);
    SplitFlatten(gs, start);
    ImportantUsersSubsequence(Flatten(gs[..start]));
    ImportantUsersConcat(Flatten(gs[..start]), Flatten(gs[start..]));
    ImportantInGroups(gs[start..]);
    AssembleImportant(TrimParts(gs, limit));
  }

  /** Without its summary, a trimmed history is made of input messages in their order. */
  lemma TrimKeepsOrder(messages: seq<Message>, limit: int)
    ensures var p := TrimParts(Groups(messages), limit); IsSubsequence(p.users + Flatten(p.recent), messages)
  {
    var gs := Groups(messages);
    var p := TrimParts(gs, limit);
    var start := RecentStart(gs, limit, |gs|, false);
    GroupsLossless(messages);
    SplitFlatten(gs, start);
    ImportantUsersSubsequence(Flatten(gs[..start]));
    ValidOnlySubsequence(gs[start..]);
    SubsequenceConcat(p.users, Flatten(gs[..start]), Flatten(p.recent), Flatten(gs[start..]));
  }

  ghost predicate GroupsAtMost(gs: seq<Group>, largest: nat) {
    forall i :: 0 <= i < |gs| ==> |gs[i].messages| <= largest
  }

  /** The recent part exceeds the limit by less than one group. */
  lemma TrimIsBounded(messages: seq<Message>, limit: int, largest: nat)
    requires limit >= 1 && GroupsAtMost(Groups(messages), largest)
    ensures |Flatten(TrimParts(Groups(messages), limit).recent)| <= limit - 1 + largest
  {
    var gs := Groups(messages);
    assert gs[|gs|..] == [];
    RecentBounded(gs, limit, |gs|, false, largest);
  }

  lemma ValidOnlyStep(gs: seq<Group>, i: nat)
    requires 0 < i <= |gs|
    ensures ValidOnly(gs[i - 1..]) == (if ValidGroup(gs[i - 1].messages) then [gs[i - 1]] else []) + ValidOnly(gs[i..])
    ensures Flatten(gs[i - 1..]) == gs[i - 1].messages + Flatten(gs[i..])
    ensures ValidGroup(gs[i - 1].messages) ==>
        Flatten(ValidOnly(gs[i - 1..])) == gs[i - 1].messages + Flatten(ValidOnly(gs[i..]))
  {
    assert gs[i - 1..][1..] == gs[i..];
    assert ([gs[i - 1]] + ValidOnly(gs[i..]))[1..] == ValidOnly(gs[i..]);
  }

  /** One more group in front of the valid ones, which are no longer than all. */
  lemma ValidLength(gs: seq<Group>, i: nat)
    requires 0 < i <= |gs|
    ensures |Flatten(ValidOnly(gs[i - 1..]))| == |Flatten(ValidOnly(gs[i..]))|
            + if ValidGroup(gs[i - 1].messages) then |gs[i - 1].messages| else 0
    ensures |Flatten(ValidOnly(gs[i..]))| <= Count(gs, i)
  {
    ValidOnlyStep(gs, i);
    ValidOnlySubsequence(gs[i..]);
    CountIsLength(gs, i);
    if !ValidGroup(gs[i - 1].messages) {
      assert ValidOnly(gs[i - 1..]) == ValidOnly(gs[i..]);
    }
  }

  lemma {:induction false} RecentBounded(gs: seq<Group>, limit: int, i: nat, taken: bool, largest: nat)
    requires i <= |gs| && limit >= 1 && GroupsAtMost(gs, largest)
    requires |Flatten(ValidOnly(gs[i..]))| <= limit - 1 + largest
    requires taken || Count(gs, i) < limit
    ensures |Flatten(ValidOnly(gs[RecentStart(gs, limit, i, taken)..]))| <= limit - 1 + largest
  {
    if i > 0 {
      ValidLength(gs, i);
      if !ValidGroup(gs[i - 1].messages) {
        if Count(gs, i - 1) < limit {
          RecentBounded(gs, limit, i - 1, taken, largest);
        }
      } else if !(Count(gs, i) >= limit && taken) {
        assert |gs[i - 1].messages| <= largest;
        RecentBounded(gs, limit, i - 1, true, largest);
      }
    }
  }

  // ----- where a trim cuts -----

  lemma {:induction false} CountMonotone(gs: seq<Group>, i: nat, j: nat)
    requires i <= j
    ensures Count(gs, j) <= Count(gs, i)
    decreases j - i
  {
    if i < j {
      CountMonotone(gs, i + 1, j);
    }
  }

  /** The group with which the messages from there on, those of invalid groups included, first reach the
      limit, counted from the end. */
  ghost predicate FillsAt(gs: seq<Group>, limit: int, s: nat) {
    s < |gs| && |Flatten(gs[s + 1..])| < limit <= |Flatten(gs[s..])|
  }

  /** A trim cuts in front of that group, or takes along the one before it, if that is invalid and the group
      itself is not. */
  function CutAt(gs: seq<Group>, s: nat): (start: nat)
    requires s < |gs|
    ensures start <= s
  {
    if ValidGroup(gs[s].messages) && s > 0 && !ValidGroup(gs[s - 1].messages) then s - 1 else s
  }

  lemma {:induction false} ScanReaches(gs: seq<Group>, limit: int, i: nat, taken: bool, s: nat)
    requires s < i <= |gs| && Count(gs, s + 1) < limit <= Count(gs, s)
    ensures RecentStart(gs, limit, i, taken) == CutAt(gs, s)
    decreases i
  {
    CountMonotone(gs, s + 1, i);
    if i > s + 1 {
      CountMonotone(gs, s + 1, i - 1);
      ScanReaches(gs, limit, i - 1, taken || ValidGroup(gs[i - 1].messages), s);
    }
  }

  lemma {:induction false} FillingGroup(gs: seq<Group>, limit: int, i: nat) returns (s: nat)
    requires i <= |gs| && Count(gs, i) < limit <= Count(gs, 0)
    ensures s < |gs| && Count(gs, s + 1) < limit <= Count(gs, s)
  {
    s := i - 1;
    if Count(gs, s) < limit {
      s := FillingGroup(gs, limit, s);
    }
  }

  lemma FillsOnce(gs: seq<Group>, limit: int, s: nat, t: nat)
    requires FillsAt(gs, limit, s) && FillsAt(gs, limit, t)
    ensures s == t
  {
    CountIsLength(gs, s);
    CountIsLength(gs, s + 1);
    CountIsLength(gs, t);
    CountIsLength(gs, t + 1);
    if s < t {
      CountMonotone(gs, s + 1, t);
    } else if t < s {
      CountMonotone(gs, t + 1, s);
    }
  }

  /** A history within the limit is left alone, and a longer one is put together from its parts. */
  lemma TrimsOnlyAbove(messages: seq<Message>, limit: int)
    ensures |messages| <= limit ==> Trimmed(messages, limit) == messages
    ensures |messages| > limit ==>
              var p := TrimParts(Groups(messages), limit);
              Trimmed(messages, limit) ==
              p.users + (if p.dropped > 0 then [TrimSummary(p.dropped)] else []) + Flatten(p.recent)
  {
  }

  /** Where the scan stops: all that is behind the cut is kept if it is valid, and of what is in front of it
      the important user messages. The group that fills the limit is the only one that does. */
  lemma TrimCutsExactly(messages: seq<Message>, limit: int) returns (s: nat)
    requires 1 <= limit < |messages|
    ensures var gs := Groups(messages);
            && FillsAt(gs, limit, s) && (forall t: nat :: FillsAt(gs, limit, t) ==> t == s)
            && var users, recent := ImportantUsers(Flatten(gs[..CutAt(gs, s)])), ValidOnly(gs[CutAt(gs, s)..]);
            && TrimParts(gs, limit).users == users && TrimParts(gs, limit).recent == recent
            && RecentStart(gs, limit, |gs|, false) == CutAt(gs, s)
  {
    var gs := Groups(messages);
    GroupsLossless(messages);
    CountIsLength(gs, 0);
    assert gs[0..] == gs;
    s := FillingGroup(gs, limit, |gs|);
    CountIsLength(gs, s);
    CountIsLength(gs, s + 1);
    ScanReaches(gs, limit, |gs|, false, s);
    forall t: nat | FillsAt(gs, limit, t) ensures t == s {
      FillsOnce(gs, limit, s, t);
    }
  }

  // ----- two trims -----

  /** Every proper, non-empty suffix of the kept groups is below the limit. */
  ghost predicate SuffixesBelow(recent: seq<Group>, limit: int) {
    forall j :: 0 < j < |recent| ==> Count(recent, j) < limit
  }

  lemma ConsSuffixesBelow(g: Group, v: seq<Group>, limit: int)
    requires SuffixesBelow(v, limit) && (v != [] ==> Count(v, 0) < limit)
    ensures SuffixesBelow([g] + v, limit)
  {
    var w := [g] + v;
    forall j | 0 < j < |w| ensures Count(w, j) < limit {
      CountShift([g], v, j - 1);
    }
  }

  lemma {:induction false} RecentSuffixes(gs: seq<Group>, limit: int, i: nat)
    requires i <= |gs| && SuffixesBelow(ValidOnly(gs[i..]), limit)
    ensures SuffixesBelow(ValidOnly(gs[RecentStart(gs, limit, i, ValidOnly(gs[i..]) != [])..]), limit)
  {
    var v := ValidOnly(gs[i..]);
    if i > 0 {
      ValidOnlyStep(gs, i);
      ValidOnlySubsequence(gs[i..]);
      CountIsLength(gs, i);
      if !ValidGroup(gs[i - 1].messages) {
        assert ValidOnly(gs[i - 1..]) == v;
        if Count(gs, i - 1) < limit {
          RecentSuffixes(gs, limit, i - 1);
        }
      } else if !(Count(gs, i) >= limit && v != []) {
        CountIsLength(v, 0);
        ConsSuffixesBelow(gs[i - 1], v, limit);
        RecentSuffixes(gs, limit, i - 1);
      }
    }
  }

  lemma {:induction false} CountShift(front: seq<Group>, tail: seq<Group>, j: nat)
    requires j <= |tail|
    ensures Count(front + tail, |front| + j) == Count(tail, j)
    decreases |tail| - j
  {
    if j < |tail| {
      CountShift(front, tail, j + 1);
    }
  }

  lemma ScanStep(gs: seq<Group>, limit: int, i: nat, taken: bool)
    requires 0 < i <= |gs| && ValidGroup(gs[i - 1].messages) && !(Count(gs, i) >= limit && taken)
    ensures RecentStart(gs, limit, i, taken) == RecentStart(gs, limit, i - 1, true)
  {
  }

  /** On valid groups only, the scan passes over a tail whose proper suffixes are small. */
  lemma {:induction false} ScanPassesTail(front: seq<Group>, tail: seq<Group>, limit: int, j: nat)
    requires j <= |tail| && AllValid(tail) && SuffixesBelow(tail, limit)
    ensures var gs := front + tail;
            RecentStart(gs, limit, |front| + j, j < |tail|) == RecentStart(gs, limit, |front|, tail != [])
    decreases j
  {
    if j > 0 {
      CountShift(front, tail, j);
      assert (front + tail)[|front| + j - 1] == tail[j - 1];
      assert ValidGroup(tail[j - 1].messages);
      ScanStep(front + tail, limit, |front| + j, j < |tail|);
      ScanPassesTail(front, tail, limit, j - 1);
    }
  }

  /** Where the scan stops on valid groups: before such a tail if it fills the limit, and
      otherwise strictly inside what is in front of it. */
  lemma ScanStops(front: seq<Group>, tail: seq<Group>, limit: int)
    requires AllValid(front) && AllValid(tail) && SuffixesBelow(tail, limit) && front != []
    ensures var start := RecentStart(front + tail, limit, |front + tail|, false);
            if tail != [] && Count(tail, 0) >= limit then start == |front| else start < |front|
  {
    var gs := front + tail;
    ScanPassesTail(front, tail, limit, |tail|);
    CountShift(front, tail, 0);
    assert gs[|front| - 1] == front[|front| - 1] && ValidGroup(front[|front| - 1].messages);
  }

  lemma ValidTrimParts(gs: seq<Group>, limit: int, past: seq<Message>)
    requires AllValid(gs) && past == Flatten(gs[..RecentStart(gs, limit, |gs|, false)])
    ensures |ImportantUsers(past)| <= |past|
    ensures TrimParts(gs, limit) == Parts(ImportantUsers(past), |past| - |ImportantUsers(past)|,
                                          gs[RecentStart(gs, limit, |gs|, false)..])
  {
    var start := RecentStart(gs, limit, |gs|, false);
    ValidOnlyOfValid(gs[start..]);
    CountIsLength(gs, start);
    CountIsLength(gs[start..], 0);
    ImportantUsersSubsequence(past);
  }

  /** Re-assembling a list of valid groups whose old part is important users changes nothing. */
  lemma AssembleUnchanged(front: seq<Message>, gs: seq<Group>, limit: int)
    requires AllValid(gs) && |front| <= |gs|
    requires AllImportant(front)
    requires gs[..|front|] == Singles(front)
    requires RecentStart(gs, limit, |gs|, false) <= |front|
    ensures Assemble(TrimParts(gs, limit)) == Flatten(gs)
  {
    var start := RecentStart(gs, limit, |gs|, false);
    OldPartIsUsers(front, gs, start);
    ValidTrimParts(gs, limit, front[..start]);
    AssembleSplit(front[..start], gs, start);
  }

  lemma NothingBetween(a: seq<Message>, b: seq<Message>)
    ensures a + [] + b == a + b
  {
  }

  lemma AssembleSplit(past: seq<Message>, gs: seq<Group>, start: nat)
    requires start <= |gs| && past == Flatten(gs[..start])
    ensures Assemble(Parts(past, 0, gs[start..])) == Flatten(gs)
  {
    SplitFlatten(gs, start);
    NothingBetween(past, Flatten(gs[start..]));
  }

  lemma ShorterPrefix(gs: seq<Group>, i: nat, j: nat)
    requires i <= j <= |gs|
    ensures gs[..i] == gs[..j][..i]
  {
  }

  lemma OldPartIsUsers(front: seq<Message>, gs: seq<Group>, start: nat)
    requires start <= |front| <= |gs| && gs[..|front|] == Singles(front)
    requires AllImportant(front)
    ensures Flatten(gs[..start]) == front[..start] == ImportantUsers(front[..start])
  {
    SinglesPrefix(front, start);
    ShorterPrefix(gs, start, |front|);
    AllImportantKept(front[..start]);
  }

  lemma SinglesPrefix(s: seq<Message>, n: nat)
    requires n <= |s| && AllImportant(s)
    ensures |Singles(s)| == |s| && Flatten(Singles(s)[..n]) == s[..n]
  {
    SinglesParse(s);
    SinglesParse(s[..n]);
    assert Singles(s)[..n] == Singles(s[..n]);
  }

  lemma {:induction false} AllImportantKept(s: seq<Message>)
    requires AllImportant(s)
    ensures ImportantUsers(s) == s
  {
    if s != [] {
      AllImportantKept(s[1..]);
    }
  }

  /** Trimming again the pieces of an earlier trim: the summary becomes part of what is dropped
      exactly when the recent groups alone fill the limit. */
  lemma TrimParts2(p: Parts, limit: int)
    requires GoodParts(p) && SuffixesBelow(p.recent, limit)
    ensures Assemble(TrimParts(PartGroups(p), limit)) ==
            if p.dropped > 0 && p.recent != [] && Count(p.recent, 0) >= limit then Assemble(p.(dropped := 1))
            else Assemble(p)
  {
    var front := p.users + Summary(p.dropped);
    AssembleParses(p);
    SinglesParse(front);
    if front == [] {
      AssembleAllRecent(p, limit);
    } else {
      ScanStops(Singles(front), p.recent, limit);
      if p.recent != [] && Count(p.recent, 0) >= limit {
        var gs := PartGroups(p);
        assert gs[..|front|] == Singles(front) && gs[|front|..] == p.recent;
        ValidTrimParts(gs, limit, front);
        RecentFillsLimit(p, front, limit);
      } else {
        UsersUnchanged(p, front, limit);
      }
    }
  }

  lemma NothingInFront(gs: seq<Group>)
    ensures [] + gs == gs && gs[..0] == []
  {
  }

  lemma ScanTakesAll(recent: seq<Group>, limit: int)
    requires AllValid(recent) && SuffixesBelow(recent, limit)
    ensures RecentStart(recent, limit, |recent|, false) == 0
  {
    NothingInFront(recent);
    ScanPassesTail([], recent, limit, |recent|);
  }

  lemma AllRecentUnchanged(recent: seq<Group>, limit: int)
    requires AllValid(recent) && SuffixesBelow(recent, limit)
    ensures Assemble(TrimParts(recent, limit)) == Flatten(recent)
  {
    ScanTakesAll(recent, limit);
    NothingInFront(recent);
    AssembleUnchanged([], recent, limit);
  }

  lemma OnlyRecent(p: Parts)
    requires p.users + Summary(p.dropped) == []
    ensures PartGroups(p) == p.recent && Assemble(p) == Flatten(p.recent)
  {
    NothingInFront(p.recent);
    assert [] + Flatten(p.recent) == Flatten(p.recent);
  }

  lemma AssembleAllRecent(p: Parts, limit: int)
    requires p.users + Summary(p.dropped) == [] && p.dropped >= 0 && AllValid(PartGroups(p))
    requires SuffixesBelow(p.recent, limit)
    ensures Assemble(TrimParts(PartGroups(p), limit)) == Assemble(p)
  {
    OnlyRecent(p);
    AllRecentUnchanged(p.recent, limit);
  }

  lemma RecentFillsLimit(p: Parts, front: seq<Message>, limit: int)
    requires front == p.users + Summary(p.dropped) && ImportantUsers(p.users) == p.users
    requires |ImportantUsers(front)| <= |front|
    requires TrimParts(PartGroups(p), limit)
        == Parts(ImportantUsers(front), |front| - |ImportantUsers(front)|, p.recent)
    requires p.dropped >= 0
    ensures TrimParts(PartGroups(p), limit) == p.(dropped := if p.dropped > 0 then 1 else 0)
  {
    UsersOfFront(p.users, p.dropped);
  }

  lemma UsersOfFront(users: seq<Message>, dropped: int)
    requires ImportantUsers(users) == users
    ensures ImportantUsers(users + Summary(dropped)) == users
    ensures |users + Summary(dropped)| - |users| == if dropped > 0 then 1 else 0
  {
    ImportantUsersConcat(users, Summary(dropped));
    assert ImportantUsers(Summary(dropped)) == [];
  }

  lemma UsersUnchanged(p: Parts, front: seq<Message>, limit: int)
    requires front == p.users + Summary(p.dropped) && AllValid(PartGroups(p))
    requires AllImportant(p.users)
    requires RecentStart(PartGroups(p), limit, |PartGroups(p)|, false) < |front|
    requires |Singles(front)| == |front| && Flatten(PartGroups(p)) == Assemble(p)
    ensures Assemble(TrimParts(PartGroups(p), limit)) == Assemble(p)
  {
    SinglesConcat(p.users, Summary(p.dropped));
    SinglesParse(p.users);
    assert PartGroups(p)[..|p.users|] == Singles(p.users);
    AssembleUnchanged(p.users, PartGroups(p), limit);
  }

  lemma {:induction false} SinglesConcat(s: seq<Message>, t: seq<Message>)
    ensures Singles(s + t) == Singles(s) + Singles(t)
  {
    if s == [] {
      assert s + t == t;
    } else {
      assert (s + t)[1..] == s[1..] + t;
      SinglesConcat(s[1..], t);
    }
  }

  /** Trimming twice is trimming once, up to the summary's number: the second trim returns the
      same list, or, exactly when it runs on a summarised list whose recent groups fill the
      limit, that list with the number changed to 1. */
  lemma TrimTwice(messages: seq<Message>, limit: int)
    ensures var once := Trimmed(messages, limit);
            var p := TrimParts(Groups(messages), limit);
            Trimmed(once, limit) ==
              if |messages| > limit && |once| > limit && p.dropped > 0 && p.recent != [] && Count(p.recent, 0) >= limit
              then p.users + [TrimSummary(1)] + Flatten(p.recent)
              else once
  {
    if |messages| > limit {
      var gs := Groups(messages);
      var p := TrimParts(gs, limit);
      TrimPartsGood(messages, limit);
      AssembleParses(p);
      assert gs[|gs|..] == [];
      RecentSuffixes(gs, limit, |gs|);
      TrimParts2(p, limit);
    }
  }
}
