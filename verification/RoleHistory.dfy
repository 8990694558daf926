/** How a response of a model becomes history: the dispatcher's replies, the planner's replan, the
    executor's tick, and the planner's rewritten prompt copy. */
module RoleHistory {
  import opened Messages
  import opened MessageGroups
  import opened HistoryTrim
  import opened PromptViews
  import opened Options
  import HM = HistoryManager

  // ----- batches of calls and replies -----

  function CallMessage(content: Content, calls: seq<ToolCall>): Message {
    Message(Assistant, content, calls, Missing)
  }

  function Reply(call: ToolCall, result: Fields): Message {
    Message(Tool, Object(result), [], call.id)
  }

  /** The replies to the first `|results|` calls. */
  function Replies(calls: seq<ToolCall>, results: seq<Fields>): (s: seq<Message>)
    requires |results| <= |calls|
    ensures |s| == |results|
    ensures forall i :: 0 <= i < |s| ==> s[i] == Reply(calls[i], results[i])
  {
    seq(|results|, i requires 0 <= i < |results| => Reply(calls[i], results[i]))
  }

  /** What one response adds to a history: its assistant message and the replies it got to. */
  datatype Batch = Batch(content: Content, calls: seq<ToolCall>, results: seq<Fields>) {
    ghost predicate Valid() {
      |results| <= |calls|
    }

    function Appended(): seq<Message>
      requires Valid()
    {
      [CallMessage(content, calls)] + Replies(calls, results)
    }

    ghost predicate Complete() {
      |results| == |calls|
    }
  }

  ghost predicate ProperIds(calls: seq<ToolCall>) {
    && (forall i :: 0 <= i < |calls| ==> calls[i].id != Missing)
    && (forall i, j :: 0 <= i < j < |calls| ==> calls[i].id != calls[j].id)
  }

  /** The first `k` replies answer the calls: every one has an id, they cover all ids called, and
      they do so no sooner than with the last of them. */
  ghost predicate Settled(calls: seq<ToolCall>, k: int)
    requires 0 <= k <= |calls|
  {
    calls == [] ||
    (k > 0
     && (forall i :: 0 <= i < k ==> calls[i].id != Missing)
     && (forall i :: 0 <= i < k - 1 ==> calls[i].id != calls[k - 1].id)
     && (forall i :: k <= i < |calls| ==>
           calls[i].id == Missing || exists j :: 0 <= j < k && calls[j].id == calls[i].id))
  }

  lemma ExpectedOfCalls(content: Content, calls: seq<ToolCall>, id: CallId)
    ensures id in ExpectedIds(CallMessage(content, calls)) <==>
            id != Missing && exists i :: 0 <= i < |calls| && calls[i].id == id
  {
  }

  /** Behind a settled batch's message, the id of its last reply is the one that was waited for. */
  lemma SettledReply(b: Batch, i: nat)
    requires b.Valid() && b.calls != [] && Settled(b.calls, |b.results|) && 0 < i <= |b.results|
    ensures NotOrphan(b.Appended(), i) && FullyAnswered(b.Appended(), i)
  {
    var s, k := b.Appended(), |b.results|;
    ExpectedOfCalls(b.content, b.calls, b.calls[i - 1].id);
    ExpectedOfCalls(b.content, b.calls, b.calls[k - 1].id);
    assert Unanswered(s, 1, i, b.calls[k - 1].id);
    assert Answers(s, 0, i);
  }

  lemma ReplyIsAnswer(s: seq<Message>, j: nat)
    requires 0 < j < |s| && forall i :: 0 < i < |s| ==> s[i].role.Tool?
    ensures Answered(s, 0, s[j].replyTo)
  {
    assert OnlyRepliesBetween(s, 0, j);
  }

  lemma SettledAnswer(b: Batch, id: CallId)
    requires b.Valid() && b.calls != [] && Settled(b.calls, |b.results|)
    requires id in ExpectedIds(CallMessage(b.content, b.calls))
    ensures Answered(b.Appended(), 0, id)
  {
    ExpectedOfCalls(b.content, b.calls, id);
    var c :| 0 <= c < |b.calls| && b.calls[c].id == id;
    var j := c;
    if c >= |b.results| {
      j :| 0 <= j < |b.results| && b.calls[j].id == b.calls[c].id;
    }
    assert b.Appended()[j + 1] == Reply(b.calls[j], b.results[j]);
    ReplyIsAnswer(b.Appended(), j + 1);
  }

  lemma SettledCalls(b: Batch)
    requires b.Valid() && b.calls != [] && Settled(b.calls, |b.results|)
    ensures NotOrphan(b.Appended(), 0) && FullyAnswered(b.Appended(), 0)
  {
    ExpectedOfCalls(b.content, b.calls, b.calls[0].id);
    forall id | id in ExpectedIds(CallMessage(b.content, b.calls)) ensures Answered(b.Appended(), 0, id) {
      SettledAnswer(b, id);
    }
  }

  lemma SettledIsSafe(b: Batch)
    requires b.Valid() && b.calls != [] && Settled(b.calls, |b.results|)
    ensures PromptSafe(b.Appended())
  {
    var s := b.Appended();
    forall i | 0 <= i < |s| ensures NotOrphan(s, i) && FullyAnswered(s, i) {
      if i > 0 {
        SettledReply(b, i);
      } else {
        SettledCalls(b);
      }
    }
  }

  lemma SafeIsSettled(b: Batch)
    requires b.Valid() && b.calls != [] && PromptSafe(b.Appended())
    ensures Settled(b.calls, |b.results|)
  {
    var s, k, ids := b.Appended(), |b.results|, ExpectedIds(CallMessage(b.content, b.calls));
    assert FullyAnswered(s, 0);
    forall id | id in ids ensures exists j :: 0 <= j < k && b.calls[j].id == id {
      assert Answered(s, 0, id);
      var i :| 0 < i < |s| && s[i].role.Tool? && s[i].replyTo == id;
      assert b.calls[i - 1].id == id;
    }
    forall i | 0 <= i < k ensures b.calls[i].id != Missing {
      ReplyAnswersCall(b, i);
    }
    LastReplyWasWaited(b);
    forall i | k <= i < |b.calls| && b.calls[i].id != Missing
      ensures exists j :: 0 <= j < k && b.calls[j].id == b.calls[i].id
    {
      ExpectedOfCalls(b.content, b.calls, b.calls[i].id);
    }
  }

  lemma ReplyAnswersCall(b: Batch, i: nat)
    requires b.Valid() && PromptSafe(b.Appended()) && i < |b.results|
    ensures b.calls[i].id in ExpectedIds(CallMessage(b.content, b.calls))
    ensures StillWaiting(b.Appended(), ExpectedIds(CallMessage(b.content, b.calls)), 0, i + 1)
  {
    var s := b.Appended();
    assert NotOrphan(s, i + 1);
    var j :| Answers(s, j, i + 1);
    assert j == 0;
  }

  /** The id that was waiting when the last reply came is the id of that reply. */
  lemma WaitedForLast(b: Batch, id: CallId)
    requires b.Valid() && b.calls != [] && PromptSafe(b.Appended()) && |b.results| > 0
    requires id in ExpectedIds(CallMessage(b.content, b.calls)) && Unanswered(b.Appended(), 1, |b.results|, id)
    ensures b.calls[|b.results| - 1].id == id
    ensures forall c :: 0 <= c < |b.results| - 1 ==> b.calls[c].id != id
  {
    var s := b.Appended();
    assert FullyAnswered(s, 0) && Answered(s, 0, id);
    var i :| 0 < i < |s| && s[i].role.Tool? && s[i].replyTo == id;
    assert i == |b.results|;
    forall c | 0 <= c < |b.results| - 1 ensures b.calls[c].id != id {
      assert s[c + 1].replyTo != id;
    }
  }

  lemma LastReplyWasWaited(b: Batch)
    requires b.Valid() && b.calls != [] && PromptSafe(b.Appended())
    ensures var k := |b.results|;
            k > 0 && forall i :: 0 <= i < k - 1 ==> b.calls[i].id != b.calls[k - 1].id
  {
    var s, k, ids := b.Appended(), |b.results|, ExpectedIds(CallMessage(b.content, b.calls));
    assert FullyAnswered(s, 0);
    var some :| some in ids;
    assert Answered(s, 0, some);
    ReplyAnswersCall(b, k - 1);
    var id :| id in ids && Unanswered(s, 1, k, id);
    WaitedForLast(b, id);
  }

  /** A batch leaves valid groups exactly when its calls are settled. */
  lemma BatchWellFormedExactly(b: Batch)
    requires b.Valid()
    ensures WellFormed(b.Appended()) <==> Settled(b.calls, |b.results|)
  {
    WellFormedExactly(b.Appended());
    if b.calls == [] {
      assert b.Appended()[1..] == [];
      assert b.Appended()[..1] == b.Appended();
    } else {
      if Settled(b.calls, |b.results|) {
        SettledIsSafe(b);
      }
      if PromptSafe(b.Appended()) {
        SafeIsSettled(b);
      }
    }
  }

  /** With distinct ids, none missing, settled means that every call has its reply. */
  lemma ProperBatchExactly(b: Batch)
    requires b.Valid() && ProperIds(b.calls)
    ensures WellFormed(b.Appended()) <==> b.Complete()
    ensures Settled(b.calls, |b.results|) <==> b.Complete()
  {
    BatchWellFormedExactly(b);
    var k := |b.results|;
    if k < |b.calls| {
      assert b.calls[k].id != Missing && forall j :: 0 <= j < k ==> b.calls[j].id != b.calls[k].id;
    }
  }

  /** Ids that are not distinct can leave valid groups all the same, as long as the last one is new. */
  lemma RepeatedIdsCanBeValid(content: Content, call: ToolCall, last: ToolCall, result: Fields)
    requires call.id != Missing && last.id != Missing && call.id != last.id
    ensures var b := Batch(content, [call, call, last], [result, result, result]);
            b.Valid() && !ProperIds(b.calls) && WellFormed(b.Appended())
  {
    var b := Batch(content, [call, call, last], [result, result, result]);
    assert b.calls[0].id == b.calls[1].id;
    RepeatedIdsSettled(call, last);
    BatchWellFormedExactly(b);
  }

  lemma RepeatedIdsSettled(call: ToolCall, last: ToolCall)
    requires call.id != Missing && last.id != Missing && call.id != last.id
    ensures Settled([call, call, last], 3)
  {
  }

  // ----- a history over many batches -----

  lemma AllValidConcat(a: seq<Group>, b: seq<Group>)
    ensures AllValid(a + b) <==> AllValid(a) && AllValid(b)
  {
    if AllValid(a + b) {
      forall i | 0 <= i < |a| ensures ValidGroup(a[i].messages) {
        assert (a + b)[i] == a[i];
      }
      forall i | 0 <= i < |b| ensures ValidGroup(b[i].messages) {
        assert (a + b)[|a| + i] == b[i];
      }
    }
  }

  /** Appending at a message that is not a reply: the whole is valid exactly when both parts are. */
  lemma AppendExactly(s: seq<Message>, t: seq<Message>)
    requires t == [] || !t[0].role.Tool?
    ensures WellFormed(s + t) <==> WellFormed(s) && WellFormed(t)
  {
    GroupsConcat(s, t);
    WellFormedMeaning(s);
    WellFormedMeaning(t);
    AllValidConcat(Groups(s), Groups(t));
    WellFormedMeaning(s + t);
  }

  ghost predicate AllBatches(bs: seq<Batch>) {
    forall i :: 0 <= i < |bs| ==> bs[i].Valid()
  }

  function AppendedAll(bs: seq<Batch>): seq<Message>
    requires AllBatches(bs)
  {
    if bs == [] then [] else bs[0].Appended() + AppendedAll(bs[1..])
  }

  lemma AppendTwice(a: seq<Message>, b: seq<Message>, c: seq<Message>)
    ensures a + b + c == a + (b + c)
  {
  }

  lemma OneBatch(bs: seq<Batch>)
    requires AllBatches(bs) && |bs| <= 1
    ensures AppendedAll(bs) == if bs == [] then [] else bs[0].Appended()
  {
    if bs != [] {
      assert AppendedAll(bs[1..]) == [];
    }
  }

  lemma {:induction false} AppendedMore(h: seq<Message>, bs: seq<Batch>, more: seq<Batch>)
    requires AllBatches(bs) && AllBatches(more)
    ensures AllBatches(bs + more) && h + AppendedAll(bs + more) == h + AppendedAll(bs) + AppendedAll(more)
    decreases |bs|
  {
    if bs == [] {
      assert [] + more == more;
    } else {
      assert (bs + more)[1..] == bs[1..] + more;
      AppendedMore(h + bs[0].Appended(), bs[1..], more);
      AppendTwice(h, bs[0].Appended(), AppendedAll(bs[1..]));
      AppendTwice(h, bs[0].Appended(), AppendedAll(bs[1..] + more));
    }
  }

  ghost predicate AllSettled(bs: seq<Batch>)
    requires AllBatches(bs)
  {
    bs == [] || (Settled(bs[0].calls, |bs[0].results|) && AllSettled(bs[1..]))
  }

  lemma {:induction false} BatchesExactly(bs: seq<Batch>)
    requires AllBatches(bs)
    ensures WellFormed(AppendedAll(bs)) <==> AllSettled(bs)
    ensures bs != [] ==> AppendedAll(bs) != [] && AppendedAll(bs)[0] == bs[0].Appended()[0]
  {
    if bs != [] {
      BatchesExactly(bs[1..]);
      BatchWellFormedExactly(bs[0]);
      AppendExactly(bs[0].Appended(), AppendedAll(bs[1..]));
    }
  }

  /** Over any number of responses, the whole history parses into valid groups exactly when it did
      before and every batch was settled. */
  lemma RunHistoryExactly(h: seq<Message>, bs: seq<Batch>)
    requires AllBatches(bs)
    ensures WellFormed(h + AppendedAll(bs)) <==> WellFormed(h) && AllSettled(bs)
  {
    BatchesExactly(bs);
    AppendExactly(h, AppendedAll(bs));
  }

  /** Every reply in the history is an object. */
  ghost predicate ObjectReplies(s: seq<Message>) {
    forall i :: 0 <= i < |s| && s[i].role.Tool? ==> s[i].content.Object?
  }

  lemma {:induction false} DispatcherWritesObjects(bs: seq<Batch>)
    requires AllBatches(bs)
    ensures ObjectReplies(AppendedAll(bs))
  {
    if bs != [] {
      DispatcherWritesObjects(bs[1..]);
      var a, b, all := bs[0].Appended(), AppendedAll(bs[1..]), AppendedAll(bs);
      forall i | 0 <= i < |all| && all[i].role.Tool? ensures all[i].content.Object? {
        if i >= |a| {
          assert all[i] == b[i - |a|];
        }
      }
    }
  }

  lemma {:induction false} SubsequenceObjects(a: seq<Message>, b: seq<Message>)
    requires IsSubsequence(a, b) && ObjectReplies(b)
    ensures ObjectReplies(a)
    decreases |b|
  {
    if a != [] {
      assert ObjectReplies(b[1..]);
      if a[0] == b[0] && IsSubsequence(a[1..], b[1..]) {
        SubsequenceObjects(a[1..], b[1..]);
        forall i | 0 <= i < |a| && a[i].role.Tool? ensures a[i].content.Object? {
          assert i > 0 ==> a[i] == a[1..][i - 1];
        }
      } else {
        SubsequenceObjects(a, b[1..]);
      }
    }
  }

  /** On a history that the dispatcher wrote, a compacted prompt would never raise with the default
      numbers 4 and 2, nor with any others in that relation. The roles ask for no compacted prompt. */
  lemma DispatchedPromptNeverRaises(bs: seq<Batch>, least: int, keep: int)
    requires AllBatches(bs) && 1 <= keep < least
    ensures CompactWaits(ValidPrompt(AppendedAll(bs)), least, keep).Some?
  {
    var prompt := ValidPrompt(AppendedAll(bs));
    DispatcherWritesObjects(bs);
    ValidPromptIdempotent(AppendedAll(bs));
    SubsequenceObjects(prompt, AppendedAll(bs));
    forall i | 0 <= i < |prompt| ensures !StrayHead(prompt[i..]) {
      if i + 1 < |prompt| {
        assert prompt[i..][1] == prompt[i + 1];
      }
    }
    CompactionSucceeds(prompt, least, keep);
  }

  // ----- the dispatcher -----

  /** Exceptions, by the handlers that tell them apart. */
  datatype Error = Invalid | Timeout | Http | Other

  /** What the outside world does during one tool call. */
  datatype CallWorld = CallWorld(
    argumentsParse: bool,
    local: Attempted<Option<Fields>>,
    blocked: Option<string>,
    game: Attempted<Fields>)

  datatype Attempted<T> = Returned(value: T) | Raised(error: Error)

  function WithDefault(f: Fields, key: string, value: Json): Fields {
    if key in f then f else f[key := value]
  }

  function Failure(error: string, name: string): Fields {
    map["success" := Bool(false), "error" := Str(error), "action" := Str(name)]
  }

  /** The result of one tool call: the first of the gates that stops it decides. */
  function CallResult(call: ToolCall, allowed: Option<set<string>>, world: CallWorld): Attempted<Fields> {
    if !world.argumentsParse then Returned(Failure("invalid_tool_arguments", call.name))
    else if allowed.Some? && call.name !in allowed.value then
      Returned(Failure("tool_not_permitted_for_role", call.name))
    else match world.local
      case Raised(e) => Raised(e)
      case Returned(Some(f)) => Returned(WithDefault(f, "action", Str(call.name)))
      case Returned(None) =>
        if world.blocked.Some? then Returned(Failure(world.blocked.value, call.name))
        else match world.game
          case Raised(e) => Raised(e)
          case Returned(f) => Returned(f["game_action" := Bool(true)])
  }

  /** One tool call adds its reply to the history, whichever way it goes, unless an exception
      leaves first. */
  method ExecuteToolCall(call: ToolCall, allowed: Option<set<string>>, history: HM.HistoryManager, world: CallWorld)
      returns (r: Attempted<Fields>)
    modifies history
    ensures r == CallResult(call, allowed, world)
    ensures history.messages == old(history.messages) + if r.Returned? then [Reply(call, r.value)] else []
  {
    if !world.argumentsParse {
      var result := Failure("invalid_tool_arguments", call.name);
      history.Append(Reply(call, result));
      return Returned(result);
    }
    if allowed.Some? && call.name !in allowed.value {
      var result := Failure("tool_not_permitted_for_role", call.name);
      history.Append(Reply(call, result));
      return Returned(result);
    }
    if world.local.Raised? {
      return Raised(world.local.error);
    }
    if world.local.value.Some? {
      var result := WithDefault(world.local.value.value, "action", Str(call.name));
      history.Append(Reply(call, result));
      return Returned(result);
    }
    if world.blocked.Some? {
      var result := Failure(world.blocked.value, call.name);
      history.Append(Reply(call, result));
      return Returned(result);
    }
    if world.game.Raised? {
      return Raised(world.game.error);
    }
    var result := world.game.value["game_action" := Bool(true)];
    history.Append(Reply(call, result));
    return Returned(result);
  }

  /** The results of a response up to its end or its first exception. */
  datatype Execution = Execution(results: seq<Fields>, error: Option<Error>)

  function Execute(calls: seq<ToolCall>, allowed: Option<set<string>>, worlds: seq<CallWorld>): (e: Execution)
    requires |worlds| == |calls|
    ensures |e.results| <= |calls| && (e.error.None? <==> |e.results| == |calls|)
  {
    if calls == [] then Execution([], None)
    else match CallResult(calls[0], allowed, worlds[0])
      case Raised(error) => Execution([], Some(error))
      case Returned(f) =>
        var rest := Execute(calls[1..], allowed, worlds[1..]);
        Execution([f] + rest.results, rest.error)
  }

  /** The call is turned down before anything is done for it. */
  predicate Refused(call: ToolCall, allowed: Option<set<string>>, world: CallWorld) {
    !world.argumentsParse || (allowed.Some? && call.name !in allowed.value)
  }

  /** The reply says of the call that it failed, and that no game action was taken. */
  predicate SaysFailed(f: Fields, name: string) {
    && "success" in f && f["success"] == Bool(false)
    && "action" in f && f["action"] == Str(name)
    && "error" in f && "game_action" !in f
  }

  /** Every refused call of a response that is got to has a reply of failure with its own name. */
  ghost predicate RepliesRefuse(calls: seq<ToolCall>, allowed: Option<set<string>>, worlds: seq<CallWorld>,
                                results: seq<Fields>)
    requires |results| <= |calls| == |worlds|
  {
    forall i :: 0 <= i < |results| && Refused(calls[i], allowed, worlds[i]) ==>
      SaysFailed(results[i], calls[i].name) && results[i]["error"] == Str(RefusedFor(worlds[i]))
  }

  function RefusedFor(world: CallWorld): string {
    if world.argumentsParse then "tool_not_permitted_for_role" else "invalid_tool_arguments"
  }

  /** In a response, a call whose arguments do not parse or whose tool the role may not use gets a reply of
      failure under its own name, and the response never breaks off at it. */
  lemma {:induction false} RefusedCallsFail(calls: seq<ToolCall>, allowed: Option<set<string>>, worlds: seq<CallWorld>)
    requires |worlds| == |calls|
    ensures var e := Execute(calls, allowed, worlds);
            && RepliesRefuse(calls, allowed, worlds, e.results)
            && (|e.results| < |calls| ==> !Refused(calls[|e.results|], allowed, worlds[|e.results|]))
  {
    if calls != [] && CallResult(calls[0], allowed, worlds[0]).Returned? {
      RefusedCallsFail(calls[1..], allowed, worlds[1..]);
      FirstAndRest(calls, allowed, worlds, Execute(calls[1..], allowed, worlds[1..]).results);
    }
  }

  lemma FirstAndRest(calls: seq<ToolCall>, allowed: Option<set<string>>, worlds: seq<CallWorld>, rest: seq<Fields>)
    requires |rest| < |calls| == |worlds| && RepliesRefuse(calls[1..], allowed, worlds[1..], rest)
    requires CallResult(calls[0], allowed, worlds[0]).Returned?
    ensures RepliesRefuse(calls, allowed, worlds, [CallResult(calls[0], allowed, worlds[0]).value] + rest)
  {
    forall i | 0 < i <= |rest| && Refused(calls[i], allowed, worlds[i])
      ensures SaysFailed(rest[i - 1], calls[i].name) && rest[i - 1]["error"] == Str(RefusedFor(worlds[i]))
    {
      assert Refused(calls[1..][i - 1], allowed, worlds[1..][i - 1]);
    }
  }

  /** And nothing is done for it: whatever its local tool, the advisory gate or the game would have answered,
      the whole response goes the same way. */
  lemma {:induction false} RefusedCallsDoNothing(calls: seq<ToolCall>, allowed: Option<set<string>>,
                                                 worlds: seq<CallWorld>, i: nat, other: CallWorld)
    requires |worlds| == |calls| && i < |calls| && Refused(calls[i], allowed, worlds[i])
    requires other.argumentsParse == worlds[i].argumentsParse
    ensures Execute(calls, allowed, worlds[i := other]) == Execute(calls, allowed, worlds)
  {
    if i > 0 {
      assert worlds[i := other][1..] == worlds[1..][i - 1 := other];
      RefusedCallsDoNothing(calls[1..], allowed, worlds[1..], i - 1, other);
    }
  }

  /** The game's answer makes a difference exactly for a call that parses, is permitted, is no local tool and
      is not held back by the advisory gate; it is then the reply, marked as a game action. */
  lemma GameActsExactly(call: ToolCall, allowed: Option<set<string>>, world: CallWorld)
    ensures (exists game :: CallResult(call, allowed, world.(game := game)) != CallResult(call, allowed, world)) <==>
            && !Refused(call, allowed, world) && world.local == Returned(None) && world.blocked.None?
    ensures !Refused(call, allowed, world) && world.local == Returned(None) && world.blocked.None? ==>
              match world.game
              case Raised(e) => CallResult(call, allowed, world) == Raised(e)
              case Returned(f) => CallResult(call, allowed, world) == Returned(f["game_action" := Bool(true)])
  {
    var game: Attempted<Fields> := if world.game.Raised? then Returned(map[]) else Raised(Other);
    if !Refused(call, allowed, world) && world.local == Returned(None) && world.blocked.None? {
      assert CallResult(call, allowed, world.(game := game)) != CallResult(call, allowed, world);
    }
  }

  /** A local tool answers every call that is not refused, with its own fields and the call's name; what the
      advisory gate holds back fails with the gate's reason. */
  lemma LocalAndBlockedExactly(call: ToolCall, allowed: Option<set<string>>, world: CallWorld)
    requires !Refused(call, allowed, world)
    ensures world.local.Raised? ==> CallResult(call, allowed, world) == Raised(world.local.error)
    ensures world.local.Returned? && world.local.value.Some? ==>
              var local, r := world.local.value.value, CallResult(call, allowed, world);
              && r.Returned? && "action" in r.value && r.value.Keys == local.Keys + {"action"}
              && (forall key :: key in local ==> r.value[key] == local[key])
              && ("action" !in local ==> r.value["action"] == Str(call.name))
    ensures world.local == Returned(None) && world.blocked.Some? ==>
              var r := CallResult(call, allowed, world);
              r.Returned? && SaysFailed(r.value, call.name) && r.value["error"] == Str(world.blocked.value)
  {
  }

  lemma ExecuteStep(calls: seq<ToolCall>, i: nat, allowed: Option<set<string>>, worlds: seq<CallWorld>,
                    done: seq<Fields>)
    requires |worlds| == |calls| && i < |calls|
    ensures var e := Execute(calls[i..], allowed, worlds[i..]);
            match CallResult(calls[i], allowed, worlds[i])
            case Raised(error) => done + e.results == done && e.error == Some(error)
            case Returned(f) =>
              var rest := Execute(calls[i + 1..], allowed, worlds[i + 1..]);
              done + e.results == done + [f] + rest.results && e.error == rest.error
  {
    assert calls[i..][1..] == calls[i + 1..] && worlds[i..][1..] == worlds[i + 1..];
  }

  /** The calls of a response, one after the other: one reply each, in order, until the end or an
      exception. */
  method ExecuteResponse(calls: seq<ToolCall>, allowed: Option<set<string>>, history: HM.HistoryManager,
                         worlds: seq<CallWorld>)
      returns (e: Execution)
    requires |worlds| == |calls|
    modifies history
    ensures e == Execute(calls, allowed, worlds)
    ensures history.messages == old(history.messages) + Replies(calls, e.results)
  {
    var done: seq<Fields> := [];
    assert calls[0..] == calls && worlds[0..] == worlds;
    for i := 0 to |calls|
      invariant |done| == i
      invariant history.messages == old(history.messages) + Replies(calls, done)
      invariant var rest := Execute(calls[i..], allowed, worlds[i..]);
                Execute(calls, allowed, worlds) == Execution(done + rest.results, rest.error)
    {
      ExecuteStep(calls, i, allowed, worlds, done);
      var one := ExecuteToolCall(calls[i], allowed, history, worlds[i]);
      if one.Raised? {
        return Execution(done, Some(one.error));
      }
      assert Replies(calls, done + [one.value]) == Replies(calls, done) + [Reply(calls[i], one.value)];
      done := done + [one.value];
    }
    assert done + [] == done;
    return Execution(done, None);
  }

  // ----- the planner -----

  datatype Plan = Plan(fields: Fields)

  /** One answer of the planner model: a response or an exception, then the parsed plan or the
      error of parsing it, whether it is still wanted, the tools that the snapshot offers, an
      exception of the look-ups between installing the plan and appending its message, and the world
      of its tool calls. */
  datatype PlannerAnswer = PlannerAnswer(
    response: Attempted<seq<ToolCall>>,
    plan: Attempted<Plan>,
    accepted: bool,
    offered: set<string>,
    lookups: Option<Error>,
    worlds: seq<CallWorld>) {

    /** The tools that may run: what the snapshot offers, without the planner's own. */
    function Allowed(): Option<set<string>> {
      Some(offered - PLANNER_CONTROL_TOOLS)
    }
  }

  const PLANNER_CONTROL_TOOLS := {"submit_plan"}

  function ActionCalls(calls: seq<ToolCall>): seq<ToolCall> {
    if calls == [] then []
    else (if calls[0].name in PLANNER_CONTROL_TOOLS then [] else [calls[0]]) + ActionCalls(calls[1..])
  }

  ghost predicate WorldsFit(answers: seq<PlannerAnswer>) {
    forall i :: 0 <= i < |answers| && answers[i].response.Returned? ==>
      |answers[i].worlds| == |ActionCalls(answers[i].response.value)|
  }

  /** What a replan leaves: the batches it appended, the plans it installed and its outcome. */
  datatype ReplanRun = ReplanRun(batches: seq<Batch>, installed: seq<Plan>, outcome: Attempted<Option<Plan>>)

  function AnswerBatch(answer: PlannerAnswer): (b: Batch)
    requires answer.response.Returned? && answer.plan.Returned?
    requires |answer.worlds| == |ActionCalls(answer.response.value)|
    ensures b.Valid()
  {
    var calls := ActionCalls(answer.response.value);
    Batch(Object(answer.plan.value.fields), calls, Execute(calls, answer.Allowed(), answer.worlds).results)
  }

  predicate Installs(a: PlannerAnswer) {
    a.response.Returned? && a.plan.Returned? && a.accepted
  }

  /** The plan is installed and its message appended. */
  predicate Appends(a: PlannerAnswer) {
    Installs(a) && a.lookups.None?
  }

  function AttemptBatches(a: PlannerAnswer): (bs: seq<Batch>)
    requires a.response.Returned? ==> |a.worlds| == |ActionCalls(a.response.value)|
    ensures AllBatches(bs) && |bs| <= 1
  {
    if Appends(a) then [AnswerBatch(a)] else []
  }

  function AttemptPlans(a: PlannerAnswer): seq<Plan> {
    if Installs(a) then [a.plan.value] else []
  }

  /** How one attempt ends: with its plan, with nothing because the plan is stale, or with the error
      of the model, of parsing, of a look-up, or of a tool call. */
  function AttemptOutcome(a: PlannerAnswer): Attempted<Option<Plan>>
    requires a.response.Returned? ==> |a.worlds| == |ActionCalls(a.response.value)|
  {
    if a.response.Raised? then Raised(a.response.error)
    else if a.plan.Raised? then Raised(a.plan.error)
    else if !a.accepted then Returned(None)
    else if a.lookups.Some? then Raised(a.lookups.value)
    else match Execute(ActionCalls(a.response.value), a.Allowed(), a.worlds).error
      case None => Returned(Some(a.plan.value))
      case Some(error) => Raised(error)
  }

  /** The attempts of a replan from attempt `i` on; two in all. Invalid output and timeouts are tried
      once more, HTTP errors give up, other exceptions pass through. */
  function ReplanFrom(answers: seq<PlannerAnswer>, i: nat): (run: ReplanRun)
    requires |answers| == 2 && WorldsFit(answers) && i <= 2
    ensures AllBatches(run.batches) && |run.batches| <= |run.installed| <= 2 - i
    decreases 2 - i
  {
    if i == 2 then ReplanRun([], [], Returned(None))
    else
      var a := answers[i];
      match AttemptOutcome(a)
      case Returned(plan) => ReplanRun(AttemptBatches(a), AttemptPlans(a), Returned(plan))
      case Raised(Other) => ReplanRun(AttemptBatches(a), AttemptPlans(a), Raised(Other))
      case Raised(Http) => ReplanRun(AttemptBatches(a), AttemptPlans(a), Returned(None))
      case Raised(_) =>
        var rest := ReplanFrom(answers, i + 1);
        ReplanRun(AttemptBatches(a) + rest.batches, AttemptPlans(a) + rest.installed, rest.outcome)
  }

  ghost predicate EndsWithPlan(run: ReplanRun) {
    run.outcome.Returned? && run.outcome.value.Some? ==>
      && run.batches != [] && run.batches[|run.batches| - 1].Complete()
      && run.installed != [] && run.installed[|run.installed| - 1] == run.outcome.value.value
  }

  lemma EndsWithPlanPrefix(bs: seq<Batch>, plans: seq<Plan>, rest: ReplanRun)
    requires EndsWithPlan(rest)
    ensures EndsWithPlan(ReplanRun(bs + rest.batches, plans + rest.installed, rest.outcome))
  {
  }

  /** A plan is returned only by an attempt whose own batch is complete; it is the last one installed. */
  lemma {:induction false} ReplanOutcome(answers: seq<PlannerAnswer>, i: nat)
    requires |answers| == 2 && WorldsFit(answers) && i <= 2
    ensures EndsWithPlan(ReplanFrom(answers, i))
    decreases 2 - i
  {
    if i < 2 {
      ReplanOutcome(answers, i + 1);
      EndsWithPlanPrefix(AttemptBatches(answers[i]), AttemptPlans(answers[i]), ReplanFrom(answers, i + 1));
    }
  }

  ghost predicate ProperAnswers(answers: seq<PlannerAnswer>) {
    forall i :: 0 <= i < |answers| && answers[i].response.Returned? ==>
        ProperIds(ActionCalls(answers[i].response.value))
  }

  /** An attempt that appends its message and then leaves calls unsettled: a reply is missing, or ids
      are missing or come twice. */
  ghost predicate Unsettles(a: PlannerAnswer)
    requires a.response.Returned? ==> |a.worlds| == |ActionCalls(a.response.value)|
  {
    Appends(a) && !Settled(AnswerBatch(a).calls, |AnswerBatch(a).results|)
  }

  /** An attempt that appends its message and whose tools then raise. */
  predicate BreaksOff(a: PlannerAnswer)
    requires a.response.Returned? ==> |a.worlds| == |ActionCalls(a.response.value)|
  {
    Appends(a) && Execute(ActionCalls(a.response.value), a.Allowed(), a.worlds).error.Some?
  }

  /** The first attempt ends in an exception that is tried once more. */
  predicate Retried(a: PlannerAnswer)
    requires a.response.Returned? ==> |a.worlds| == |ActionCalls(a.response.value)|
  {
    var ended := AttemptOutcome(a);
    ended.Raised? && ended.error != Other && ended.error != Http
  }

  lemma {:induction false} AllSettledConcat(a: seq<Batch>, b: seq<Batch>)
    requires AllBatches(a) && AllBatches(b)
    ensures AllBatches(a + b) && (AllSettled(a + b) <==> AllSettled(a) && AllSettled(b))
  {
    if a == [] {
      assert a + b == b;
    } else {
      AllSettledConcat(a[1..], b);
      assert (a + b)[1..] == a[1..] + b;
    }
  }

  lemma AttemptSettled(a: PlannerAnswer)
    requires a.response.Returned? ==> |a.worlds| == |ActionCalls(a.response.value)|
    ensures AllSettled(AttemptBatches(a)) <==> !Unsettles(a)
  {
    if Appends(a) {
      assert AttemptBatches(a)[1..] == [];
    }
  }

  lemma LastAttemptSettled(answers: seq<PlannerAnswer>)
    requires |answers| == 2 && WorldsFit(answers)
    ensures AllSettled(ReplanFrom(answers, 1).batches) <==> !Unsettles(answers[1])
  {
    AttemptSettled(answers[1]);
    JoinRuns(AttemptBatches(answers[1]), [], []);
    assert ReplanFrom(answers, 2).batches == [];
    assert ReplanFrom(answers, 1).batches == AttemptBatches(answers[1]);
  }

  /** For every outcome of a replan, returned or raised: the whole history is valid exactly if it was
      before, the first answer did not leave its calls unsettled, and neither did the second where it
      was asked for. */
  lemma ReplanSettledExactly(h: seq<Message>, answers: seq<PlannerAnswer>)
    requires |answers| == 2 && WorldsFit(answers)
    ensures WellFormed(h + AppendedAll(ReplanFrom(answers, 0).batches)) <==>
            WellFormed(h) && !Unsettles(answers[0]) && (Retried(answers[0]) ==> !Unsettles(answers[1]))
  {
    var run := ReplanFrom(answers, 0);
    RunHistoryExactly(h, run.batches);
    AttemptSettled(answers[0]);
    if Retried(answers[0]) {
      LastAttemptSettled(answers);
      AllSettledConcat(AttemptBatches(answers[0]), ReplanFrom(answers, 1).batches);
    }
  }

  lemma ProperUnsettles(a: PlannerAnswer)
    requires a.response.Returned? ==> |a.worlds| == |ActionCalls(a.response.value)|
    requires a.response.Returned? ==> ProperIds(ActionCalls(a.response.value))
    ensures Unsettles(a) <==> BreaksOff(a)
  {
    if Appends(a) {
      ProperBatchExactly(AnswerBatch(a));
    }
  }

  /** With proper ids, for every outcome of a replan: the whole history is valid exactly if it was before
      and no answer that was asked for broke off behind its plan. */
  lemma ReplanHistoryExactly(h: seq<Message>, answers: seq<PlannerAnswer>)
    requires |answers| == 2 && WorldsFit(answers) && ProperAnswers(answers)
    ensures WellFormed(h + AppendedAll(ReplanFrom(answers, 0).batches)) <==>
            WellFormed(h) && !BreaksOff(answers[0]) && (Retried(answers[0]) ==> !BreaksOff(answers[1]))
  {
    ReplanSettledExactly(h, answers);
    ProperUnsettles(answers[0]);
    ProperUnsettles(answers[1]);
  }

  /** A second message is appended only after an attempt that broke off. */
  lemma ReplanBatches(answers: seq<PlannerAnswer>)
    requires |answers| == 2 && WorldsFit(answers) && ProperAnswers(answers)
    ensures var bs := ReplanFrom(answers, 0).batches;
            (forall i :: 0 <= i < |bs| ==> ProperIds(bs[i].calls)) && (|bs| == 2 ==> !bs[0].Complete())
  {
    var rest := ReplanFrom(answers, 1);
    assert ReplanFrom(answers, 2) == ReplanRun([], [], Returned(None));
  }

  /** A replan that returns a plan and still leaves a half-answered call behind: the count that the first
      answer's tool is called with is no number, which raises a type error and is handled like invalid
      output, and the second answer is fine. */
  lemma ReplanCanLeaveHalfAnsweredCall() returns (answers: seq<PlannerAnswer>)
    ensures |answers| == 2 && WorldsFit(answers) && ProperAnswers(answers)
    ensures ReplanFrom(answers, 0).outcome == Returned(Some(Plan(map[])))
    ensures !WellFormed(AppendedAll(ReplanFrom(answers, 0).batches))
  {
    var call := ToolCall(Id("a"), "search_trade_prices", "{\"count\":\"ten\"}");
    var bad := CallWorld(true, Raised(Invalid), None, Returned(map[]));
    assert ActionCalls([call]) == [call] by { assert [call][1..] == []; }
    answers := [PlannerAnswer(Returned([call]), Returned(Plan(map[])), true, {call.name}, None, [bad]),
                PlannerAnswer(Returned([]), Returned(Plan(map[])), true, {}, None, [])];
    assert ReplanFrom(answers, 1).outcome == Returned(Some(Plan(map[])));
    assert BreaksOff(answers[0]);
    ReplanHistoryExactly([], answers);
    assert [] + AppendedAll(ReplanFrom(answers, 0).batches) == AppendedAll(ReplanFrom(answers, 0).batches);
  }

  /** A replan that returns nothing and leaves the same behind: after that first answer, the second one
      does not parse. */
  lemma ReplanWithoutPlanCanToo() returns (answers: seq<PlannerAnswer>)
    ensures |answers| == 2 && WorldsFit(answers) && ProperAnswers(answers)
    ensures ReplanFrom(answers, 0).outcome == Returned(None)
    ensures !WellFormed(AppendedAll(ReplanFrom(answers, 0).batches))
  {
    var call := ToolCall(Id("a"), "search_trade_prices", "{\"count\":\"ten\"}");
    var bad := CallWorld(true, Raised(Invalid), None, Returned(map[]));
    assert ActionCalls([call]) == [call] by { assert [call][1..] == []; }
    answers := [PlannerAnswer(Returned([call]), Returned(Plan(map[])), true, {call.name}, None, [bad]),
                PlannerAnswer(Returned([]), Raised(Invalid), true, {}, None, [])];
    assert ReplanFrom(answers, 2).outcome == Returned(None);
    assert BreaksOff(answers[0]);
    ReplanHistoryExactly([], answers);
    assert [] + AppendedAll(ReplanFrom(answers, 0).batches) == AppendedAll(ReplanFrom(answers, 0).batches);
  }

  // ----- which tools the roles run -----

  /** The planner's own tool is taken out of a response, and every other call stays, in order. */
  lemma {:induction false} ActionCallsExactly(calls: seq<ToolCall>)
    ensures forall a: seq<ToolCall>, c: ToolCall, b: seq<ToolCall> ::
              calls == a + [c] + b ==>
              ActionCalls(calls) == ActionCalls(a) + (if c.name == "submit_plan" then [] else [c]) + ActionCalls(b)
  {
    forall a: seq<ToolCall>, c: ToolCall, b: seq<ToolCall> | calls == a + [c] + b
      ensures ActionCalls(calls) == ActionCalls(a) + (if c.name == "submit_plan" then [] else [c]) + ActionCalls(b)
    {
      ActionCallsConcat(a + [c], b);
      ActionCallsConcat(a, [c]);
      assert [c][1..] == [];
    }
  }

  lemma {:induction false} ActionCallsConcat(a: seq<ToolCall>, b: seq<ToolCall>)
    ensures ActionCalls(a + b) == ActionCalls(a) + ActionCalls(b)
  {
    if a == [] {
      assert a + b == b;
    } else {
      assert (a + b)[1..] == a[1..] + b;
      ActionCallsConcat(a[1..], b);
    }
  }

  /** A call with a tool outside `names` has a reply of failure. */
  ghost predicate RunsOnly(b: Batch, names: set<string>)
    requires b.Valid()
  {
    forall i :: 0 <= i < |b.results| && b.calls[i].name !in names ==> SaysFailed(b.results[i], b.calls[i].name)
  }

  lemma AttemptRunsOnlyOffered(a: PlannerAnswer)
    requires a.response.Returned? ==> |a.worlds| == |ActionCalls(a.response.value)|
    ensures forall k :: 0 <= k < |AttemptBatches(a)| ==> RunsOnly(AttemptBatches(a)[k], a.offered - {"submit_plan"})
  {
    if Appends(a) {
      var b := AnswerBatch(a);
      RefusedCallsFail(b.calls, a.Allowed(), a.worlds);
      forall i | 0 <= i < |b.results| && b.calls[i].name !in a.offered - {"submit_plan"}
        ensures SaysFailed(b.results[i], b.calls[i].name)
      {
        assert Refused(b.calls[i], a.Allowed(), a.worlds[i]);
      }
    }
  }

  lemma BatchesOf(answers: seq<PlannerAnswer>, i: nat)
    requires |answers| == 2 && WorldsFit(answers) && i < 2
    ensures ReplanFrom(answers, i).batches ==
            AttemptBatches(answers[i]) + if Retried(answers[i]) then ReplanFrom(answers, i + 1).batches else []
  {
    JoinRuns(AttemptBatches(answers[i]), [], []);
  }

  lemma InEitherPart<T>(a: seq<T>, b: seq<T>, k: nat)
    requires k < |a + b|
    ensures (a + b)[k] == if k < |a| then a[k] else b[k - |a|]
  {
  }

  lemma OnlyBatch(a: PlannerAnswer, k: nat)
    requires a.response.Returned? ==> |a.worlds| == |ActionCalls(a.response.value)|
    requires k < |AttemptBatches(a)|
    ensures AttemptBatches(a) == [AttemptBatches(a)[k]]
  {
  }

  /** Every batch of a replan is that of one of its answers. */
  lemma {:induction false} BatchOfAnswer(answers: seq<PlannerAnswer>, i: nat, k: nat) returns (j: nat)
    requires |answers| == 2 && WorldsFit(answers) && i <= 2 && k < |ReplanFrom(answers, i).batches|
    ensures i <= j < 2 && AttemptBatches(answers[j]) == [ReplanFrom(answers, i).batches[k]]
    decreases 2 - i
  {
    BatchesOf(answers, i);
    var first := AttemptBatches(answers[i]);
    var later := if Retried(answers[i]) then ReplanFrom(answers, i + 1).batches else [];
    InEitherPart(first, later, k);
    if k < |first| {
      j := i;
      OnlyBatch(answers[i], k);
    } else {
      j := BatchOfAnswer(answers, i + 1, k - |first|);
    }
  }

  /** Whatever a replan's answers call, only tools that the snapshot of the answer offers, and not the planner's
      own, are run. */
  lemma ReplanRunsOnlyOffered(answers: seq<PlannerAnswer>, i: nat, k: nat)
    requires |answers| == 2 && WorldsFit(answers) && i <= 2 && k < |ReplanFrom(answers, i).batches|
    ensures exists j :: i <= j < 2 && RunsOnly(ReplanFrom(answers, i).batches[k], answers[j].offered - {"submit_plan"})
  {
    var j := BatchOfAnswer(answers, i, k);
    AttemptRunsOnlyOffered(answers[j]);
    assert RunsOnly(AttemptBatches(answers[j])[0], answers[j].offered - {"submit_plan"});
  }

  /** Only a plan that an answer gave and that was still wanted is installed; a first answer whose plan is
      stale ends the replan, with nothing installed, appended or run. */
  lemma {:induction false} ReplanInstallsOnlyWanted(answers: seq<PlannerAnswer>, i: nat)
    requires |answers| == 2 && WorldsFit(answers) && i <= 2
    ensures var plans := ReplanFrom(answers, i).installed;
            forall k :: 0 <= k < |plans| ==>
              exists j :: i <= j < 2 && answers[j].accepted && answers[j].plan == Returned(plans[k])
    ensures i < 2 && answers[i].response.Returned? && answers[i].plan.Returned? && !answers[i].accepted ==>
              ReplanFrom(answers, i) == ReplanRun([], [], Returned(None))
    decreases 2 - i
  {
    if i < 2 {
      var first, plans := AttemptPlans(answers[i]), ReplanFrom(answers, i).installed;
      ReplanInstallsOnlyWanted(answers, i + 1);
      forall k | 0 <= k < |plans|
        ensures exists j :: i <= j < 2 && answers[j].accepted && answers[j].plan == Returned(plans[k])
      {
        if k >= |first| {
          assert plans[k] == ReplanFrom(answers, i + 1).installed[k - |first|];
        }
      }
    }
  }

  lemma JoinRuns<T>(a: seq<T>, b: seq<T>, c: seq<T>)
    ensures a + (b + c) == a + b + c && a + [] == a
  {
  }

  /** `run` is what has happened already, followed by `rest`. */
  ghost predicate Continues(run: ReplanRun, bs: seq<Batch>, plans: seq<Plan>, rest: ReplanRun) {
    run.batches == bs + rest.batches && run.installed == plans + rest.installed && run.outcome == rest.outcome
  }

  lemma ContinuesNothing(run: ReplanRun, bs: seq<Batch>, plans: seq<Plan>)
    ensures Continues(run, bs, plans, ReplanRun([], [], run.outcome)) <==> run.batches == bs && run.installed == plans
  {
    JoinRuns(bs, [], []);
    JoinRuns(plans, [], []);
  }

  /** One attempt done: either the run is over, or it continues with the next attempt. */
  lemma AttemptStep(answers: seq<PlannerAnswer>, i: nat, run: ReplanRun, bs: seq<Batch>, plans: seq<Plan>)
    requires |answers| == 2 && WorldsFit(answers) && i < 2
    requires Continues(run, bs, plans, ReplanFrom(answers, i))
    ensures var ended := AttemptOutcome(answers[i]);
            var bs', plans' := bs + AttemptBatches(answers[i]), plans + AttemptPlans(answers[i]);
            && (ended.Raised? && ended.error != Other && ended.error != Http ==>
                  Continues(run, bs', plans', ReplanFrom(answers, i + 1)))
            && (ended.Returned? || ended.error == Other || ended.error == Http ==>
                  run.batches == bs' && run.installed == plans'
                  && run.outcome == if ended == Raised(Http) then Returned(None) else ended)
  {
    var rest := ReplanFrom(answers, i + 1);
    JoinRuns(bs, AttemptBatches(answers[i]), rest.batches);
    JoinRuns(plans, AttemptPlans(answers[i]), rest.installed);
  }

  function LastPlan(plans: seq<Plan>, before: Option<Plan>): Option<Plan> {
    if plans == [] then before else Some(plans[|plans| - 1])
  }

  /** History and plan after the batches `bs` and plans `plans`. */
  ghost predicate Progress(before: seq<Message>, plan0: Option<Plan>, bs: seq<Batch>, plans: seq<Plan>,
                           now: seq<Message>, plan: Option<Plan>) {
    AllBatches(bs) && now == before + AppendedAll(bs) && plan == LastPlan(plans, plan0)
  }

  lemma ProgressMore(before: seq<Message>, plan0: Option<Plan>, bs: seq<Batch>, plans: seq<Plan>,
                     now: seq<Message>, plan: Option<Plan>, a: PlannerAnswer)
    requires Progress(before, plan0, bs, plans, now, plan)
    requires a.response.Returned? ==> |a.worlds| == |ActionCalls(a.response.value)|
    ensures Progress(before, plan0, bs + AttemptBatches(a), plans + AttemptPlans(a),
                     now + AppendedAll(AttemptBatches(a)), if Installs(a) then Some(a.plan.value) else plan)
  {
    AppendedMore(before, bs, AttemptBatches(a));
  }

  lemma ProgressDone(before: seq<Message>, plan0: Option<Plan>, bs: seq<Batch>, plans: seq<Plan>,
                     now: seq<Message>, plan: Option<Plan>, run: ReplanRun)
    requires Progress(before, plan0, bs, plans, now, plan) && run.batches == bs && run.installed == plans
    ensures now == before + AppendedAll(run.batches) && plan == LastPlan(run.installed, plan0)
  {
  }

  class PlannerLoop {
    const history: HM.HistoryManager
    var planState: Option<Plan>
    var invalidJsonCount: nat
    var unhealthy: bool

    constructor ()
      ensures fresh(history) && history.messages == [] && planState.None? && !unhealthy
    {
      history := new HM.HistoryManager(40);
      planState, invalidJsonCount, unhealthy := None, 0, false;
    }

    method Replan(answers: seq<PlannerAnswer>) returns (outcome: Attempted<Option<Plan>>)
      requires |answers| == 2 && WorldsFit(answers)
      modifies this, history
      ensures outcome == ReplanFrom(answers, 0).outcome
      ensures history.messages == old(history.messages) + AppendedAll(ReplanFrom(answers, 0).batches)
      ensures planState == LastPlan(ReplanFrom(answers, 0).installed, old(planState))
      ensures outcome.Returned? && outcome.value.Some? ==> !unhealthy && invalidJsonCount == 0
    {
      ghost var run, before, plan0 := ReplanFrom(answers, 0), history.messages, planState;
      ghost var bs: seq<Batch>, plans: seq<Plan> := [], [];
      for attempt := 0 to 2
        invariant Progress(before, plan0, bs, plans, history.messages, planState)
        invariant Continues(run, bs, plans, ReplanFrom(answers, attempt))
      {
        var answer := answers[attempt];
        AttemptStep(answers, attempt, run, bs, plans);
        ProgressMore(before, plan0, bs, plans, history.messages, planState, answer);
        var ended := Attempt(answer);
        bs, plans := bs + AttemptBatches(answer), plans + AttemptPlans(answer);
        var over, result := AfterAttempt(ended, attempt);
        if over {
          ContinuesNothing(run, bs, plans);
          ProgressDone(before, plan0, bs, plans, history.messages, planState, run);
          return result;
        }
      }
      ContinuesNothing(run, bs, plans);
      ProgressDone(before, plan0, bs, plans, history.messages, planState, run);
      return Returned(None);
    }

    /** The exception handlers, and the bookkeeping of success. */
    method AfterAttempt(ended: Attempted<Option<Plan>>, attempt: nat)
        returns (over: bool, result: Attempted<Option<Plan>>)
      modifies this
      ensures over <==> ended.Returned? || ended.error == Other || ended.error == Http || attempt == 1
      ensures over ==> result == if ended.Raised? && ended.error != Other then Returned(None) else ended
      ensures planState == old(planState)
      ensures ended.Returned? && ended.value.Some? ==> !unhealthy && invalidJsonCount == 0
    {
      result := Returned(None);
      match ended {
        case Returned(plan) =>
          if plan.Some? {
            unhealthy, invalidJsonCount := false, 0;
          }
          return true, ended;
        case Raised(error) =>
          if error == Other {
            return true, ended;
          }
          if error == Invalid {
            invalidJsonCount := invalidJsonCount + 1;
          }
          over := error == Http || attempt == 1;
          if over {
            unhealthy := true;
          }
      }
    }

    /** One attempt: an accepted answer's plan is installed before its message is appended and its tools
        run. */
    method Attempt(answer: PlannerAnswer) returns (r: Attempted<Option<Plan>>)
      requires answer.response.Returned? ==> |answer.worlds| == |ActionCalls(answer.response.value)|
      modifies this, history
      ensures r == AttemptOutcome(answer)
      ensures history.messages == old(history.messages) + AppendedAll(AttemptBatches(answer))
      ensures planState == if Installs(answer) then Some(answer.plan.value) else old(planState)
      ensures invalidJsonCount == old(invalidJsonCount) && unhealthy == old(unhealthy)
    {
      OneBatch(AttemptBatches(answer));
      if answer.response.Raised? {
        return Raised(answer.response.error);
      }
      if answer.plan.Raised? {
        return Raised(answer.plan.error);
      }
      if !answer.accepted {
        return Returned(None);
      }
      var calls := ActionCalls(answer.response.value);
      planState := Some(answer.plan.value);
      if answer.lookups.Some? {
        return Raised(answer.lookups.value);
      }
      ghost var before := history.messages;
      var message := CallMessage(Object(answer.plan.value.fields), calls);
      history.Append(message);
      var e := ExecuteResponse(calls, answer.Allowed(), history, answer.worlds);
      AppendTwice(before, [message], Replies(calls, e.results));
      return if e.error.None? then Returned(Some(answer.plan.value)) else Raised(e.error.value);
    }

    /** The copy of the recent window that goes into the planner's prompt. */
    method PromptHistory() returns (compact: seq<Message>)
      ensures compact == RewriteAll(RecentWindow(history.messages, 8))
    {
      var recent := history.RecentForPrompt(8);
      compact := [];
      for i := 0 to |recent|
        invariant compact == RewriteAll(recent[..i])
      {
        compact := compact + [Rewrite(recent[i])];
      }
      assert recent[..|recent|] == recent;
    }
  }

  // ----- the rewritten prompt copy -----

  const RESULT_KEYS := {"success", "error", "action", "request_id", "game_action", "waited_ms", "map_id",
                        "current_map_id", "final_map_id", "reward_claimed", "quest_reward_claimed",
                        "completed_dungeon_run", "completed_full_maintenance", "completed_town_setup",
                        "completed_entry_travel", "completed_sparkfly_route_to_tekks",
                        "completed_tekks_entry_prepare", "completed_recovery_travel", "waypoint_iterations",
                        "chest_successes", "boss_completed", "recommended_next_action", "reason"}

  const PLAN_KEYS := {"phase", "intent", "next_step", "deviation"}

  function KeepKeys(f: Fields, keys: set<string>): Fields {
    map k | k in f && k in keys && f[k] != Null :: f[k]
  }

  function Cut(s: string, n: nat): string {
    if |s| <= n then s else s[..n]
  }

  function RewriteContent(c: Content, isReply: bool): Content {
    match c
    case Object(f) => Object(KeepKeys(f, if isReply then RESULT_KEYS else PLAN_KEYS))
    case Text(t) => if isReply then Object(map["content" := Str(Cut(t, 400))]) else Text(Cut(t, 600))
    case OtherJson(t) => if isReply then Object(map["content" := Str(Cut(t, 400))]) else c
    case _ => c
  }

  function Rewrite(m: Message): Message {
    Message(m.role, RewriteContent(m.content, m.role.Tool?),
            if m.role.Assistant? then m.calls else [],
            if m.role.Tool? then m.replyTo else Missing)
  }

  function RewriteAll(s: seq<Message>): (t: seq<Message>)
    ensures |t| == |s|
    ensures forall i :: 0 <= i < |s| ==> t[i] == Rewrite(s[i])
  {
    seq(|s|, i requires 0 <= i < |s| => Rewrite(s[i]))
  }

  /** `f` without its nulls and without the keys outside `keys`. */
  ghost predicate KeepsExactly(r: Content, f: Fields, keys: set<string>) {
    && r.Object?
    && (forall key :: key in r.fields <==> key in f && key in keys && f[key] != Null)
    && (forall key :: key in r.fields ==> r.fields[key] == f[key])
  }

  /** The first `n` characters of a text, or all of it. */
  predicate IsStart(t: string, s: string, n: nat) {
    t <= s && (t == s || |t| == n) && |t| <= n
  }

  /** An object with the start of a text. */
  predicate HoldsStart(c: Content, s: string, n: nat) {
    c.Object? && c.fields.Keys == {"content"} && c.fields["content"].Str? && IsStart(c.fields["content"].s, s, n)
  }

  /** A rewritten message has its role, its calls if it is the assistant's, and the id it replies to. Of an
      object only known keys with a value are kept, and of a text only the start: 400 characters of a reply,
      which becomes an object, and 600 of any other message. */
  lemma RewriteExactly(m: Message)
    ensures var r := Rewrite(m);
            && r.role == m.role
            && r.calls == (if m.role.Assistant? then m.calls else [])
            && r.replyTo == (if m.role.Tool? then m.replyTo else Missing)
            && (m.content.Object? ==>
                  KeepsExactly(r.content, m.content.fields, if m.role.Tool? then RESULT_KEYS else PLAN_KEYS))
            && (m.content.Text? && !m.role.Tool? ==> r.content.Text? && IsStart(r.content.text, m.content.text, 600))
            && (m.content.Text? && m.role.Tool? ==> HoldsStart(r.content, m.content.text, 400))
            && (m.content.OtherJson? && m.role.Tool? ==> HoldsStart(r.content, m.content.json, 400))
            && (m.content.OtherJson? && !m.role.Tool? ==> r.content == m.content)
  {
  }

  /** Rewriting keeps what validity looks at, so the rewritten copy is valid when the window is. */
  lemma RewriteKeepsSafe(s: seq<Message>)
    requires PromptSafe(s)
    ensures PromptSafe(RewriteAll(s))
  {
    var t := RewriteAll(s);
    forall i | 0 <= i < |t| ensures NotOrphan(t, i) && FullyAnswered(t, i) {
      assert NotOrphan(s, i) && FullyAnswered(s, i);
      if s[i].role.Tool? {
        var j :| Answers(s, j, i);
        RewriteAnswers(s, t, j, i);
      }
      if OpensGroup(s[i]) {
        forall id | id in ExpectedIds(t[i]) ensures Answered(t, i, id) {
          assert Answered(s, i, id);
          var k :| i < k < |s| && s[k].role.Tool? && s[k].replyTo == id && OnlyRepliesBetween(s, i, k);
          assert t[k].replyTo == id && OnlyRepliesBetween(t, i, k);
        }
      }
    }
  }

  lemma RewriteAnswers(s: seq<Message>, t: seq<Message>, j: int, i: int)
    requires |t| == |s| && forall k :: 0 <= k < |s| ==> t[k] == Rewrite(s[k])
    requires 0 <= i < |s| && s[i].role.Tool? && Answers(s, j, i)
    ensures Answers(t, j, i)
  {
    var id :| id in ExpectedIds(s[j]) && Unanswered(s, j + 1, i, id);
    assert forall k :: j + 1 <= k < i ==> t[k].replyTo == s[k].replyTo;
    assert Unanswered(t, j + 1, i, id);
    assert OnlyRepliesBetween(t, j, i);
  }

  /** Whatever a history holds, after any exit of any replan or tick, the window sent to a model
      and the planner's rewritten copy of it have no orphan reply and no half-answered call. */
  lemma PromptAlwaysSafe(history: seq<Message>, limit: int)
    ensures PromptSafe(RecentWindow(history, limit))
    ensures PromptSafe(RewriteAll(RecentWindow(history, limit)))
  {
    if limit > 0 {
      RecentWindowIsLongestSuffix(history, limit);
    }
    WellFormedExactly(RecentWindow(history, limit));
    RewriteKeepsSafe(RecentWindow(history, limit));
  }

  // ----- the executor -----

  /** What a tick meets: a reason to stay idle, a failing model, or a response. Timeouts and HTTP errors
      of the model are handled, its other exceptions leave the tick. */
  datatype TickWorld =
    | Idle(note: Option<string>)
    | ModelFailed(error: Error)
    | Responded(content: string, calls: seq<ToolCall>, worlds: seq<CallWorld>)

  /** What a tick adds: the batch of a response that has text or calls, or an idle note. */
  function TickBatches(world: TickWorld, allowed: set<string>, last: Option<Content>): (bs: seq<Batch>)
    requires world.Responded? ==> |world.worlds| == |world.calls|
    ensures AllBatches(bs)
  {
    match world
    case ModelFailed(_) => []
    case Idle(note) => if note.Some? && last != Some(Text(note.value)) then [Batch(Text(note.value), [], [])] else []
    case Responded(content, calls, worlds) => ResponseBatches(content, calls, worlds, allowed)
  }

  function ResponseBatches(content: string, calls: seq<ToolCall>, worlds: seq<CallWorld>,
                           allowed: set<string>): (bs: seq<Batch>)
    requires |worlds| == |calls|
    ensures AllBatches(bs) && |bs| <= 1
  {
    if calls == [] && content == "" then []
    else [Batch(Text(content), calls, Execute(calls, Some(allowed), worlds).results)]
  }

  ghost predicate TickReturns(world: TickWorld, allowed: set<string>)
    requires world.Responded? ==> |world.worlds| == |world.calls|
  {
    match world
    case Idle(_) => true
    case ModelFailed(error) => error == Timeout || error == Http
    case Responded(_, calls, worlds) => Execute(calls, Some(allowed), worlds).error.None?
  }

  function LastContent(s: seq<Message>): Option<Content> {
    if s == [] then None else Some(s[|s| - 1].content)
  }

  /** Whether a tick that returns also trims: after every response, and after a new idle note. */
  predicate TickTrims(world: TickWorld, last: Option<Content>) {
    world.Responded? || (world.Idle? && world.note.Some? && last != Some(Text(world.note.value)))
  }

  class ExecutorLoop {
    const history: HM.HistoryManager
    const allowed: set<string>

    constructor (allowed: set<string>)
      ensures fresh(history) && history.messages == [] && history.maxMessages == 24
    {
      this.allowed := allowed;
      history := new HM.HistoryManager(24);
    }

    method AppendIdleHistory(content: string)
      modifies history
      ensures history.messages ==
              if LastContent(old(history.messages)) == Some(Text(content)) then old(history.messages)
              else Trimmed(old(history.messages) + [CallMessage(Text(content), [])], history.maxMessages)
    {
      var n := |history.messages|;
      if n != 0 && history.messages[n - 1].content == Text(content) {
        return;
      }
      history.Append(CallMessage(Text(content), []));
      history.TrimPreservingUserMessages();
    }

    /** A response adds its batch; only when no exception leaves is the history trimmed. */
    method Respond(content: string, calls: seq<ToolCall>, worlds: seq<CallWorld>) returns (returned: bool)
      requires |worlds| == |calls|
      modifies history
      ensures returned <==> Execute(calls, Some(allowed), worlds).error.None?
      ensures var all := old(history.messages) + AppendedAll(ResponseBatches(content, calls, worlds, allowed));
              history.messages == if returned then Trimmed(all, history.maxMessages) else all
    {
      ghost var before := history.messages;
      ghost var batches := ResponseBatches(content, calls, worlds, allowed);
      OneBatch(batches);
      if calls != [] || content != "" {
        history.Append(CallMessage(Text(content), calls));
      }
      var e := ExecuteResponse(calls, Some(allowed), history, worlds);
      assert history.messages == before + AppendedAll(batches);
      if e.error.Some? {
        return false;
      }
      history.TrimPreservingUserMessages();
      return true;
    }

    /** One tick; `false` when an exception leaves it, which then has not trimmed. */
    method Tick(world: TickWorld) returns (returned: bool)
      requires world.Responded? ==> |world.worlds| == |world.calls|
      modifies history
      ensures returned <==> TickReturns(world, allowed)
      ensures var last := LastContent(old(history.messages));
              var all := old(history.messages) + AppendedAll(TickBatches(world, allowed, last));
              history.messages == if returned && TickTrims(world, last) then Trimmed(all, history.maxMessages) else all
      ensures returned ==> history.messages == AfterTick(old(history.messages), world, allowed, history.maxMessages)
    {
      OneBatch(TickBatches(world, allowed, LastContent(history.messages)));
      match world {
        case ModelFailed(error) =>
          return error == Timeout || error == Http;
        case Idle(note) =>
          if note.Some? {
            AppendIdleHistory(note.value);
            assert Batch(Text(note.value), [], []).Appended() == [CallMessage(Text(note.value), [])];
          }
          return true;
        case Responded(content, calls, worlds) =>
          returned := Respond(content, calls, worlds);
      }
    }
  }

  /** With proper ids, a tick that returns from a valid history leaves a valid history. */
  lemma TickKeepsWellFormed(h: seq<Message>, world: TickWorld, allowed: set<string>, limit: int)
    requires world.Responded? ==> |world.worlds| == |world.calls| && ProperIds(world.calls)
    requires TickReturns(world, allowed) && WellFormed(h)
    ensures var last := LastContent(h);
            var all := h + AppendedAll(TickBatches(world, allowed, last));
            WellFormed(if TickTrims(world, last) then Trimmed(all, limit) else all)
  {
    var bs := TickBatches(world, allowed, LastContent(h));
    if bs != [] {
      BatchWellFormedExactly(bs[0]);
      ProperBatchExactly(bs[0]);
      assert AllSettled(bs[1..]);
    }
    RunHistoryExactly(h, bs);
    TickHistoryExactly(h, bs, limit);
  }

  /** What a tick adds: nothing for a failed model; an idle note, unless it is the last thing that was said;
      and one message for a response that has text or calls. Whatever is added by a tick that returns is
      trimmed, and so is the history after every response. */
  lemma TickAddsExactly(world: TickWorld, allowed: set<string>, last: Option<Content>)
    requires world.Responded? ==> |world.worlds| == |world.calls|
    ensures var bs := TickBatches(world, allowed, last);
            && |bs| <= 1
            && (bs == [] <==>
                  match world
                  case ModelFailed(_) => true
                  case Idle(note) => note.None? || last == Some(Text(note.value))
                  case Responded(content, calls, _) => |content| == 0 && |calls| == 0)
            && (bs != [] && world.Idle? ==> bs[0].content == Text(world.note.value) && bs[0].calls == [])
            && (bs != [] && world.Responded? ==> bs[0].content == Text(world.content) && bs[0].calls == world.calls)
            && (TickTrims(world, last) <==> bs != [] || world.Responded?)
  {
  }

  /** The history after a tick that returns. */
  function AfterTick(h: seq<Message>, world: TickWorld, allowed: set<string>, limit: int): seq<Message>
    requires world.Responded? ==> |world.worlds| == |world.calls|
  {
    var last := LastContent(h);
    var all := h + AppendedAll(TickBatches(world, allowed, last));
    if TickTrims(world, last) then Trimmed(all, limit) else all
  }

  /** A trim keeps the last group, if it is valid. */
  lemma LastGroupStays(front: seq<Group>, g: Group, limit: int)
    requires ValidGroup(g.messages)
    ensures var gs := front + [g];
            var start := RecentStart(gs, limit, |gs|, false);
            start < |gs| && ValidOnly(gs[start..]) == ValidOnly(gs[start..|gs| - 1]) + [g]
  {
    var gs := front + [g];
    var start := RecentStart(gs, limit, |gs|, false);
    assert gs[|gs| - 1] == g;
    assert gs[start..] == gs[start..|gs| - 1] + [g];
    ValidOnlyConcat(gs[start..|gs| - 1], [g]);
    assert ValidOnly([g]) == [g] + ValidOnly([]);
  }

  lemma SingleGroup(h: seq<Message>, m: Message)
    requires m.role.Assistant? && m.calls == []
    ensures Groups(h + [m]) == Groups(h) + [Group([m])] && ValidGroup([m])
  {
    GroupsConcat(h, [m]);
    assert [m][..1] == [m] && [m][1..] == [];
  }

  lemma FlattenLast(gs: seq<Group>, m: Message)
    ensures Flatten(gs + [Group([m])]) == Flatten(gs) + [m]
  {
    FlattenConcat(gs, [Group([m])]);
    assert Flatten([Group([m])]) == [m] + Flatten([]);
  }

  lemma TrimKeepsLast(h: seq<Message>, m: Message, limit: int)
    requires m.role.Assistant? && m.calls == []
    ensures var t := Trimmed(h + [m], limit); t != [] && t[|t| - 1] == m
  {
    SingleGroup(h, m);
    var gs := Groups(h) + [Group([m])];
    LastGroupStays(Groups(h), Group([m]), limit);
    var start := RecentStart(gs, limit, |gs|, false);
    FlattenLast(ValidOnly(gs[start..|gs| - 1]), m);
  }

  /** An idle note that is repeated any number of times stands in the history once. */
  lemma IdleTwiceIsOnce(h: seq<Message>, note: Option<string>, allowed: set<string>, limit: int)
    ensures var once := AfterTick(h, Idle(note), allowed, limit);
            AfterTick(once, Idle(note), allowed, limit) == once
  {
    var once := AfterTick(h, Idle(note), allowed, limit);
    var bs := TickBatches(Idle(note), allowed, LastContent(h));
    OneBatch(bs);
    if bs != [] {
      var m := CallMessage(Text(note.value), []);
      assert bs[0].Appended() == [m];
      TrimKeepsLast(h, m, limit);
    } else {
      assert h + [] == h;
    }
    assert note.Some? ==> LastContent(once) == Some(Text(note.value));
    assert once + [] == once;
  }

  /** An executor's tick runs only the executor's tools. */
  lemma TickRunsOnlyAllowed(world: TickWorld, allowed: set<string>, last: Option<Content>)
    requires world.Responded? ==> |world.worlds| == |world.calls|
    ensures forall k :: 0 <= k < |TickBatches(world, allowed, last)| ==>
              RunsOnly(TickBatches(world, allowed, last)[k], allowed)
  {
    if world.Responded? {
      RefusedCallsFail(world.calls, Some(allowed), world.worlds);
      var results := Execute(world.calls, Some(allowed), world.worlds).results;
      forall i | 0 <= i < |results| && world.calls[i].name !in allowed
        ensures SaysFailed(results[i], world.calls[i].name)
      {
        assert Refused(world.calls[i], Some(allowed), world.worlds[i]);
      }
    }
  }

  /** After a trim, a history is valid exactly when the trim ran or the parts it was made of are. */
  lemma TickHistoryExactly(h: seq<Message>, bs: seq<Batch>, limit: int)
    requires AllBatches(bs)
    ensures var all := h + AppendedAll(bs);
            WellFormed(Trimmed(all, limit)) <==> |all| > limit || (WellFormed(h) && AllSettled(bs))
  {
    var all := h + AppendedAll(bs);
    if |all| > limit {
      TrimIsSafe(all, limit);
    }
    RunHistoryExactly(h, bs);
  }
}
