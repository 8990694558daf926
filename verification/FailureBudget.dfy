/** The retry budget of the single-model agent: a Froggy action that failed twice of late is not tried
    again, and the pruned lists of failures always count like the whole record of attempts. */
module FailureBudget {
  import opened Options

  const WINDOW_SECONDS := 180.0
  const RETRY_LIMIT := 2

  /** An attempt at an autonomous Froggy action: the time of the gate that let it pass, if it went
      through the gate, and its outcome. */
  datatype Attempt = Attempt(tool: string, gatedAt: Option<real>, success: bool, at: real)

  /** Observing and waiting have no budget. */
  predicate Budgeted(tool: string) {
    tool != "query_state" && tool != "wait"
  }

  /** The failures within the window. */
  function Recent(times: seq<real>, now: real): seq<real> {
    if times == [] then []
    else
      var last := times[|times| - 1];
      Recent(times[..|times| - 1], now) + if now - last <= WINDOW_SECONDS then [last] else []
  }

  /** The times of a tool's failures among the first `k` attempts, since its last success. */
  function FailuresSince(history: seq<Attempt>, tool: string, k: nat): seq<real>
    requires k <= |history|
  {
    if k == 0 then []
    else
      var e, before := history[k - 1], FailuresSince(history, tool, k - 1);
      if e.tool != tool then before else if e.success then [] else before + [e.at]
  }

  /** Whether the whole record up to attempt `k` exhausts the budget. */
  predicate Exhausted(history: seq<Attempt>, tool: string, k: nat, now: real)
    requires k <= |history|
  {
    Budgeted(tool) && |Recent(FailuresSince(history, tool, k), now)| >= RETRY_LIMIT
  }

  // ----- pruning -----

  lemma RecentSnoc(times: seq<real>, t: real, now: real)
    ensures Recent(times + [t], now) == Recent(times, now) + if now - t <= WINDOW_SECONDS then [t] else []
  {
    assert (times + [t])[..|times|] == times;
  }

  /** Pruning early changes nothing that a later pruning would see. */
  lemma {:induction false} RecentOfRecent(times: seq<real>, now: real, later: real)
    requires now <= later
    ensures Recent(Recent(times, now), later) == Recent(times, later)
  {
    if times != [] {
      var before, t := times[..|times| - 1], times[|times| - 1];
      RecentOfRecent(before, now, later);
      RecentSnoc(Recent(before, now), t, later);
      assert Recent(before, now) + [] == Recent(before, now);
    }
  }

  lemma {:induction false} PrefixFailures(history: seq<Attempt>, e: Attempt, tool: string, k: nat)
    requires k <= |history|
    ensures FailuresSince(history + [e], tool, k) == FailuresSince(history, tool, k)
  {
    if k > 0 {
      PrefixFailures(history, e, tool, k - 1);
    }
  }

  // ----- three failures -----

  /** The tool fails at attempt `i`, and does not succeed before attempt `k`. */
  ghost predicate FailsUnredeemed(history: seq<Attempt>, tool: string, i: nat, k: nat) {
    && i < k <= |history| && history[i].tool == tool && !history[i].success
    && forall n :: i < n < k ==> history[n].tool != tool || !history[n].success
  }

  /** How many failures count within the window after one more attempt. */
  lemma FailureStep(history: seq<Attempt>, tool: string, k: nat, now: real)
    requires 0 < k <= |history|
    ensures var e := history[k - 1];
            |Recent(FailuresSince(history, tool, k), now)| ==
            if e.tool == tool && e.success then 0
            else |Recent(FailuresSince(history, tool, k - 1), now)|
                 + if e.tool == tool && now - e.at <= WINDOW_SECONDS then 1 else 0
  {
    RecentSnoc(FailuresSince(history, tool, k - 1), history[k - 1].at, now);
  }

  lemma StaysUnredeemed(history: seq<Attempt>, tool: string, i: nat, k: nat)
    requires FailsUnredeemed(history, tool, i, k) && i < k - 1
    ensures FailsUnredeemed(history, tool, i, k - 1)
    ensures history[k - 1].tool != tool || !history[k - 1].success
  {
  }

  lemma {:induction false} OneRecent(history: seq<Attempt>, tool: string, i: nat, k: nat, now: real)
    requires FailsUnredeemed(history, tool, i, k) && now - history[i].at <= WINDOW_SECONDS
    ensures |Recent(FailuresSince(history, tool, k), now)| >= 1
    decreases k
  {
    FailureStep(history, tool, k, now);
    if i < k - 1 {
      StaysUnredeemed(history, tool, i, k);
      OneRecent(history, tool, i, k - 1, now);
    }
  }

  lemma {:induction false} TwoRecent(history: seq<Attempt>, tool: string, i: nat, j: nat, k: nat, now: real)
    requires i < j && FailsUnredeemed(history, tool, i, k) && FailsUnredeemed(history, tool, j, k)
    requires now - history[i].at <= WINDOW_SECONDS && now - history[j].at <= WINDOW_SECONDS
    ensures |Recent(FailuresSince(history, tool, k), now)| >= 2
    decreases k
  {
    FailureStep(history, tool, k, now);
    StaysUnredeemed(history, tool, i, k);
    if j < k - 1 {
      StaysUnredeemed(history, tool, j, k);
      TwoRecent(history, tool, i, j, k - 1, now);
    } else {
      OneRecent(history, tool, i, k - 1, now);
    }
  }

  /** The newest failure that counts; before it there is one less. */
  lemma {:induction false} NewestRecent(history: seq<Attempt>, tool: string, k: nat, now: real) returns (j: nat)
    requires k <= |history| && |Recent(FailuresSince(history, tool, k), now)| >= 1
    ensures FailsUnredeemed(history, tool, j, k) && now - history[j].at <= WINDOW_SECONDS
    ensures |Recent(FailuresSince(history, tool, j), now)| == |Recent(FailuresSince(history, tool, k), now)| - 1
    decreases k
  {
    j := 0;
    if k > 0 {
      FailureStep(history, tool, k, now);
      var e := history[k - 1];
      if e.tool == tool && now - e.at <= WINDOW_SECONDS {
        j := k - 1;
      } else {
        j := NewestRecent(history, tool, k - 1, now);
      }
    }
  }

  /** Two failures of a tool within the window, without a success of it since. */
  ghost predicate FailedTwice(history: seq<Attempt>, tool: string, k: nat, now: real) {
    exists i, j :: 0 <= i < j
                   && FailsUnredeemed(history, tool, i, k) && now - history[i].at <= 180.0
                   && FailsUnredeemed(history, tool, j, k) && now - history[j].at <= 180.0
  }

  /** The budget of a tool is exhausted exactly if it failed twice of late without a success since; observing
      and waiting have none. */
  lemma ExhaustedExactly(history: seq<Attempt>, tool: string, k: nat, now: real)
    requires k <= |history|
    ensures Exhausted(history, tool, k, now) <==>
            tool !in {"query_state", "wait"} && FailedTwice(history, tool, k, now)
  {
    if FailedTwice(history, tool, k, now) {
      var i, j :| 0 <= i < j
                  && FailsUnredeemed(history, tool, i, k) && now - history[i].at <= 180.0
                  && FailsUnredeemed(history, tool, j, k) && now - history[j].at <= 180.0;
      TwoRecent(history, tool, i, j, k, now);
    }
    if |Recent(FailuresSince(history, tool, k), now)| >= 2 {
      var j := NewestRecent(history, tool, k, now);
      var i := NewestRecent(history, tool, j, now);
      StaysOpen(history, tool, i, j, k);
    }
  }

  lemma StaysOpen(history: seq<Attempt>, tool: string, i: nat, j: nat, k: nat)
    requires FailsUnredeemed(history, tool, i, j) && FailsUnredeemed(history, tool, j, k)
    ensures FailsUnredeemed(history, tool, i, k)
  {
  }

  /** The clock does not go backward, and gated attempts passed the gate after all earlier outcomes. */
  ghost predicate Orderly(history: seq<Attempt>) {
    && (forall i, k :: 0 <= i < k < |history| ==> history[i].at <= history[k].at)
    && (forall i, k :: 0 <= i < k < |history| && history[k].gatedAt.Some? ==> history[i].at <= history[k].gatedAt.value)
    && (forall k :: 0 <= k < |history| && history[k].gatedAt.Some? ==> history[k].gatedAt.value <= history[k].at)
  }

  ghost predicate Gated(history: seq<Attempt>) {
    forall k :: 0 <= k < |history| && history[k].gatedAt.Some? ==>
      !Exhausted(history, history[k].tool, k, history[k].gatedAt.value)
  }

  /** Over every run: three failures of one tool without a success in between span more than the window,
      if the third went through the gate. The first two may come from anywhere. */
  lemma ThreeFailuresSpanTheWindow(history: seq<Attempt>, i: nat, j: nat, k: nat)
    requires Orderly(history) && Gated(history) && i < j < k < |history|
    requires history[k].gatedAt.Some? && Budgeted(history[k].tool)
    requires FailsUnredeemed(history, history[k].tool, i, k) && FailsUnredeemed(history, history[k].tool, j, k)
    ensures history[k].at - history[i].at > WINDOW_SECONDS
  {
    var gate := history[k].gatedAt.value;
    assert history[i].at <= history[j].at <= gate <= history[k].at;
    if gate - history[i].at <= WINDOW_SECONDS {
      TwoRecent(history, history[k].tool, i, j, k, gate);
      assert false;
    }
  }

  /** In every run, any three failures of the tool without a success in between span more than the window, if
      the third went through the gate, or did not, as `gated` says. */
  ghost predicate AlwaysSpans(tool: string, gated: bool) {
    forall history: seq<Attempt>, i: nat, j: nat, k: nat ::
        ThreeFailures(history, tool, i, j, k) && history[k].gatedAt.Some? == gated ==>
      SpansWindow(history, i, k)
  }

  ghost predicate ThreeFailures(history: seq<Attempt>, tool: string, i: nat, j: nat, k: nat) {
    && Orderly(history) && Gated(history) && i < j < k < |history|
    && history[k].tool == tool && !history[k].success
    && FailsUnredeemed(history, tool, i, k) && FailsUnredeemed(history, tool, j, k)
  }

  predicate SpansWindow(history: seq<Attempt>, i: nat, k: nat)
    requires i < k < |history|
  {
    history[k].at - history[i].at > WINDOW_SECONDS
  }

  function Crowded(tool: string, gatedAt: Option<real>): seq<Attempt> {
    [Attempt(tool, None, false, 1.0), Attempt(tool, None, false, 2.0), Attempt(tool, gatedAt, false, 3.0)]
  }

  /** Three failures a second apart; the last one may skip the gate, or needs none. */
  lemma CrowdedFailures(tool: string, gatedAt: Option<real>)
    requires gatedAt.Some? ==> gatedAt.value == 3.0 && !Budgeted(tool)
    ensures var history := Crowded(tool, gatedAt);
            ThreeFailures(history, tool, 0, 1, 2) && !SpansWindow(history, 0, 2)
  {
    var history := Crowded(tool, gatedAt);
    assert FailsUnredeemed(history, tool, 0, 2);
  }

  /** Three failures always span the window exactly for a tool with a budget whose third attempt goes
      through the gate; what the harness does on its own may crowd. */
  lemma GateSpansExactly(tool: string, gated: bool)
    ensures AlwaysSpans(tool, gated) <==> gated && tool !in {"query_state", "wait"}
  {
    if gated && Budgeted(tool) {
      forall history: seq<Attempt>, i: nat, j: nat, k: nat
        | ThreeFailures(history, tool, i, j, k) && history[k].gatedAt.Some?
        ensures SpansWindow(history, i, k)
      {
        ThreeFailuresSpanTheWindow(history, i, j, k);
      }
    } else {
      var gatedAt := if gated then Some(3.0) else None;
      CrowdedFailures(tool, gatedAt);
      var history := Crowded(tool, gatedAt);
      assert ThreeFailures(history, tool, 0, 1, 2) && history[2].gatedAt.Some? == gated;
    }
  }

  // ----- the agent's lists -----

  function Kept(failed: map<string, seq<real>>, tool: string): seq<real> {
    if tool in failed then failed[tool] else []
  }

  /** The list of every tool counts like the record, now and at any later time. */
  ghost predicate CountsLike(failed: map<string, seq<real>>, history: seq<Attempt>, clock: real) {
    forall tool: string :: Budgeted(tool) ==>
      Recent(Kept(failed, tool), clock) == Recent(FailuresSince(history, tool, |history|), clock)
  }

  lemma CountsLater(failed: map<string, seq<real>>, history: seq<Attempt>, clock: real, later: real, tool: string)
    requires CountsLike(failed, history, clock) && clock <= later && Budgeted(tool)
    ensures Recent(Kept(failed, tool), later) == Recent(FailuresSince(history, tool, |history|), later)
  {
    RecentOfRecent(Kept(failed, tool), clock, later);
    RecentOfRecent(FailuresSince(history, tool, |history|), clock, later);
  }

  lemma PruneCounts(failed: map<string, seq<real>>, history: seq<Attempt>, clock: real, tool: string, now: real)
    requires CountsLike(failed, history, clock) && clock <= now && Budgeted(tool)
    ensures CountsLike(failed[tool := Recent(Kept(failed, tool), now)], history, now)
  {
    var pruned := failed[tool := Recent(Kept(failed, tool), now)];
    forall other: string | Budgeted(other)
      ensures Recent(Kept(pruned, other), now) == Recent(FailuresSince(history, other, |history|), now)
    {
      CountsLater(failed, history, clock, now, other);
      RecentOfRecent(Kept(failed, other), now, now);
    }
  }

  lemma FailureCounts(failed: map<string, seq<real>>, history: seq<Attempt>, clock: real, e: Attempt)
    requires CountsLike(failed, history, clock) && clock <= e.at && !e.success && Budgeted(e.tool)
    ensures CountsLike(failed[e.tool := Recent(Kept(failed, e.tool), e.at) + [e.at]], history + [e], e.at)
  {
    var after := failed[e.tool := Recent(Kept(failed, e.tool), e.at) + [e.at]];
    forall tool: string | Budgeted(tool)
      ensures Recent(Kept(after, tool), e.at) == Recent(FailuresSince(history + [e], tool, |history| + 1), e.at)
    {
      PrefixFailures(history, e, tool, |history|);
      CountsLater(failed, history, clock, e.at, tool);
      if tool == e.tool {
        RecentSnoc(Recent(Kept(failed, tool), e.at), e.at, e.at);
        RecentOfRecent(Kept(failed, tool), e.at, e.at);
        RecentSnoc(FailuresSince(history, tool, |history|), e.at, e.at);
      }
    }
  }

  lemma OtherOutcomeCounts(failed: map<string, seq<real>>, history: seq<Attempt>, clock: real, e: Attempt)
    requires CountsLike(failed, history, clock) && clock <= e.at && (e.success || !Budgeted(e.tool))
    ensures CountsLike(if e.success && e.tool != "query_state" then failed - {e.tool} else failed, history + [e], e.at)
  {
    var after := if e.success && e.tool != "query_state" then failed - {e.tool} else failed;
    forall tool: string | Budgeted(tool)
      ensures Recent(Kept(after, tool), e.at) == Recent(FailuresSince(history + [e], tool, |history| + 1), e.at)
    {
      PrefixFailures(history, e, tool, |history|);
      CountsLater(failed, history, clock, e.at, tool);
    }
  }

  ghost predicate AllBefore(history: seq<Attempt>, clock: real) {
    forall i :: 0 <= i < |history| ==> history[i].at <= clock
  }

  lemma SnocGated(history: seq<Attempt>, e: Attempt)
    requires Orderly(history) && Gated(history) && AllBefore(history, e.at)
    requires e.gatedAt.Some? ==>
               e.gatedAt.value <= e.at && AllBefore(history, e.gatedAt.value)
               && !Exhausted(history, e.tool, |history|, e.gatedAt.value)
    ensures Orderly(history + [e]) && Gated(history + [e]) && AllBefore(history + [e], e.at)
  {
    var all := history + [e];
    forall k | 0 <= k < |all| && all[k].gatedAt.Some? ensures !Exhausted(all, all[k].tool, k, all[k].gatedAt.value) {
      PrefixFailures(history, e, all[k].tool, k);
    }
  }

  class FroggyBudget {
    var failedActions: map<string, seq<real>>
    ghost var history: seq<Attempt>
    ghost var clock: real

    ghost predicate Valid()
      reads this
    {
      && CountsLike(failedActions, history, clock)
      && Orderly(history) && Gated(history)
      && AllBefore(history, clock)
    }

    constructor ()
      ensures Valid() && history == [] && clock == 0.0
    {
      failedActions, history, clock := map[], [], 0.0;
    }

    /** The list comprehension that drops old failures. */
    method Prune(tool: string, now: real) returns (failures: seq<real>)
      ensures failures == Recent(Kept(failedActions, tool), now)
    {
      var times := Kept(failedActions, tool);
      failures := [];
      for i := 0 to |times|
        invariant failures == Recent(times[..i], now)
      {
        RecentSnoc(times[..i], times[i], now);
        assert times[..i + 1] == times[..i] + [times[i]];
        if now - times[i] <= WINDOW_SECONDS {
          failures := failures + [times[i]];
        }
      }
      assert times[..|times|] == times;
    }

    /** The gate blocks a tool exactly when the whole record holds two failures within the window since
        the tool's last success. */
    method Blocked(tool: string, now: real) returns (blocked: bool)
      requires Valid() && clock <= now
      modifies this`failedActions, this`clock
      ensures Valid() && clock <= now
      ensures blocked <==> Exhausted(history, tool, |history|, now)
    {
      if tool == "query_state" || tool == "wait" {
        return false;
      }
      CountsLater(failedActions, history, clock, now, tool);
      PruneCounts(failedActions, history, clock, tool, now);
      var failures := Prune(tool, now);
      failedActions := failedActions[tool := failures];
      clock := now;
      blocked := |failures| >= RETRY_LIMIT;
    }

    /** The bookkeeping of an outcome, of an attempt that passed the gate or skipped it. */
    method Enrich(tool: string, ghost gatedAt: Option<real>, success: bool, now: real)
      requires Valid() && clock <= now
      requires gatedAt.Some? ==>
                 gatedAt.value <= now && AllBefore(history, gatedAt.value)
                 && !Exhausted(history, tool, |history|, gatedAt.value)
      modifies this
      ensures Valid() && clock == now
      ensures history == old(history) + [Attempt(tool, gatedAt, success, now)]
    {
      ghost var e := Attempt(tool, gatedAt, success, now);
      if success && tool != "query_state" {
        OtherOutcomeCounts(failedActions, history, clock, e);
        failedActions := failedActions - {tool};
      } else if !success && tool != "query_state" && tool != "wait" {
        FailureCounts(failedActions, history, clock, e);
        var failures := Prune(tool, now);
        failedActions := failedActions[tool := failures + [now]];
      } else {
        OtherOutcomeCounts(failedActions, history, clock, e);
      }
      SnocGated(history, e);
      history := history + [e];
      clock := now;
    }

    /** One call of the model: the gate, and if it lets the call pass, the action and its outcome. */
    method ExecuteToolCall(tool: string, gateAt: real, success: bool, doneAt: real) returns (executed: bool)
      requires Valid() && clock <= gateAt <= doneAt
      modifies this
      ensures Valid()
      ensures executed <==> !Exhausted(old(history), tool, |old(history)|, gateAt)
      ensures history == old(history) + if executed then [Attempt(tool, Some(gateAt), success, doneAt)] else []
    {
      var blocked := Blocked(tool, gateAt);
      if blocked {
        return false;
      }
      Enrich(tool, Some(gateAt), success, doneAt);
      return true;
    }
  }

  /** Over the whole run of a budget: three failures of one tool without a success in between span more than
      the window, if the third went through the gate. */
  lemma BudgetSpansTheWindow(budget: FroggyBudget, i: nat, j: nat, k: nat)
    requires budget.Valid() && i < j < k < |budget.history|
    requires budget.history[k].gatedAt.Some? && Budgeted(budget.history[k].tool)
    requires FailsUnredeemed(budget.history, budget.history[k].tool, i, k)
    requires FailsUnredeemed(budget.history, budget.history[k].tool, j, k)
    ensures budget.history[k].at - budget.history[i].at > WINDOW_SECONDS
  {
    ThreeFailuresSpanTheWindow(budget.history, i, j, k);
  }

  /** A budget on which the harness lets a dungeon loop fail three times within two seconds. */
  method UngatedFailuresMayCrowd() returns (budget: FroggyBudget)
    ensures fresh(budget) && budget.Valid() && ThreeFailures(budget.history, "froggy_run_dungeon_loop", 0, 1, 2)
    ensures |budget.history| == 3 && budget.history[2].gatedAt.None? && !SpansWindow(budget.history, 0, 2)
  {
    budget := new FroggyBudget();
    budget.Enrich("froggy_run_dungeon_loop", None, false, 1.0);
    budget.Enrich("froggy_run_dungeon_loop", None, false, 2.0);
    budget.Enrich("froggy_run_dungeon_loop", None, false, 3.0);
    CrowdedFailures("froggy_run_dungeon_loop", None);
  }
}
