/** Waking the planner: the first reason that an evaluation finds, the debounce that holds it back, and
    the map changes that no debounce may lose. */
module PlanController {
  import opened Options
  import opened Snapshots
  import opened Texts
  import Plans

  const HARD_EVENTS: set<string> :=
    {"party_defeated", "inventory_full", "map_changed", "instance_load", "dialog_opened", "merchant_opened",
     "maintenance_complete", "maintenance_completed", "dungeon_complete", "dungeon_completed", "reward_complete",
     "reward_claimed", "return_to_outpost", "wipe_recovery", "trade_request_received"}

  const BYPASS_DEBOUNCE_REASONS: set<string> :=
    {"map_changed", "instance_load", "dungeon_complete", "dungeon_completed", "reward_complete", "reward_claimed",
     "return_to_outpost", "wipe_recovery"}

  datatype Policy = Strict | Balanced | Aggressive

  /** `stalledTicks` counts the executor's stalls in a row since the last approval. */
  datatype State = State(lastReplanAt: real, stalledTicks: nat, lastMapId: Option<int>, lastSignature: Option<string>)

  const INIT := State(0.0, 0, None, None)

  /** What an evaluation looks at; `again` is the clock as the plan's expiry is compared. */
  datatype Input = Input(plan: Plans.Plan, snapshot: Snapshot, events: seq<string>, now: real, again: real)

  // ----- reasons -----

  function MapId(s: Snapshot): Option<int> {
    if s.mapId.Int? then Some(s.mapId.value) else None
  }

  /** The first hard event, if there is one. */
  function HardEvent(events: seq<string>): (name: string)
    ensures name != "" ==> name in HARD_EVENTS
  {
    if events == [] then ""
    else if events[0] in HARD_EVENTS then events[0]
    else HardEvent(events[1..])
  }

  /** `deviation_distance or off_route_distance`. */
  function Distance(route: Route): Option<real> {
    if route.deviationDistance.Some? && route.deviationDistance.value != 0.0 then route.deviationDistance
    else route.offRouteDistance
  }

  function KindOf(condition: Plans.Argument): string {
    if condition.Dict? && "kind" in condition.entries && condition.entries["kind"].Str? then
      condition.entries["kind"].s
    else ""
  }

  predicate OffRoute(condition: Plans.Argument, s: Snapshot) {
    var entries := if condition.Dict? then condition.entries else map[];
    var units := if "units" in entries then Plans.AsNumber(entries["units"]) else Some(2500.0);
    Distance(s.route).Some? && units.Some? && Distance(s.route).value > units.value
  }

  /** The situation that an abort condition describes has come. */
  predicate Fires(condition: Plans.Argument, s: Snapshot) {
    || (KindOf(condition) == "party_defeated" && s.partyDefeated)
    || (KindOf(condition) == "inventory_full" && s.freeSlots == Int(0))
    || (KindOf(condition) == "off_route_distance" && OffRoute(condition, s))
  }

  /** `distance` is what the route says: the deviation, unless it is absent or 0, or else the distance off the
      route. */
  predicate RouteSays(route: Route, distance: real) {
    || (route.deviationDistance == Some(distance) && distance != 0.0)
    || (route.deviationDistance in {None, Some(0.0)} && route.offRouteDistance == Some(distance))
  }

  /** `units` is the limit of a condition: a number, or 2500 if none is given. */
  predicate UnitsAre(entries: map<string, Plans.Argument>, units: real) {
    if "units" !in entries then units == 2500.0
    else entries["units"] == Plans.Float(units) || (entries["units"].Int? && entries["units"].n as real == units)
  }

  /** A condition fires exactly if it is an object of one of three kinds and its situation has come; off the
      route means further than the limit. */
  lemma FiresExactly(condition: Plans.Argument, s: Snapshot)
    ensures Fires(condition, s) <==>
            && condition.Dict? && "kind" in condition.entries
            && (|| (condition.entries["kind"] == Plans.Str("party_defeated") && s.partyDefeated)
                || (condition.entries["kind"] == Plans.Str("inventory_full") && s.freeSlots == Int(0))
                || (&& condition.entries["kind"] == Plans.Str("off_route_distance")
                    && exists distance: real, units: real ::
                         RouteSays(s.route, distance) && UnitsAre(condition.entries, units) && distance > units))
  {
    if condition.Dict? && OffRoute(condition, s) {
      var units := if "units" in condition.entries then Plans.AsNumber(condition.entries["units"]).value else 2500.0;
      assert RouteSays(s.route, Distance(s.route).value) && UnitsAre(condition.entries, units);
    }
  }

  function AbortReason(conditions: seq<Plans.Argument>, s: Snapshot): string {
    if conditions == [] then ""
    else if KindOf(conditions[0]) == "party_defeated" && s.partyDefeated then "abort:party_defeated"
    else if KindOf(conditions[0]) == "inventory_full" && s.freeSlots == Int(0) then "abort:inventory_full"
    else if KindOf(conditions[0]) == "off_route_distance" && OffRoute(conditions[0], s) then "abort:off_route_distance"
    else AbortReason(conditions[1..], s)
  }

  /** A map other than the last one that was looked at. */
  predicate MapChanged(st: State, s: Snapshot) {
    MapId(s).Some? && st.lastMapId.Some? && MapId(s) != st.lastMapId
  }

  /** The reason, when neither a hard event nor a change of map gives one. */
  function QuietReason(st: State, input: Input): string {
    if input.again >= input.plan.expiresAt then "plan_expired"
    else if input.snapshot.partyDefeated then "party_defeated"
    else if input.snapshot.freeSlots == Int(0) then "inventory_full"
    else
      var abort := AbortReason(input.plan.abortConditions, input.snapshot);
      if abort != "" then abort
      else if st.stalledTicks >= 5 then "executor_stalled"
      else ""
  }

  function ReasonFor(st: State, input: Input): string {
    var hard := HardEvent(input.events);
    if hard != "" then hard
    else if MapChanged(st, input.snapshot) then "map_changed"
    else QuietReason(st, input)
  }

  /** A hard event leaves the map unseen. */
  function NoteMap(st: State, input: Input): State {
    if HardEvent(input.events) == "" && MapId(input.snapshot).Some? then st.(lastMapId := MapId(input.snapshot)) else st
  }

  function Signature(input: Input, reason: string): string {
    Decimal(MapIdOrZero(input.snapshot)) + "|" + input.plan.phase + "|" + input.plan.nextStep + "|" + reason
  }

  // ----- evaluation -----

  datatype Verdict = NoReason | Debounced(debounced: string) | Duplicate(duplicate: string) | Replan(reason: string)

  predicate Soon(st: State, reason: string, now: real, minInterval: real) {
    reason !in BYPASS_DEBOUNCE_REASONS && now - st.lastReplanAt < minInterval
  }

  predicate Repeats(st: State, input: Input, reason: string) {
    reason !in HARD_EVENTS && st.lastSignature == Some(Signature(input, reason))
  }

  function Judge(st: State, input: Input, policy: Policy, minInterval: real): Verdict {
    var reason := ReasonFor(st, input);
    if reason == "" then NoReason
    else if policy.Aggressive? then Replan(reason)
    else if Soon(st, reason, input.now, minInterval) then Debounced(reason)
    else if policy.Strict? && Repeats(st, input, reason) then Duplicate(reason)
    else Replan(reason)
  }

  function Evaluate(st: State, input: Input, policy: Policy, minInterval: real): State {
    var verdict := Judge(st, input, policy, minInterval);
    if verdict.Replan? then
      var signature := Signature(input, verdict.reason);
      NoteMap(st, input).(lastReplanAt := input.now, lastSignature := Some(signature), stalledTicks := 0)
    else NoteMap(st, input)
  }

  // ----- whole runs -----

  /** What happens to a controller: the executor reports a tick, or the loop asks for a verdict. */
  datatype Event = ExecutorTick(countsAsStall: bool) | Evaluation(input: Input)

  function Step(st: State, e: Event, policy: Policy, minInterval: real): State {
    match e
    case ExecutorTick(stalls) => st.(stalledTicks := if stalls then st.stalledTicks + 1 else 0)
    case Evaluation(input) => Evaluate(st, input, policy, minInterval)
  }

  function After(history: seq<Event>, policy: Policy, minInterval: real): State {
    if history == [] then INIT
    else Step(After(history[..|history| - 1], policy, minInterval), history[|history| - 1], policy, minInterval)
  }

  function VerdictAt(history: seq<Event>, j: nat, policy: Policy, minInterval: real): Verdict
    requires j < |history| && history[j].Evaluation?
  {
    Judge(After(history[..j], policy, minInterval), history[j].input, policy, minInterval)
  }

  datatype Approval = Approval(at: real, reason: string, signature: string)

  function NewApproval(st: State, e: Event, policy: Policy, minInterval: real): seq<Approval> {
    if e.Evaluation? then
      var verdict := Judge(st, e.input, policy, minInterval);
      if verdict.Replan? then [Approval(e.input.now, verdict.reason, Signature(e.input, verdict.reason))] else []
    else []
  }

  function Approvals(history: seq<Event>, policy: Policy, minInterval: real): seq<Approval> {
    if history == [] then []
    else
      var before := history[..|history| - 1];
      Approvals(before, policy, minInterval)
      + NewApproval(After(before, policy, minInterval), history[|history| - 1], policy, minInterval)
  }

  /** The clock does not go backward, and reads at most `bound` at the end. */
  ghost predicate ClockOk(history: seq<Event>, bound: real) {
    && (forall i, j :: 0 <= i < j < |history| && history[i].Evaluation? && history[j].Evaluation? ==>
          history[i].input.now <= history[j].input.now)
    && (forall i :: 0 <= i < |history| && history[i].Evaluation? ==> history[i].input.now <= bound)
  }

  ghost predicate SuccessivelySpaced(log: seq<Approval>, policy: Policy, minInterval: real) {
    forall j :: 0 < j < |log| ==> SpacedIn(log, j, policy, minInterval)
  }

  predicate SpacedIn(log: seq<Approval>, j: int, policy: Policy, minInterval: real)
    requires 0 < j < |log|
  {
    SpacedAt(log[j - 1], log[j], policy, minInterval)
  }

  /** What the log of approvals shows, and how the state remembers the last of them. */
  ghost predicate Spaced(log: seq<Approval>, st: State, policy: Policy, minInterval: real, bound: real) {
    && (forall i :: 0 <= i < |log| ==> log[i].at <= bound)
    && SuccessivelySpaced(log, policy, minInterval)
    && (log != [] ==> st.lastReplanAt == log[|log| - 1].at && st.lastSignature == Some(log[|log| - 1].signature))
  }

  /** Of two successive approvals: the second waits out the interval unless its reason bypasses the
      debounce, and under the strict policy it repeats the first only for a hard reason. */
  predicate SpacedAt(previous: Approval, next: Approval, policy: Policy, minInterval: real) {
    && previous.at <= next.at
    && (!policy.Aggressive? && next.reason !in BYPASS_DEBOUNCE_REASONS ==> next.at - previous.at >= minInterval)
    && (policy.Strict? && next.reason !in HARD_EVENTS ==> next.signature != previous.signature)
  }

  lemma StepKeepsSpaced(log: seq<Approval>, st: State, e: Event, policy: Policy, minInterval: real,
                        bound: real, later: real)
    requires Spaced(log, st, policy, minInterval, bound)
    requires if e.Evaluation? then bound <= e.input.now <= later else bound <= later
    ensures Spaced(log + NewApproval(st, e, policy, minInterval), Step(st, e, policy, minInterval),
                   policy, minInterval, later)
  {
    var more := NewApproval(st, e, policy, minInterval);
    if more == [] {
      assert log + more == log;
    } else if log != [] {
      OneMoreSpaced(log, more[0], policy, minInterval);
    }
  }

  lemma OneMoreSpaced(log: seq<Approval>, next: Approval, policy: Policy, minInterval: real)
    requires SuccessivelySpaced(log, policy, minInterval)
    requires log != [] ==> SpacedAt(log[|log| - 1], next, policy, minInterval)
    ensures SuccessivelySpaced(log + [next], policy, minInterval)
  {
    forall j | 0 < j < |log + [next]| ensures SpacedIn(log + [next], j, policy, minInterval) {
      if j < |log| {
        assert SpacedIn(log, j, policy, minInterval);
      }
    }
  }

  /** Over every run with a clock that does not go backward, successive approvals are spaced. */
  lemma {:induction false} ApprovalsAreSpaced(history: seq<Event>, policy: Policy, minInterval: real, bound: real)
    requires ClockOk(history, bound)
    ensures Spaced(Approvals(history, policy, minInterval), After(history, policy, minInterval),
                   policy, minInterval, bound)
  {
    if history != [] {
      var n := |history| - 1;
      var before, e := history[..n], history[n];
      var middle := if e.Evaluation? then e.input.now else bound;
      assert forall i :: 0 <= i < n ==> before[i] == history[i];
      ApprovalsAreSpaced(before, policy, minInterval, middle);
      StepKeepsSpaced(Approvals(before, policy, minInterval), After(before, policy, minInterval), e,
                      policy, minInterval, middle, bound);
    }
  }

  /** How many of the approvals at indices `lo` up to `hi` have a reason that the debounce covers. */
  function Debounceable(log: seq<Approval>, lo: nat, hi: nat): nat
    requires lo <= hi <= |log|
    decreases hi
  {
    if lo == hi then 0
    else Debounceable(log, lo, hi - 1) + if log[hi - 1].reason in BYPASS_DEBOUNCE_REASONS then 0 else 1
  }

  /** The length of `k` intervals, `k * x`. */
  function Intervals(k: nat, x: real): real {
    if k == 0 then 0.0 else Intervals(k - 1, x) + x
  }

  lemma {:induction false} IntervalsMultiply(k: nat, x: real)
    ensures Intervals(k, x) == k as real * x
  {
    if k > 0 {
      IntervalsMultiply(k - 1, x);
    }
  }

  lemma {:induction false} CountTimesInterval(log: seq<Approval>, lo: nat, hi: nat, policy: Policy, minInterval: real)
    requires lo < hi <= |log| && !policy.Aggressive?
    requires SuccessivelySpaced(log, policy, minInterval)
    ensures var k := Debounceable(log, lo, hi);
            log[lo].at <= log[hi - 1].at && (k > 0 ==> Intervals(k - 1, minInterval) <= log[hi - 1].at - log[lo].at)
    decreases hi
  {
    if lo + 1 < hi {
      CountTimesInterval(log, lo, hi - 1, policy, minInterval);
      assert SpacedIn(log, hi - 1, policy, minInterval);
    } else {
      assert Debounceable(log, lo, lo) == 0;
    }
  }

  /** Under the strict and balanced policies: `k` approvals with debounced reasons, anywhere in a run,
      span at least `k - 1` intervals. */
  lemma DebounceBoundsApprovals(history: seq<Event>, policy: Policy, minInterval: real, bound: real, lo: nat, hi: nat)
    requires ClockOk(history, bound) && !policy.Aggressive?
    requires lo < hi <= |Approvals(history, policy, minInterval)|
    ensures var log := Approvals(history, policy, minInterval); var k := Debounceable(log, lo, hi);
            k > 0 ==> Intervals(k - 1, minInterval) <= log[hi - 1].at - log[lo].at
  {
    ApprovalsAreSpaced(history, policy, minInterval, bound);
    CountTimesInterval(Approvals(history, policy, minInterval), lo, hi, policy, minInterval);
  }

  /** Under the strict policy no approval repeats the previous one's signature, except for a hard event. */
  lemma StrictNeverRepeats(history: seq<Event>, minInterval: real, bound: real, j: nat)
    requires ClockOk(history, bound) && 0 < j < |Approvals(history, Strict, minInterval)|
    ensures var log := Approvals(history, Strict, minInterval);
            log[j].reason in HARD_EVENTS || log[j].signature != log[j - 1].signature
  {
    ApprovalsAreSpaced(history, Strict, minInterval, bound);
    var log := Approvals(history, Strict, minInterval);
    assert SpacedIn(log, j, Strict, minInterval);
  }

  /** What the state remembers of the approvals is the last of them. */
  predicate Remembers(st: State, log: seq<Approval>) {
    && st.lastReplanAt == (if log == [] then 0.0 else log[|log| - 1].at)
    && st.lastSignature == (if log == [] then None else Some(log[|log| - 1].signature))
  }

  lemma StepRemembers(st: State, log: seq<Approval>, e: Event, policy: Policy, minInterval: real)
    requires Remembers(st, log)
    ensures Remembers(Step(st, e, policy, minInterval), log + NewApproval(st, e, policy, minInterval))
  {
    var more := NewApproval(st, e, policy, minInterval);
    if more == [] {
      assert log + more == log;
    }
  }

  lemma {:induction false} RemembersLast(history: seq<Event>, policy: Policy, minInterval: real)
    ensures Remembers(After(history, policy, minInterval), Approvals(history, policy, minInterval))
  {
    if history != [] {
      var before := history[..|history| - 1];
      RemembersLast(before, policy, minInterval);
      StepRemembers(After(before, policy, minInterval), Approvals(before, policy, minInterval),
                    history[|history| - 1], policy, minInterval);
    }
  }

  /** Over every run: a reason is approved exactly if the policy is aggressive; or it bypasses the debounce or
      the interval since the last approval is over, and, under the strict policy, it is a hard one or the last
      approval had another signature. */
  lemma ApprovedExactly(history: seq<Event>, j: nat, policy: Policy, minInterval: real)
    requires j < |history| && history[j].Evaluation?
    ensures var log, input := Approvals(history[..j], policy, minInterval), history[j].input;
            var reason := ReasonFor(After(history[..j], policy, minInterval), input);
            var waited := input.now - (if |log| > 0 then log[|log| - 1].at else 0.0);
            && (VerdictAt(history, j, policy, minInterval).Replan? <==>
                  && reason != ""
                  && (|| policy == Aggressive
                      || (&& (reason in BYPASS_DEBOUNCE_REASONS || waited >= minInterval)
                          && (policy == Strict && reason !in HARD_EVENTS && |log| > 0 ==>
                                log[|log| - 1].signature != Signature(input, reason)))))
            && (VerdictAt(history, j, policy, minInterval).Replan? ==>
                  VerdictAt(history, j, policy, minInterval).reason == reason)
  {
    RemembersLast(history[..j], policy, minInterval);
  }

  /** Without bars in phase and next step, two signatures are the same exactly for the same map, phase, next
      step and reason. */
  lemma SignatureExactly(a: Input, b: Input, reason: string, other: string)
    requires NoBar(a.plan.phase) && NoBar(a.plan.nextStep) && NoBar(b.plan.phase) && NoBar(b.plan.nextStep)
    ensures Signature(a, reason) == Signature(b, other) <==>
            && MapIdOrZero(a.snapshot) == MapIdOrZero(b.snapshot)
            && a.plan.phase == b.plan.phase && a.plan.nextStep == b.plan.nextStep && reason == other
  {
    var m, n := MapIdOrZero(a.snapshot), MapIdOrZero(b.snapshot);
    var s, t := a.plan.nextStep + ("|" + reason), b.plan.nextStep + ("|" + other);
    DecimalHasNoBar(m);
    DecimalHasNoBar(n);
    DecimalDiffers(m, n);
    SplitAtBar(a.plan.nextStep, b.plan.nextStep, reason, other);
    SplitAtBar(a.plan.phase, b.plan.phase, s, t);
    SplitAtBar(Decimal(m), Decimal(n), a.plan.phase + ("|" + s), b.plan.phase + ("|" + t));
    Nested(Decimal(m), a.plan.phase, a.plan.nextStep, reason);
    Nested(Decimal(n), b.plan.phase, b.plan.nextStep, other);
  }

  lemma Nested(a: string, b: string, c: string, d: string)
    ensures a + "|" + b + "|" + c + "|" + d == a + ("|" + (b + ("|" + (c + ("|" + d)))))
  {
  }

  // ----- no map change is lost -----

  /** An evaluation that looks at the map: it has no hard event, and the snapshot names a map. */
  predicate LooksAtMap(e: Event) {
    e.Evaluation? && HardEvent(e.input.events) == "" && e.input.snapshot.mapId.Int?
  }

  /** The map of the last evaluation that looked at one. */
  function LastLook(history: seq<Event>): Option<int> {
    if history == [] then None
    else if LooksAtMap(history[|history| - 1]) then Some(history[|history| - 1].input.snapshot.mapId.value)
    else LastLook(history[..|history| - 1])
  }

  lemma {:induction false} RecordedMapIsLastLook(history: seq<Event>, policy: Policy, minInterval: real)
    ensures After(history, policy, minInterval).lastMapId == LastLook(history)
  {
    if history != [] {
      RecordedMapIsLastLook(history[..|history| - 1], policy, minInterval);
    }
  }

  lemma {:induction false} LookIsLast(history: seq<Event>, i: nat, j: nat)
    requires i < j <= |history| && LooksAtMap(history[i])
    requires forall k :: i < k < j ==> !LooksAtMap(history[k])
    ensures LastLook(history[..j]) == Some(history[i].input.snapshot.mapId.value)
  {
    assert history[..j][j - 1] == history[j - 1];
    if i < j - 1 {
      LookIsLast(history, i, j - 1);
      assert history[..j][..j - 1] == history[..j - 1];
    }
  }

  lemma MapChangeBypasses()
    ensures "map_changed" in BYPASS_DEBOUNCE_REASONS && "map_changed" in HARD_EVENTS && "map_changed" != ""
  {
  }

  /** Under every policy, the next evaluation that looks at the map approves `map_changed` if the map is
      another one, however many evaluations with hard events came in between and whatever they approved. */
  lemma NoMapChangeIsLost(history: seq<Event>, i: nat, j: nat, policy: Policy, minInterval: real)
    requires i < j < |history| && LooksAtMap(history[i]) && LooksAtMap(history[j])
    requires forall k :: i < k < j ==> !LooksAtMap(history[k])
    requires history[i].input.snapshot.mapId != history[j].input.snapshot.mapId
    ensures VerdictAt(history, j, policy, minInterval) == Replan("map_changed")
  {
    RecordedMapIsLastLook(history[..j], policy, minInterval);
    LookIsLast(history, i, j);
    MapChangeBypasses();
  }

  lemma QuietReasonIsNoMapChange(st: State, input: Input)
    ensures QuietReason(st, input) != "map_changed"
  {
    AbortIsNoMapChange(input.plan.abortConditions, input.snapshot);
  }

  lemma {:induction false} AbortIsNoMapChange(conditions: seq<Plans.Argument>, s: Snapshot)
    ensures AbortReason(conditions, s) != "map_changed"
  {
    if conditions != [] {
      AbortIsNoMapChange(conditions[1..], s);
    }
  }

  /** `map_changed` is approved exactly where it is the first hard event, or where the map differs from
      the one that was looked at last. */
  lemma MapChangedExactly(history: seq<Event>, j: nat, policy: Policy, minInterval: real)
    requires j < |history| && history[j].Evaluation?
    ensures VerdictAt(history, j, policy, minInterval) == Replan("map_changed") <==>
            || HardEvent(history[j].input.events) == "map_changed"
            || (LooksAtMap(history[j]) && LastLook(history[..j]).Some?
                && LastLook(history[..j]).value != history[j].input.snapshot.mapId.value)
  {
    RecordedMapIsLastLook(history[..j], policy, minInterval);
    MapChangeBypasses();
    QuietReasonIsNoMapChange(After(history[..j], policy, minInterval), history[j].input);
  }

  // ----- no cause is missed -----

  lemma {:induction false} AbortMeaning(conditions: seq<Plans.Argument>, s: Snapshot)
    ensures AbortReason(conditions, s) != "" <==> exists i :: 0 <= i < |conditions| && Fires(conditions[i], s)
  {
    if conditions != [] {
      AbortMeaning(conditions[1..], s);
      if AbortReason(conditions[1..], s) != "" {
        var i :| 0 <= i < |conditions| - 1 && Fires(conditions[1..][i], s);
        assert conditions[1..][i] == conditions[i + 1];
      } else {
        forall i | 0 < i < |conditions| ensures !Fires(conditions[i], s) {
          assert conditions[1..][i - 1] == conditions[i];
        }
      }
    }
  }

  lemma {:induction false} HardEventMeaning(events: seq<string>)
    ensures HardEvent(events) != "" <==> exists i :: 0 <= i < |events| && events[i] in HARD_EVENTS
  {
    if events != [] {
      HardEventMeaning(events[1..]);
      if events[0] in HARD_EVENTS {
        NamesAreNotEmpty(events[0]);
      } else if HardEvent(events[1..]) != "" {
        var i :| 0 <= i < |events| - 1 && events[1..][i] in HARD_EVENTS;
        assert events[1..][i] == events[i + 1];
      } else {
        forall i | 0 < i < |events| ensures events[i] !in HARD_EVENTS {
          assert events[1..][i - 1] == events[i];
        }
      }
    }
  }

  lemma NamesAreNotEmpty(name: string)
    requires name in HARD_EVENTS
    ensures name != ""
  {
  }

  /** An evaluation finds no reason exactly if there is none: no hard event, no other map, no expiry, no
      defeat, no full inventory, no abort condition that fires, and fewer than five stalls in a row. */
  lemma NothingIsMissed(st: State, input: Input)
    ensures ReasonFor(st, input) == "" <==>
            && (forall i :: 0 <= i < |input.events| ==> input.events[i] !in HARD_EVENTS)
            && !MapChanged(st, input.snapshot)
            && input.again < input.plan.expiresAt
            && !input.snapshot.partyDefeated
            && input.snapshot.freeSlots != Int(0)
            && (forall i :: 0 <= i < |input.plan.abortConditions| ==>
                !Fires(input.plan.abortConditions[i], input.snapshot))
            && st.stalledTicks < 5
  {
    HardEventMeaning(input.events);
    AbortMeaning(input.plan.abortConditions, input.snapshot);
  }

  lemma {:induction false} AbortHasCause(conditions: seq<Plans.Argument>, s: Snapshot)
    ensures var r := AbortReason(conditions, s);
            && (r == "" || "abort:" <= r)
            && (r == "abort:party_defeated" ==> s.partyDefeated)
            && (r == "abort:inventory_full" ==> s.freeSlots == Int(0))
            && (r == "abort:off_route_distance" ==>
                  exists i :: 0 <= i < |conditions| && KindOf(conditions[i]) == "off_route_distance"
                      && OffRoute(conditions[i], s))
  {
    if conditions != [] {
      AbortHasCause(conditions[1..], s);
      var r := AbortReason(conditions[1..], s);
      assert "abort:party_defeated"[6] == 'p' && "abort:inventory_full"[6] == 'i';
      if AbortReason(conditions, s) == r {
        var rest := conditions[1..];
        if i :| 0 <= i < |rest| && KindOf(rest[i]) == "off_route_distance" && OffRoute(rest[i], s) {
          assert conditions[1..][i] == conditions[i + 1];
        }
      }
    }
  }

  /** A quiet reason names its cause. */
  lemma QuietReasonHasCause(st: State, input: Input)
    ensures var r := QuietReason(st, input); var s := input.snapshot;
            && (r == "plan_expired" <==> input.again >= input.plan.expiresAt)
            && (r == "party_defeated" ==> s.partyDefeated)
            && (r == "inventory_full" ==> s.freeSlots == Int(0) && !s.partyDefeated)
            && (r == "executor_stalled" ==> st.stalledTicks >= 5)
  {
    AbortHasCause(input.plan.abortConditions, input.snapshot);
    assert "plan_expired"[1] == 'l' && "party_defeated"[0] == 'p';
    assert "inventory_full"[0] == 'i' && "executor_stalled"[0] == 'e';
    assert "abort:"[0] == 'a';
  }

  predicate ApprovedAt(history: seq<Event>, j: nat, policy: Policy, minInterval: real)
    requires j < |history|
  {
    history[j].Evaluation? && VerdictAt(history, j, policy, minInterval).Replan?
  }

  predicate EndsStalls(history: seq<Event>, j: nat, policy: Policy, minInterval: real)
    requires j < |history|
  {
    history[j] == ExecutorTick(false) || ApprovedAt(history, j, policy, minInterval)
  }

  function Ticks(history: seq<Event>, lo: nat, hi: nat): nat
    requires lo <= hi <= |history|
    decreases hi
  {
    if lo == hi then 0 else Ticks(history, lo, hi - 1) + if history[hi - 1].ExecutorTick? then 1 else 0
  }

  /** From `lo` up to `hi` every executor tick stalled and nothing was approved. */
  predicate OnlyStalls(history: seq<Event>, lo: nat, hi: nat, policy: Policy, minInterval: real)
    requires lo <= hi <= |history|
    decreases hi
  {
    || lo == hi
    || (OnlyStalls(history, lo, hi - 1, policy, minInterval) && !EndsStalls(history, hi - 1, policy, minInterval))
  }

  lemma StallStep(history: seq<Event>, hi: nat, policy: Policy, minInterval: real)
    requires 0 < hi <= |history|
    ensures After(history[..hi], policy, minInterval).stalledTicks ==
            if EndsStalls(history, hi - 1, policy, minInterval) then 0
            else After(history[..hi - 1], policy, minInterval).stalledTicks
                 + if history[hi - 1].ExecutorTick? then 1 else 0
  {
    assert history[..hi][..hi - 1] == history[..hi - 1] && history[..hi][hi - 1] == history[hi - 1];
  }

  function StallsAfter(history: seq<Event>, hi: nat, policy: Policy, minInterval: real): int
    requires hi <= |history|
  {
    After(history[..hi], policy, minInterval).stalledTicks
  }

  /** One step of a stretch of stalls, which adds its tick. */
  lemma StretchStep(history: seq<Event>, lo: nat, hi: nat, policy: Policy, minInterval: real)
    requires lo < hi <= |history| && !EndsStalls(history, hi - 1, policy, minInterval)
    ensures OnlyStalls(history, lo, hi - 1, policy, minInterval) ==> OnlyStalls(history, lo, hi, policy, minInterval)
    ensures StallsAfter(history, hi, policy, minInterval) - Ticks(history, lo, hi)
            == StallsAfter(history, hi - 1, policy, minInterval) - Ticks(history, lo, hi - 1)
  {
    StallStep(history, hi, policy, minInterval);
  }

  lemma StallsStart(history: seq<Event>, hi: nat, policy: Policy, minInterval: real)
    requires hi <= |history| && (hi > 0 ==> EndsStalls(history, hi - 1, policy, minInterval))
    ensures OnlyStalls(history, hi, hi, policy, minInterval)
    ensures StallsAfter(history, hi, policy, minInterval) == Ticks(history, hi, hi)
  {
    if hi > 0 {
      StallStep(history, hi, policy, minInterval);
    }
  }

  lemma StallsNext(history: seq<Event>, lo: nat, hi: nat, policy: Policy, minInterval: real) returns (from: nat)
    requires lo < hi <= |history| && OnlyStalls(history, lo, hi - 1, policy, minInterval)
    requires StallsAfter(history, hi - 1, policy, minInterval) == Ticks(history, lo, hi - 1)
    ensures from <= hi && OnlyStalls(history, from, hi, policy, minInterval)
    ensures StallsAfter(history, hi, policy, minInterval) == Ticks(history, from, hi)
  {
    if EndsStalls(history, hi - 1, policy, minInterval) {
      from := hi;
      StallsStart(history, hi, policy, minInterval);
    } else {
      from := lo;
      StretchStep(history, lo, hi, policy, minInterval);
    }
  }

  /** The counted stalls are the executor's ticks in a stretch of the run, reaching to its end, in which
      every tick stalled and nothing was approved. */
  lemma {:induction false} StallsAreCounted(history: seq<Event>, hi: nat, policy: Policy, minInterval: real)
      returns (lo: nat)
    requires hi <= |history|
    ensures lo <= hi && OnlyStalls(history, lo, hi, policy, minInterval)
    ensures StallsAfter(history, hi, policy, minInterval) == Ticks(history, lo, hi)
  {
    if hi == 0 {
      lo := 0;
      StallsStart(history, 0, policy, minInterval);
    } else {
      lo := StallsAreCounted(history, hi - 1, policy, minInterval);
      lo := StallsNext(history, lo, hi, policy, minInterval);
    }
  }

  /** Every such stretch is counted in full. */
  lemma {:induction false} StallsAreAtLeast(history: seq<Event>, lo: nat, hi: nat, policy: Policy, minInterval: real)
    requires lo <= hi <= |history| && OnlyStalls(history, lo, hi, policy, minInterval)
    ensures StallsAfter(history, hi, policy, minInterval) >= Ticks(history, lo, hi)
    decreases hi
  {
    if lo < hi {
      StallsAreAtLeast(history, lo, hi - 1, policy, minInterval);
      StretchStep(history, lo, hi, policy, minInterval);
    }
  }

  // ----- the controller -----

  class PlanController {
    const minIntervalSeconds: real
    const policy: Policy
    var lastReplanAt: real
    var stalledTicks: nat
    var lastMapId: Option<int>
    var lastSignature: Option<string>
    var lastSuppressionReason: string
    ghost var history: seq<Event>

    ghost predicate Valid()
      reads this
    {
      State(lastReplanAt, stalledTicks, lastMapId, lastSignature) == After(history, policy, minIntervalSeconds)
    }

    constructor (minIntervalSeconds: real := 5.0, policy: Policy := Balanced)
      ensures Valid() && history == [] && this.policy == policy && this.minIntervalSeconds == minIntervalSeconds
    {
      this.minIntervalSeconds, this.policy := minIntervalSeconds, policy;
      lastReplanAt, stalledTicks, lastMapId, lastSignature, lastSuppressionReason := 0.0, 0, None, None, "";
      history := [];
    }

    method ObserveExecutorTick(countsAsStall: bool)
      requires Valid()
      modifies this`stalledTicks, this`history
      ensures Valid() && history == old(history) + [ExecutorTick(countsAsStall)]
    {
      stalledTicks := if countsAsStall then stalledTicks + 1 else 0;
      history := history + [ExecutorTick(countsAsStall)];
      assert history[..|history| - 1] == old(history);
    }

    /** The reason; a quiet evaluation notes the map as it looks. */
    method Reason(input: Input) returns (reason: string)
      modifies this`lastMapId
      ensures var st := old(State(lastReplanAt, stalledTicks, lastMapId, lastSignature));
              reason == ReasonFor(st, input) && lastMapId == NoteMap(st, input).lastMapId
    {
      var hard := HardEvent(input.events);
      if hard != "" {
        return hard;
      }
      var mapId := MapId(input.snapshot);
      if mapId.Some? {
        if lastMapId.Some? && mapId != lastMapId {
          lastMapId := mapId;
          return "map_changed";
        }
        lastMapId := mapId;
      }
      reason := QuietReason(State(lastReplanAt, stalledTicks, lastMapId, lastSignature), input);
    }

    method Evaluate(input: Input) returns (verdict: Verdict)
      requires Valid()
      modifies this`lastReplanAt, this`stalledTicks, this`lastMapId, this`lastSignature,
          this`lastSuppressionReason, this`history
      ensures Valid() && history == old(history) + [Evaluation(input)]
      ensures verdict == VerdictAt(history, |history| - 1, policy, minIntervalSeconds)
    {
      ghost var st := State(lastReplanAt, stalledTicks, lastMapId, lastSignature);
      history := history + [Evaluation(input)];
      assert history[..|history| - 1] == old(history);
      var reason := Reason(input);
      if reason == "" {
        return NoReason;
      }
      if policy != Aggressive {
        if reason !in BYPASS_DEBOUNCE_REASONS && input.now - lastReplanAt < minIntervalSeconds {
          lastSuppressionReason := "debounce:" + reason;
          return Debounced(reason);
        }
        if policy == Strict && reason !in HARD_EVENTS && Some(Signature(input, reason)) == lastSignature {
          lastSuppressionReason := "duplicate:" + reason;
          return Duplicate(reason);
        }
      }
      lastReplanAt, lastSignature := input.now, Some(Signature(input, reason));
      lastSuppressionReason, stalledTicks := "", 0;
      return Replan(reason);
    }
  }
}
