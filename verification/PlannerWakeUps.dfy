/** From the controller's verdict to a running replan: what a deterministic supervisor keeps for itself,
    what makes the loop ask for the planner all the same, and what a replan in flight swallows. */
module PlannerWakeUps {
  import opened Options
  import opened Snapshots
  import A = AsyncPlanner
  import C = PlanController
  import Plans
  import S = Supervisor

  /** The reasons that a deterministic supervisor handles on its own. */
  const SUPERVISOR_OWNED: set<string> := {"plan_expired", "map_changed", "instance_load"}

  /** The supervisor in one cycle, if there is one: whether it is deterministic, waits for the native bot,
      or asks for the planner. */
  datatype Supervision = Supervision(present: bool, deterministic: bool, nativeActive: bool, needsPlanner: bool)

  predicate InCharge(v: Supervision) {
    v.present && v.deterministic
  }

  function Approved(verdict: C.Verdict): Option<string> {
    if verdict.Replan? then Some(verdict.reason) else None
  }

  /** The supervisor's suppression of an approved reason. */
  function Suppress(reason: Option<string>, v: Supervision): Option<string> {
    if v.nativeActive && reason == Some("plan_expired") then None
    else if InCharge(v) && reason.Some? && !v.needsPlanner && reason.value in SUPERVISOR_OWNED then None
    else reason
  }

  /** User messages and a supervisor at a loss are reasons of their own. */
  function FinalReason(reason: Option<string>, v: Supervision, st: A.State): Option<string> {
    if reason.Some? then reason
    else if st.pendingMessages != [] then Some("user_message")
    else if v.needsPlanner then Some("supervisor_unknown_state")
    else None
  }

  predicate ShouldRunPlanner(reason: Option<string>, v: Supervision, st: A.State) {
    || reason.Some?
    || (st.plan.phase == "idle" && !(InCharge(v) && !v.needsPlanner && st.pendingMessages == []))
  }

  /** The loop asks for the planner. */
  predicate PlannerWanted(verdict: C.Verdict, v: Supervision, st: A.State) {
    ShouldRunPlanner(FinalReason(Suppress(Approved(verdict), v), v, st), v, st)
  }

  // ----- the verdict of a cycle -----

  /** The controller and the background planner. */
  datatype System = System(control: C.State, planner: A.State)

  /** What the verdict of a cycle meets beside the snapshot that the cycle has taken. */
  datatype Meeting = Meeting(supervision: Supervision, events: seq<string>, now: real, again: real, stalls: bool)

  function InputAt(st: A.State, m: Meeting): C.Input
    requires st.captured.Some?
  {
    C.Input(st.plan, st.captured.value, m.events, m.now, m.again)
  }

  /** From the evaluation to the end of a cycle in async mode: the loop schedules a replan if it wants one,
      and the executor ticks. */
  function Verdict(sys: System, m: Meeting, policy: C.Policy, minInterval: real): System
    requires sys.planner.captured.Some?
  {
    var st := sys.planner;
    var verdict := C.Judge(sys.control, InputAt(st, m), policy, minInterval);
    var control := C.Evaluate(sys.control, InputAt(st, m), policy, minInterval);
    System(C.Step(control, C.ExecutorTick(m.stalls), policy, minInterval),
           if PlannerWanted(verdict, m.supervision, st) then A.Schedule(st) else st)
  }

  /** A new replan runs under the context of the snapshot that the cycle has taken. */
  ghost predicate StartsReplan(st: A.State, after: A.State) {
    exists t ::
      |st.tasks| <= t < |after.tasks| && after.tasks[t].running && after.tasks[t].asked == st.captured
  }

  /** A cycle starts a replan under its context exactly if no replan is in flight and the loop asks for the
      planner; and the loop asks exactly if a user waits, the supervisor is at a loss, a reason was approved
      that no one keeps to himself, or the plan is idle and no deterministic supervisor is in charge. */
  lemma ReplanStartsExactly(sys: System, m: Meeting, policy: C.Policy, minInterval: real)
    requires sys.planner.captured.Some?
    ensures var st, v := sys.planner, m.supervision;
            var verdict := C.Judge(sys.control, InputAt(st, m), policy, minInterval);
            StartsReplan(st, Verdict(sys, m, policy, minInterval).planner) <==>
            && !A.InFlight(st)
            && (|| st.pendingMessages != []
                || v.needsPlanner
                || (verdict.Replan? && !(v.nativeActive && verdict.reason == "plan_expired")
                    && !(v.present && v.deterministic && verdict.reason in SUPERVISOR_OWNED))
                || (st.plan.phase == "idle" && !(v.present && v.deterministic)))
  {
    var st := sys.planner;
    var after := Verdict(sys, m, policy, minInterval).planner;
    if after.tasks != st.tasks {
      assert after.tasks[|st.tasks|].asked == st.captured;
    }
  }

  lemma MapChangeIsOwned()
    ensures "map_changed" in SUPERVISOR_OWNED && "map_changed" != "plan_expired"
  {
  }

  /** A map change that a cycle sees starts a replan under the new context in that cycle, exactly if no replan
      is in flight, and no deterministic supervisor is in charge that knows the new map while no user waits.
      In any case the controller has noted the new map, and will not approve this change again. */
  lemma MapChangeStartsReplanExactly(history: seq<C.Event>, i: nat, sys: System, m: Meeting,
                                     policy: C.Policy, minInterval: real)
    requires sys.planner.captured.Some? && sys.control == C.After(history, policy, minInterval)
    requires i < |history| && C.LooksAtMap(history[i]) && forall k :: i < k < |history| ==> !C.LooksAtMap(history[k])
    requires C.LooksAtMap(C.Evaluation(InputAt(sys.planner, m)))
    requires C.MapId(history[i].input.snapshot) != C.MapId(sys.planner.captured.value)
    ensures var st, v := sys.planner, m.supervision;
            var after := Verdict(sys, m, policy, minInterval);
            && (StartsReplan(st, after.planner) <==>
                  && !A.InFlight(st)
                  && (!v.present || !v.deterministic || v.needsPlanner || st.pendingMessages != []))
            && after.control.lastMapId == C.MapId(st.captured.value)
  {
    var all := history + [C.Evaluation(InputAt(sys.planner, m))];
    assert all[..|history|] == history;
    C.NoMapChangeIsLost(all, i, |history|, policy, minInterval);
    ReplanStartsExactly(sys, m, policy, minInterval);
    MapChangeIsOwned();
  }

  /** With the deterministic supervisor's own decision: a map change starts a replan exactly if none is in
      flight, and the decision fell on a map outside the cycle or a user waits. */
  lemma SupervisorPassesOnExactly(history: seq<C.Event>, i: nat, sys: System, m: Meeting,
                                  policy: C.Policy, minInterval: real, successes: S.Successes, clock: S.Clock)
    requires sys.planner.captured.Some? && sys.control == C.After(history, policy, minInterval)
    requires i < |history| && C.LooksAtMap(history[i]) && forall k :: i < k < |history| ==> !C.LooksAtMap(history[k])
    requires C.LooksAtMap(C.Evaluation(InputAt(sys.planner, m)))
    requires C.MapId(history[i].input.snapshot) != C.MapId(sys.planner.captured.value)
    requires m.supervision.present && m.supervision.deterministic
    requires m.supervision.needsPlanner == S.Decide(sys.planner.captured, m.events, successes, clock).needsPlanner
    ensures var st := sys.planner;
            var reason := S.Decide(st.captured, m.events, successes, clock).reason;
            StartsReplan(st, Verdict(sys, m, policy, minInterval).planner) <==>
            !A.InFlight(st) && (reason.UnexpectedMap? || reason.UnknownMap? || st.pendingMessages != [])
  {
    MapChangeStartsReplanExactly(history, i, sys, m, policy, minInterval);
    S.DecisionIsPermitted(sys.planner.captured, m.events, successes, clock);
  }

  // ----- runs -----

  /** What happens to the system: a step of its surroundings or of the cycle before its verdict, or the
      verdict. Only a verdict schedules. */
  datatype Happening = Elsewhere(step: A.Step) | Cycle(meeting: Meeting)

  predicate CanHappen(sys: System, h: Happening) {
    match h
    case Elsewhere(step) => A.Enabled(sys.planner, step) && !step.ScheduleReplan?
    case Cycle(_) => sys.planner.captured.Some?
  }

  function Happens(sys: System, h: Happening, policy: C.Policy, minInterval: real): System
    requires CanHappen(sys, h)
  {
    match h
    case Elsewhere(step) => sys.(planner := A.Apply(sys.planner, step))
    case Cycle(m) => Verdict(sys, m, policy, minInterval)
  }

  ghost predicate CanRun(sys: System, hs: seq<Happening>, policy: C.Policy, minInterval: real)
    decreases |hs|
  {
    || hs == []
    || (CanHappen(sys, hs[0]) && CanRun(Happens(sys, hs[0], policy, minInterval), hs[1..], policy, minInterval))
  }

  function Run(sys: System, hs: seq<Happening>, policy: C.Policy, minInterval: real): System
    requires CanRun(sys, hs, policy, minInterval)
    decreases |hs|
  {
    if hs == [] then sys else Run(Happens(sys, hs[0], policy, minInterval), hs[1..], policy, minInterval)
  }

  /** Over every run of the whole system: one background replan at most, and no stale plan installed. */
  lemma {:induction false} SystemKeepsInv(sys: System, hs: seq<Happening>, policy: C.Policy, minInterval: real)
    requires A.Inv(sys.planner) && CanRun(sys, hs, policy, minInterval)
    ensures A.Inv(Run(sys, hs, policy, minInterval).planner)
    ensures A.InstalledInSituation(Run(sys, hs, policy, minInterval).planner)
    decreases |hs|
  {
    if hs != [] {
      A.ApplyKeepsInv(sys.planner, if hs[0].Elsewhere? then hs[0].step else A.ScheduleReplan);
      SystemKeepsInv(Happens(sys, hs[0], policy, minInterval), hs[1..], policy, minInterval);
    }
    A.InvInstalls(Run(sys, hs, policy, minInterval).planner);
  }

  // ----- a map change that is never replanned -----

  /** Nothing gives the controller or the loop a reason. */
  predicate Settled(sys: System) {
    && sys.planner.latest.Some?
    && sys.control.lastMapId == C.MapId(sys.planner.latest.value)
    && sys.control.stalledTicks == 0
    && !sys.planner.latest.value.partyDefeated && sys.planner.latest.value.freeSlots != Int(0)
    && sys.planner.pendingMessages == [] && !A.InFlight(sys.planner)
    && sys.planner.plan.phase != "idle" && sys.planner.plan.abortConditions == []
  }

  const UNSUPERVISED := Supervision(false, false, false, false)

  /** A verdict without events or supervisor, before the plan expires, whose executor does not stall. */
  predicate Quiet(plan: Plans.Plan, m: Meeting) {
    m.events == [] && m.supervision == UNSUPERVISED && m.again < plan.expiresAt && !m.stalls
  }

  /** A whole cycle: the snapshot is taken, a finished replan is taken off, and the verdict follows. */
  function WholeCycle(sys: System, m: Meeting, policy: C.Policy, minInterval: real): System
    requires sys.planner.latest.Some?
  {
    Verdict(sys.(planner := A.Poll(sys.planner.(captured := sys.planner.latest))), m, policy, minInterval)
  }

  lemma QuietCycle(sys: System, m: Meeting, policy: C.Policy, minInterval: real)
    requires Settled(sys) && Quiet(sys.planner.plan, m)
    ensures var after := WholeCycle(sys, m, policy, minInterval);
            && Settled(after) && after.planner.tasks == sys.planner.tasks
            && after.planner.plan == sys.planner.plan && after.planner.latest == sys.planner.latest
  {
    assert C.HardEvent([]) == "";
  }

  function WholeCycles(sys: System, ms: seq<Meeting>, policy: C.Policy, minInterval: real): System
    requires sys.planner.latest.Some?
    decreases |ms|
  {
    if ms == [] then sys
    else WholeCycles(WholeCycle(sys, ms[0], policy, minInterval), ms[1..], policy, minInterval)
  }

  /** A settled system starts no replan over any number of quiet cycles. */
  lemma {:induction false} SettledStaysQuiet(sys: System, ms: seq<Meeting>, policy: C.Policy, minInterval: real)
    requires Settled(sys) && forall i :: 0 <= i < |ms| ==> Quiet(sys.planner.plan, ms[i])
    ensures WholeCycles(sys, ms, policy, minInterval).planner.tasks == sys.planner.tasks
    decreases |ms|
  {
    if ms != [] {
      assert Quiet(sys.planner.plan, ms[0]);
      QuietCycle(sys, ms[0], policy, minInterval);
      SettledStaysQuiet(WholeCycle(sys, ms[0], policy, minInterval), ms[1..], policy, minInterval);
    }
  }

  function At(mapId: int): Snapshot {
    Snapshot(Int(mapId), Absent, false, Int(20), Bot("", "", false, true), Me(false, false, None, None),
             Route("", None, "", Absent, None, None))
  }

  function Calm(now: real): Meeting {
    Meeting(UNSUPERVISED, [], now, now, false)
  }

  /** The start of the loop with a plan that holds until 1000. */
  function Launched(): System {
    System(C.INIT, A.Init(Plans.Plan(0.0, 1000.0, "route", Plans.RouteKind, "go", "go", None, [], [], [], "wait", "t")))
  }

  lemma RunUnfolds(sys: System, h: Happening, rest: seq<Happening>, policy: C.Policy, minInterval: real)
    requires CanHappen(sys, h) && CanRun(Happens(sys, h, policy, minInterval), rest, policy, minInterval)
    ensures CanRun(sys, [h] + rest, policy, minInterval)
    ensures Run(sys, [h] + rest, policy, minInterval)
            == Run(Happens(sys, h, policy, minInterval), rest, policy, minInterval)
  {
    assert ([h] + rest)[1..] == rest;
  }

  /** A snapshot arrives and a cycle takes it, before the rest. */
  function Visit(mapId: int, now: real, rest: seq<Happening>): seq<Happening> {
    [Elsewhere(A.SnapshotArrives(At(mapId)))]
    + ([Elsewhere(A.CycleStarts)] + ([Elsewhere(A.PollTask)] + ([Cycle(Calm(now))] + rest)))
  }

  function AfterVisit(sys: System, mapId: int, now: real, policy: C.Policy, minInterval: real): System {
    WholeCycle(sys.(planner := sys.planner.(latest := Some(At(mapId)))), Calm(now), policy, minInterval)
  }

  lemma VisitRuns(sys: System, mapId: int, now: real, rest: seq<Happening>, policy: C.Policy, minInterval: real)
    requires CanRun(AfterVisit(sys, mapId, now, policy, minInterval), rest, policy, minInterval)
    ensures CanRun(sys, Visit(mapId, now, rest), policy, minInterval)
    ensures Run(sys, Visit(mapId, now, rest), policy, minInterval)
            == Run(AfterVisit(sys, mapId, now, policy, minInterval), rest, policy, minInterval)
  {
    var s1 := Happens(sys, Elsewhere(A.SnapshotArrives(At(mapId))), policy, minInterval);
    var s2 := Happens(s1, Elsewhere(A.CycleStarts), policy, minInterval);
    var s3 := Happens(s2, Elsewhere(A.PollTask), policy, minInterval);
    var r3 := [Cycle(Calm(now))] + rest;
    var r2 := [Elsewhere(A.PollTask)] + r3;
    RunUnfolds(s3, Cycle(Calm(now)), rest, policy, minInterval);
    RunUnfolds(s2, Elsewhere(A.PollTask), r3, policy, minInterval);
    RunUnfolds(s1, Elsewhere(A.CycleStarts), r2, policy, minInterval);
    RunUnfolds(sys, Elsewhere(A.SnapshotArrives(At(mapId))), [Elsewhere(A.CycleStarts)] + r2, policy, minInterval);
  }

  /** The model of the replan responds, and its plan is taken up. */
  function LateAnswer(answer: Plans.Plan): seq<Happening> {
    [Elsewhere(A.ModelHears(0))] + ([Elsewhere(A.TaskAnswers(0, answer))] + [])
  }

  /** A user message starts a replan in the first map; the second map comes while it runs; its answer comes
      too late and is stale. */
  function LostMapChange(answer: Plans.Plan): seq<Happening> {
    [Elsewhere(A.UserSpeaks("go"))] + Visit(638, 10.0, Visit(558, 20.0, LateAnswer(answer)))
  }

  function Spoken(): System {
    Launched().(planner := Launched().planner.(pendingMessages := ["go"]))
  }

  /** The replan that the user message starts in the first map. */
  function Replan(running: bool, heard: bool): A.Task {
    A.Task(A.Key(638, ""), Some(At(638)), ["go"], running, heard)
  }

  lemma FirstCycle()
    ensures var met := AfterVisit(Spoken(), 638, 10.0, C.Balanced, 5.0);
            && met.control == C.INIT.(lastMapId := Some(638))
            && met.planner.tasks == [Replan(true, false)] && met.planner.current == Some(0)
            && met.planner.pendingMessages == [] && met.planner.installs == []
            && met.planner.plan == Launched().planner.plan
  {
    assert C.HardEvent([]) == "";
    var st := Spoken().planner.(latest := Some(At(638)), captured := Some(At(638)));
    assert PlannerWanted(C.NoReason, UNSUPERVISED, st);
    assert A.Schedule(st).tasks == [Replan(true, false)];
  }

  lemma SecondCycle(sys: System)
    requires sys.control == C.INIT.(lastMapId := Some(638))
    requires sys.planner.tasks == [Replan(true, false)] && sys.planner.current == Some(0)
    requires sys.planner.pendingMessages == [] && sys.planner.plan == Launched().planner.plan
    ensures var met := AfterVisit(sys, 558, 20.0, C.Balanced, 5.0);
            && met.planner == sys.planner.(latest := Some(At(558)), captured := Some(At(558)))
            && met.control.lastReplanAt == 20.0 && met.control.lastMapId == Some(558) && met.control.stalledTicks == 0
  {
    assert C.HardEvent([]) == "";
    C.MapChangeBypasses();
  }

  /** A run in which a map change is never replanned: the controller approves it at 20, the replan in flight
      keeps a new one from starting and ends stale, and no number of quiet cycles brings it back. */
  lemma MapChangeCanBeLost(answer: Plans.Plan, ms: seq<Meeting>)
    requires forall i :: 0 <= i < |ms| ==> Quiet(Launched().planner.plan, ms[i])
    ensures CanRun(Launched(), LostMapChange(answer), C.Balanced, 5.0)
    ensures var end := Run(Launched(), LostMapChange(answer), C.Balanced, 5.0);
            && end.control.lastReplanAt == 20.0 && end.control.lastMapId == Some(558)
            && end.planner.latest == Some(At(558)) && end.planner.installs == []
            && var tasks := WholeCycles(end, ms, C.Balanced, 5.0).planner.tasks;
            && |tasks| == 1 && tasks[0].key.mapId == 638
  {
    FirstCycle();
    var first := AfterVisit(Spoken(), 638, 10.0, C.Balanced, 5.0);
    SecondCycle(first);
    var second := AfterVisit(first, 558, 20.0, C.Balanced, 5.0);
    var heard := Happens(second, Elsewhere(A.ModelHears(0)), C.Balanced, 5.0);
    AnswerIsStale(heard, answer);
    RunUnfolds(heard, Elsewhere(A.TaskAnswers(0, answer)), [], C.Balanced, 5.0);
    RunUnfolds(second, Elsewhere(A.ModelHears(0)), [Elsewhere(A.TaskAnswers(0, answer))] + [], C.Balanced, 5.0);
    VisitRuns(first, 558, 20.0, LateAnswer(answer), C.Balanced, 5.0);
    VisitRuns(Spoken(), 638, 10.0, Visit(558, 20.0, LateAnswer(answer)), C.Balanced, 5.0);
    assert Happens(Launched(), Elsewhere(A.UserSpeaks("go")), C.Balanced, 5.0) == Spoken();
    RunUnfolds(Launched(), Elsewhere(A.UserSpeaks("go")), Visit(638, 10.0, Visit(558, 20.0, LateAnswer(answer))),
               C.Balanced, 5.0);
    SettledStaysQuiet(Happens(heard, Elsewhere(A.TaskAnswers(0, answer)), C.Balanced, 5.0), ms, C.Balanced, 5.0);
  }

  lemma AnswerIsStale(sys: System, answer: Plans.Plan)
    requires sys.planner.tasks == [Replan(true, true)] && sys.planner.current == Some(0)
    requires sys.planner.pendingMessages == [] && sys.planner.installs == []
    requires sys.planner.plan == Launched().planner.plan
    requires sys.planner.latest == Some(At(558))
    requires sys.control.lastMapId == Some(558) && sys.control.stalledTicks == 0
    ensures var end := Happens(sys, Elsewhere(A.TaskAnswers(0, answer)), C.Balanced, 5.0);
            && Settled(end) && end.control == sys.control && end.planner.installs == []
            && end.planner.tasks == [Replan(false, true)]
            && end.planner.plan == Launched().planner.plan && end.planner.latest == Some(At(558))
  {
  }
}
