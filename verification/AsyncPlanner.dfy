/** Asynchronous replanning: one background planner at a time, and no plan of a replan whose context
    has changed. Snapshots, supervisor plans and planner answers may arrive in any order. */
module AsyncPlanner {
  import opened Options
  import opened Snapshots
  import Plans

  datatype Key = Key(mapId: int, phase: string)

  /** The context of a replan: the map, 0 when it is unknown, and the bot's phase, or else its state. */
  function ContextKey(snapshot: Option<Snapshot>): Key {
    match snapshot
    case None => Key(0, "")
    case Some(s) => Key(MapIdOrZero(s), if s.bot.phase != "" then s.bot.phase else s.bot.state)
  }

  type Plan = Plans.Plan

  /** The snapshot shows this map, or it shows none that is a number and the map is 0. */
  predicate ShowsMap(snapshot: Option<Snapshot>, mapId: int) {
    if snapshot.Some? && snapshot.value.mapId.Int? then snapshot.value.mapId.value == mapId else mapId == 0
  }

  /** The bot is in this phase; where it names none, its state counts. */
  predicate InPhase(snapshot: Option<Snapshot>, phase: string) {
    match snapshot
    case None => phase == ""
    case Some(s) => if |s.bot.phase| > 0 then s.bot.phase == phase else s.bot.state == phase
  }

  /** The two snapshots agree in map and phase. */
  ghost predicate SameSituation(a: Option<Snapshot>, b: Option<Snapshot>) {
    && (exists mapId :: ShowsMap(a, mapId) && ShowsMap(b, mapId))
    && (exists phase :: InPhase(a, phase) && InPhase(b, phase))
  }

  lemma SameKeyExactly(a: Option<Snapshot>, b: Option<Snapshot>)
    ensures ContextKey(a) == ContextKey(b) <==> SameSituation(a, b)
  {
    assert ShowsMap(a, ContextKey(a).mapId) && InPhase(a, ContextKey(a).phase);
    assert ShowsMap(b, ContextKey(b).mapId) && InPhase(b, ContextKey(b).phase);
  }

  /** A background replan: the context it was requested under, with the snapshot of that moment, the user
      messages it was given, whether it still runs, and whether a call of its model got through. */
  datatype Task = Task(key: Key, asked: Option<Snapshot>, messages: seq<string>, running: bool, heard: bool)

  /** A plan put into the plan state by a background replan, with the snapshot it was requested for and the
      latest one at that moment. */
  datatype Install = Install(asked: Option<Snapshot>, met: Option<Snapshot>, plan: Plan)

  /** `captured` is the snapshot the loop took at the start of its cycle. */
  datatype State = State(
    latest: Option<Snapshot>,
    captured: Option<Snapshot>,
    tasks: seq<Task>,
    current: Option<nat>,
    pendingMessages: seq<string>,
    plan: Plan,
    installs: seq<Install>)

  function Init(plan: Plan): State {
    State(None, None, [], None, [], plan, [])
  }

  datatype Step =
    | SnapshotArrives(snapshot: Snapshot)
    | UserSpeaks(message: string)
    | CycleStarts
    | SupervisorInstalls(plan: Plan)
    | ScheduleReplan
    | ModelHears(asked: nat)
    | TaskAnswers(task: nat, answer: Plan)
    | TaskEnds(ended: nat)
    | PollTask

  predicate InFlight(st: State) {
    st.current.Some? && st.current.value < |st.tasks| && st.tasks[st.current.value].running
  }

  /** Scheduling forgets the pending user messages in either case. */
  function Schedule(st: State): State {
    if InFlight(st) then st.(pendingMessages := [])
    else
      st.(tasks := st.tasks + [Task(ContextKey(st.captured), st.captured, st.pendingMessages, true, false)],
          current := Some(|st.tasks|),
          pendingMessages := [])
  }

  /** A background replan has a plan: it is installed if the context is still the one it was requested
      under, and else the replan ends without a plan. */
  function Answer(st: State, task: nat, plan: Plan): State
    requires task < |st.tasks|
  {
    var t, now := st.tasks[task], ContextKey(st.latest);
    if now == t.key then st.(plan := plan, installs := st.installs + [Install(t.asked, st.latest, plan)])
    else st.(tasks := st.tasks[task := t.(running := false)])
  }

  function Poll(st: State): State {
    if st.current.Some? && !InFlight(st) then st.(current := None) else st
  }

  predicate Enabled(st: State, step: Step) {
    match step
    case ModelHears(t) => t < |st.tasks| && st.tasks[t].running
    case TaskAnswers(t, _) => t < |st.tasks| && st.tasks[t].running && st.tasks[t].heard
    case TaskEnds(t) => t < |st.tasks| && st.tasks[t].running
    case _ => true
  }

  function Apply(st: State, step: Step): State
    requires Enabled(st, step)
  {
    match step
    case SnapshotArrives(s) => st.(latest := Some(s))
    case UserSpeaks(m) => st.(pendingMessages := st.pendingMessages + [m])
    case CycleStarts => st.(captured := st.latest)
    case SupervisorInstalls(p) => st.(plan := p)
    case ScheduleReplan => Schedule(st)
    case ModelHears(t) => st.(tasks := st.tasks[t := st.tasks[t].(heard := true)])
    case TaskAnswers(t, p) => Answer(st, t, p)
    case TaskEnds(t) => st.(tasks := st.tasks[t := st.tasks[t].(running := false)])
    case PollTask => Poll(st)
  }

  ghost predicate Inv(st: State) {
    && (st.current.Some? ==> st.current.value < |st.tasks|)
    && (forall t :: 0 <= t < |st.tasks| && st.tasks[t].running ==> st.current == Some(t))
    && (forall t :: 0 <= t < |st.tasks| ==> st.tasks[t].key == ContextKey(st.tasks[t].asked))
    && (forall i :: 0 <= i < |st.installs| ==> ContextKey(st.installs[i].asked) == ContextKey(st.installs[i].met))
  }

  lemma ApplyKeepsInv(st: State, step: Step)
    requires Inv(st) && Enabled(st, step)
    ensures Inv(Apply(st, step))
  {
  }

  ghost predicate CanRun(st: State, steps: seq<Step>)
    decreases |steps|
  {
    steps == [] || (Enabled(st, steps[0]) && CanRun(Apply(st, steps[0]), steps[1..]))
  }

  function Run(st: State, steps: seq<Step>): State
    requires CanRun(st, steps)
    decreases |steps|
  {
    if steps == [] then st else Run(Apply(st, steps[0]), steps[1..])
  }

  lemma {:induction false} RunKeepsInv(st: State, steps: seq<Step>)
    requires Inv(st) && CanRun(st, steps)
    ensures Inv(Run(st, steps))
    decreases |steps|
  {
    if steps != [] {
      ApplyKeepsInv(st, steps[0]);
      RunKeepsInv(Apply(st, steps[0]), steps[1..]);
    }
  }

  ghost predicate InstalledInSituation(st: State) {
    forall i :: 0 <= i < |st.installs| ==> SameSituation(st.installs[i].asked, st.installs[i].met)
  }

  lemma InvInstalls(st: State)
    requires Inv(st)
    ensures InstalledInSituation(st)
  {
    forall i | 0 <= i < |st.installs| ensures SameSituation(st.installs[i].asked, st.installs[i].met) {
      SameKeyExactly(st.installs[i].asked, st.installs[i].met);
    }
  }

  /** Over all interleavings: at most one background replan runs, and every plan that one of them has
      installed was requested for a snapshot that agrees in map and phase with the latest one of that moment. */
  lemma NoStalePlans(plan: Plan, steps: seq<Step>)
    requires CanRun(Init(plan), steps)
    ensures var st := Run(Init(plan), steps);
            && (forall t, u :: 0 <= t < u < |st.tasks| ==> !st.tasks[t].running || !st.tasks[u].running)
            && InstalledInSituation(st)
  {
    RunKeepsInv(Init(plan), steps);
    InvInstalls(Run(Init(plan), steps));
  }

  /** In every state that a run gets to: an answer is installed exactly if the latest snapshot agrees in map
      and phase with the one that its replan was scheduled with; otherwise that replan is over. */
  lemma AnswerInstallsExactly(plan: Plan, steps: seq<Step>, t: nat, answer: Plan)
    requires CanRun(Init(plan), steps) && Enabled(Run(Init(plan), steps), TaskAnswers(t, answer))
    ensures var st := Run(Init(plan), steps);
            var after, fits := Apply(st, TaskAnswers(t, answer)), SameSituation(st.tasks[t].asked, st.latest);
            && after.installs == st.installs + (if fits then [Install(st.tasks[t].asked, st.latest, answer)] else [])
            && after.plan == (if fits then answer else st.plan)
            && (after.tasks[t].running <==> fits)
  {
    RunKeepsInv(Init(plan), steps);
    var st := Run(Init(plan), steps);
    SameKeyExactly(st.tasks[t].asked, st.latest);
    assert st.installs + [] == st.installs;
  }

  /** A replan is scheduled with the snapshot of its cycle, and keeps it to its end. */
  lemma AskedIsCaptured(st: State, steps: seq<Step>)
    requires !InFlight(st) && CanRun(Schedule(st), steps)
    ensures var end := Run(Schedule(st), steps);
            |st.tasks| < |end.tasks| && end.tasks[|st.tasks|].asked == st.captured
  {
    TasksKeepAsked(Schedule(st), steps, |st.tasks|);
  }

  lemma {:induction false} TasksKeepAsked(st: State, steps: seq<Step>, t: nat)
    requires CanRun(st, steps) && t < |st.tasks|
    ensures t < |Run(st, steps).tasks| && Run(st, steps).tasks[t].asked == st.tasks[t].asked
    decreases |steps|
  {
    if steps != [] {
      TasksKeepAsked(Apply(st, steps[0]), steps[1..], t);
    }
  }

  // ----- user messages -----

  /** What one step of scheduling did with the pending messages: it gave them to a new replan, or dropped
      them because one was in flight. */
  datatype Handover = Handover(task: Option<nat>, messages: seq<string>)

  /** A replan shows the model the last five of its messages. */
  const SHOWN_MESSAGES := 5

  function Shown(messages: seq<string>): seq<string> {
    if |messages| <= SHOWN_MESSAGES then messages else messages[|messages| - SHOWN_MESSAGES..]
  }

  function Spoken(steps: seq<Step>): seq<string> {
    if steps == [] then [] else (if steps[0].UserSpeaks? then [steps[0].message] else []) + Spoken(steps[1..])
  }

  /** The handovers of a run, in order. */
  function Handovers(st: State, steps: seq<Step>): seq<Handover>
    requires CanRun(st, steps)
    decreases |steps|
  {
    if steps == [] then []
    else
      (if steps[0].ScheduleReplan?
       then [Handover(if InFlight(st) then None else Some(|st.tasks|), st.pendingMessages)] else [])
      + Handovers(Apply(st, steps[0]), steps[1..])
  }

  function Given(hs: seq<Handover>): seq<string> {
    if hs == [] then [] else hs[0].messages + Given(hs[1..])
  }

  /** What of a handover reached a model, or is on its way in a replan that still asks: nothing of what was
      dropped, or given to a replan that ended before a call of its model got through. */
  function Reaches(h: Handover, tasks: seq<Task>): seq<string> {
    if h.task.None? || h.task.value >= |tasks| then []
    else if tasks[h.task.value].heard then Shown(h.messages)
    else if tasks[h.task.value].running then h.messages
    else []
  }

  function Reached(hs: seq<Handover>, tasks: seq<Task>): seq<string> {
    if hs == [] then [] else Reaches(hs[0], tasks) + Reached(hs[1..], tasks)
  }

  lemma Regroup(a: seq<string>, b: seq<string>, c: seq<string>)
    ensures (a + b) + c == a + (b + c) && [] + a == a && a + [] == a
  {
  }

  /** Conservation: over every run, the messages spoken are, in order, those of the handovers followed by
      the pending ones; none is duplicated, reordered or lost in between. */
  lemma {:induction false} MessagesAreConserved(st: State, steps: seq<Step>)
    requires CanRun(st, steps)
    ensures st.pendingMessages + Spoken(steps) == Given(Handovers(st, steps)) + Run(st, steps).pendingMessages
    decreases |steps|
  {
    Regroup(st.pendingMessages, [], []);
    if steps != [] {
      var next := Apply(st, steps[0]);
      var later, rest := Handovers(next, steps[1..]), Spoken(steps[1..]);
      MessagesAreConserved(next, steps[1..]);
      if steps[0].UserSpeaks? {
        Regroup(st.pendingMessages, [steps[0].message], rest);
        assert [] + later == later;
      } else if steps[0].ScheduleReplan? {
        assert next.pendingMessages == [];
        var h := Handover(if InFlight(st) then None else Some(|st.tasks|), st.pendingMessages);
        assert ([h] + later)[1..] == later;
        Regroup(st.pendingMessages, Given(later), Run(next, steps[1..]).pendingMessages);
        Regroup(rest, [], []);
      } else {
        assert next.pendingMessages == st.pendingMessages;
        assert [] + later == later && [] + rest == rest;
      }
    }
  }

  /** The handovers that went to a replan. */
  function ToTasks(hs: seq<Handover>): seq<Handover> {
    if hs == [] then [] else (if hs[0].task.Some? then [hs[0]] else []) + ToTasks(hs[1..])
  }

  lemma {:induction false} RunKeepsTasks(st: State, steps: seq<Step>, t: nat)
    requires CanRun(st, steps) && t < |st.tasks|
    ensures t < |Run(st, steps).tasks| && Run(st, steps).tasks[t].messages == st.tasks[t].messages
    decreases |steps|
  {
    if steps != [] {
      RunKeepsTasks(Apply(st, steps[0]), steps[1..], t);
    }
  }

  /** The handovers are those of the tasks from `first` on, in their order and with their messages. */
  ghost predicate ListsTasks(hs: seq<Handover>, tasks: seq<Task>, first: nat) {
    && |hs| == |tasks| - first
    && forall k :: 0 <= k < |hs| ==> hs[k] == Handover(Some(first + k), tasks[first + k].messages)
  }

  lemma ListsOneMore(h: Handover, hs: seq<Handover>, tasks: seq<Task>, first: nat)
    requires ListsTasks(hs, tasks, first + 1)
    requires h.task == Some(first) && h.messages == tasks[first].messages
    ensures ListsTasks([h] + hs, tasks, first)
  {
  }

  lemma ToTasksCons(h: Handover, later: seq<Handover>)
    ensures ToTasks([h] + later) == (if h.task.Some? then [h] else []) + ToTasks(later)
  {
    assert ([h] + later)[1..] == later;
  }

  /** Every replan of a run got exactly one handover, in the order of scheduling, and still has its
      messages; no handover went elsewhere. */
  lemma {:induction false} HandoversAreTasks(st: State, steps: seq<Step>)
    requires CanRun(st, steps)
    ensures ListsTasks(ToTasks(Handovers(st, steps)), Run(st, steps).tasks, |st.tasks|)
    decreases |steps|
  {
    if steps != [] {
      var next := Apply(st, steps[0]);
      var later := Handovers(next, steps[1..]);
      HandoversAreTasks(next, steps[1..]);
      if steps[0].ScheduleReplan? {
        var h := Handover(if InFlight(st) then None else Some(|st.tasks|), st.pendingMessages);
        ToTasksCons(h, later);
        if InFlight(st) {
          assert [] + ToTasks(later) == ToTasks(later);
        } else {
          RunKeepsTasks(next, steps[1..], |st.tasks|);
          ListsOneMore(h, ToTasks(later), Run(st, steps).tasks, |st.tasks|);
        }
      } else {
        assert [] + later == later;
      }
    }
  }

  /** A handover that loses nothing: it has no messages, or went to a replan that either still asks, or got
      through with at most five. */
  predicate LosesNothing(h: Handover, tasks: seq<Task>) {
    || h.messages == []
    || (&& h.task.Some? && h.task.value < |tasks|
        && var t := tasks[h.task.value];
        && (t.heard || t.running) && (t.heard ==> |h.messages| <= SHOWN_MESSAGES))
  }

  lemma {:induction false} ReachedExactly(hs: seq<Handover>, tasks: seq<Task>)
    ensures |Reached(hs, tasks)| <= |Given(hs)|
    ensures Reached(hs, tasks) == Given(hs) <==> forall i :: 0 <= i < |hs| ==> LosesNothing(hs[i], tasks)
    ensures |Reached(hs, tasks)| == |Given(hs)| ==> forall i :: 0 <= i < |hs| ==> LosesNothing(hs[i], tasks)
  {
    if hs != [] {
      ReachedExactly(hs[1..], tasks);
      forall i | 0 < i < |hs| && |Reached(hs, tasks)| == |Given(hs)| ensures LosesNothing(hs[i], tasks) {
        assert hs[i] == hs[1..][i - 1];
      }
      if forall i :: 0 <= i < |hs| ==> LosesNothing(hs[i], tasks) {
        assert LosesNothing(hs[0], tasks);
        forall i | 0 <= i < |hs[1..]| ensures LosesNothing(hs[1..][i], tasks) {
          assert hs[1..][i] == hs[i + 1];
        }
      }
    }
  }

  /** Over every run from the start: every message spoken reached a model, is with a replan that still asks, or
      is pending, exactly if no scheduling with messages met a replan in flight, no replan with messages ended
      before a call of its model got through, and none that got through had more than five. */
  lemma MessagesReachPlannerExactly(plan: Plan, steps: seq<Step>)
    requires CanRun(Init(plan), steps)
    ensures var hs, end := Handovers(Init(plan), steps), Run(Init(plan), steps);
            Reached(hs, end.tasks) + end.pendingMessages == Spoken(steps) <==>
            forall i :: 0 <= i < |hs| ==> LosesNothing(hs[i], end.tasks)
  {
    MessagesAreConserved(Init(plan), steps);
    Regroup(Spoken(steps), [], []);
    ReachedExactly(Handovers(Init(plan), steps), Run(Init(plan), steps).tasks);
  }

  /** At most one handover is with a replan that still asks, and it is the last that went to one. */
  lemma OnlyLastStillAsks(plan: Plan, steps: seq<Step>, k: nat)
    requires CanRun(Init(plan), steps)
    requires var hs, end := ToTasks(Handovers(Init(plan), steps)), Run(Init(plan), steps);
             k < |hs| && hs[k].task.Some? && hs[k].task.value < |end.tasks| && end.tasks[hs[k].task.value].running
    ensures k == |ToTasks(Handovers(Init(plan), steps))| - 1
  {
    HandoversAreTasks(Init(plan), steps);
    RunKeepsInv(Init(plan), steps);
    LatestIsCurrent(Init(plan), steps);
  }

  /** The replan the loop remembers is the one it scheduled last. */
  lemma {:induction false} LatestIsCurrent(st: State, steps: seq<Step>)
    requires CanRun(st, steps) && (st.current.Some? ==> st.current.value == |st.tasks| - 1)
    ensures var end := Run(st, steps); end.current.Some? ==> end.current.value == |end.tasks| - 1
    decreases |steps|
  {
    if steps != [] {
      LatestIsCurrent(Apply(st, steps[0]), steps[1..]);
    }
  }

  lemma RunUnfolds(st: State, step: Step, rest: seq<Step>)
    requires Enabled(st, step) && CanRun(Apply(st, step), rest)
    ensures CanRun(st, [step] + rest) && Run(st, [step] + rest) == Run(Apply(st, step), rest)
    ensures Handovers(st, [step] + rest) ==
            (if step.ScheduleReplan?
             then [Handover(if InFlight(st) then None else Some(|st.tasks|), st.pendingMessages)] else [])
            + Handovers(Apply(st, step), rest)
  {
    assert ([step] + rest)[1..] == rest;
  }

  /** A message that comes while a replan runs is dropped by the next scheduling. */
  lemma MessageIsDropped(plan: Plan)
    ensures var steps := [UserSpeaks("a")] + ([ScheduleReplan] + ([UserSpeaks("b")] + ([ScheduleReplan] + [])));
            && CanRun(Init(plan), steps)
            && var hs, end := Handovers(Init(plan), steps), Run(Init(plan), steps);
            && hs == [Handover(Some(0), ["a"]), Handover(None, ["b"])]
            && Reached(hs, end.tasks) == ["a"] && end.pendingMessages == []
  {
    var s1 := Apply(Init(plan), UserSpeaks("a"));
    var s2 := Apply(s1, ScheduleReplan);
    var s3 := Apply(s2, UserSpeaks("b"));
    var s4 := Apply(s3, ScheduleReplan);
    RunUnfolds(s3, ScheduleReplan, []);
    RunUnfolds(s2, UserSpeaks("b"), [ScheduleReplan] + []);
    RunUnfolds(s1, ScheduleReplan, [UserSpeaks("b")] + ([ScheduleReplan] + []));
    RunUnfolds(Init(plan), UserSpeaks("a"), [ScheduleReplan] + ([UserSpeaks("b")] + ([ScheduleReplan] + [])));
    var hs := [Handover(Some(0), ["a"]), Handover(None, ["b"])];
    assert s1.pendingMessages == ["a"] && s3.pendingMessages == ["b"];
    assert s4.tasks == [Task(Key(0, ""), None, ["a"], true, false)];
    assert hs[1..] == [Handover(None, ["b"])] && hs[1..][1..] == [];
    assert Reached(hs[1..], s4.tasks) == [];
  }

  /** Of six pending messages with nothing in flight the first is never shown. */
  lemma SixthMessageCutsTheFirst(st: State)
    requires !InFlight(st) && st.pendingMessages == ["a", "b", "c", "d", "e", "f"]
    ensures var steps := [ScheduleReplan] + ([ModelHears(|st.tasks|)] + []);
            && CanRun(st, steps) && Run(st, steps).pendingMessages == []
            && Reached(Handovers(st, steps), Run(st, steps).tasks) == ["b", "c", "d", "e", "f"]
  {
    var s1 := Apply(st, ScheduleReplan);
    var s2 := Apply(s1, ModelHears(|st.tasks|));
    RunUnfolds(s1, ModelHears(|st.tasks|), []);
    RunUnfolds(st, ScheduleReplan, [ModelHears(|st.tasks|)] + []);
    var hs := [Handover(Some(|st.tasks|), st.pendingMessages)];
    assert hs[1..] == [] && Reached(hs[1..], s2.tasks) == [];
  }

  /** The model of a replan cannot be reached: its message is neither shown to a model nor pending again. */
  lemma FailedCallLosesMessage(plan: Plan)
    ensures var steps := [UserSpeaks("a")] + ([ScheduleReplan] + ([TaskEnds(0)] + []));
            && CanRun(Init(plan), steps)
            && var hs, end := Handovers(Init(plan), steps), Run(Init(plan), steps);
            && Spoken(steps) == ["a"] && Reached(hs, end.tasks) == [] && end.pendingMessages == []
            && end.installs == [] && !InFlight(end)
  {
    var s1 := Apply(Init(plan), UserSpeaks("a"));
    var s2 := Apply(s1, ScheduleReplan);
    var s3 := Apply(s2, TaskEnds(0));
    RunUnfolds(s2, TaskEnds(0), []);
    RunUnfolds(s1, ScheduleReplan, [TaskEnds(0)] + []);
    RunUnfolds(Init(plan), UserSpeaks("a"), [ScheduleReplan] + ([TaskEnds(0)] + []));
    var hs := [Handover(Some(0), s1.pendingMessages)];
    assert hs[1..] == [] && Reached(hs[1..], s3.tasks) == [];
    var steps := [UserSpeaks("a")] + ([ScheduleReplan] + ([TaskEnds(0)] + []));
    assert steps[1..] == [ScheduleReplan, TaskEnds(0)] && steps[1..][1..] == [TaskEnds(0)];
    assert Spoken([TaskEnds(0)]) == [] by { assert [TaskEnds(0)][1..] == []; }
    assert Spoken(steps[1..]) == [] + Spoken([TaskEnds(0)]);
  }

  /** A replan that ends stale has shown its messages to no effect: nothing is installed or pending. */
  lemma StaleReplanUsesUpMessages(st: State, message: string, before: Snapshot, after: Snapshot, answer: Plan)
    requires Inv(st) && st.pendingMessages == [] && st.current.None?
    requires ContextKey(Some(before)) != ContextKey(Some(after))
    ensures var t := |st.tasks|;
            var asked := Apply(Schedule(st.(captured := Some(before), pendingMessages := [message])), ModelHears(t));
            && Enabled(asked, TaskAnswers(t, answer))
            && var end := Apply(asked.(latest := Some(after)), TaskAnswers(t, answer));
            && end.tasks[t].messages == [message] && end.tasks[t].heard && !end.tasks[t].running
            && end.pendingMessages == [] && end.installs == st.installs && end.plan == st.plan
  {
  }

  // ----- the loop -----

  class TwoModelLoop {
    var latest: Option<Snapshot>
    var tasks: seq<Task>
    var asyncPlannerTask: Option<nat>
    var pendingUserMessages: seq<string>
    var plan: Plan
    ghost var captured: Option<Snapshot>
    ghost var installs: seq<Install>

    ghost function Value(): State
      reads this
    {
      State(latest, captured, tasks, asyncPlannerTask, pendingUserMessages, plan, installs)
    }

    constructor (plan: Plan)
      ensures Value() == Init(plan) && Inv(Value())
    {
      latest, tasks, asyncPlannerTask, pendingUserMessages := None, [], None, [];
      this.plan, captured, installs := plan, None, [];
    }

    /** The snapshot that the rest of the cycle works with. */
    method StartCycle() returns (snapshot: Option<Snapshot>)
      modifies this`captured
      ensures Value() == Apply(old(Value()), CycleStarts) && snapshot == captured
    {
      snapshot := latest;
      captured := snapshot;
    }

    method ScheduleAsyncReplan(snapshot: Option<Snapshot>)
      requires Inv(Value()) && snapshot == captured
      modifies this`tasks, this`asyncPlannerTask, this`pendingUserMessages
      ensures Value() == Apply(old(Value()), ScheduleReplan) && Inv(Value())
    {
      ApplyKeepsInv(Value(), ScheduleReplan);
      if asyncPlannerTask.Some? && tasks[asyncPlannerTask.value].running {
        pendingUserMessages := [];
        return;
      }
      var key := ContextKey(snapshot);
      asyncPlannerTask := Some(|tasks|);
      tasks := tasks + [Task(key, snapshot, pendingUserMessages, true, false)];
      pendingUserMessages := [];
    }

    /** A call of a replan's model comes back with a response. */
    method HearModel(task: nat)
      requires Inv(Value()) && Enabled(Value(), ModelHears(task))
      modifies this`tasks
      ensures Value() == Apply(old(Value()), ModelHears(task)) && Inv(Value())
    {
      ApplyKeepsInv(Value(), ModelHears(task));
      tasks := tasks[task := tasks[task].(heard := true)];
    }

    /** A background replan asks whether its plan is still wanted and installs it, in one step. */
    method AcceptPlan(task: nat, answer: Plan) returns (accepted: bool)
      requires Inv(Value()) && Enabled(Value(), TaskAnswers(task, answer))
      modifies this`tasks, this`plan, this`installs
      ensures Value() == Apply(old(Value()), TaskAnswers(task, answer)) && Inv(Value())
      ensures accepted <==> SameSituation(tasks[task].asked, latest)
      ensures plan == if accepted then answer else old(plan)
    {
      ApplyKeepsInv(Value(), TaskAnswers(task, answer));
      SameKeyExactly(tasks[task].asked, latest);
      accepted := ContextKey(latest) == tasks[task].key;
      if accepted {
        plan := answer;
        installs := installs + [Install(tasks[task].asked, latest, answer)];
      } else {
        tasks := tasks[task := tasks[task].(running := false)];
      }
    }

    method PollAsyncPlanner() returns (finished: Option<nat>)
      requires Inv(Value())
      modifies this`asyncPlannerTask
      ensures Value() == Apply(old(Value()), PollTask) && Inv(Value())
      ensures finished == if InFlight(old(Value())) then None else old(asyncPlannerTask)
      ensures asyncPlannerTask == if InFlight(old(Value())) then old(asyncPlannerTask) else None
    {
      ApplyKeepsInv(Value(), PollTask);
      if asyncPlannerTask.None? || tasks[asyncPlannerTask.value].running {
        return None;
      }
      finished := asyncPlannerTask;
      asyncPlannerTask := None;
    }
  }
}
