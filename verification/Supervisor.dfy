/** The deterministic supervisor: it chooses the next phase of the Bogroot cycle from a snapshot and
    from the times of its past successes, and holds back repeats. */
module Supervisor {
  import opened Options
  import opened Plans
  import opened Snapshots
  import opened Texts

  const GADDS_MAP_ID := 638
  const SPARKFLY_MAP_ID := 558
  const TEKKS_READY_DISTANCE := 1200.0
  const MINIMUM_FREE_SLOTS := 5
  const RECENT_SECONDS := 900.0

  datatype Tool =
    | FullMaintenance | TownSetup | TravelToSparkfly | SparkflyRoute | TekksEntry | DungeonLoop
    | TravelToGadds | ReturnToOutpost | Wait | QueryState
    | OtherTool(otherName: string)

  const SUPERVISOR_TOOLS: set<Tool> :=
    {FullMaintenance, TownSetup, TravelToSparkfly, SparkflyRoute, TekksEntry, DungeonLoop,
     TravelToGadds, ReturnToOutpost, Wait, QueryState}

  function Name(tool: Tool): string {
    match tool
    case FullMaintenance => "froggy_run_full_maintenance"
    case TownSetup => "froggy_run_town_setup"
    case TravelToSparkfly => "froggy_travel_to_sparkfly"
    case SparkflyRoute => "froggy_run_sparkfly_route_to_tekks"
    case TekksEntry => "froggy_prepare_tekks_dungeon_entry"
    case DungeonLoop => "froggy_run_dungeon_loop"
    case TravelToGadds => "froggy_travel_to_gadds"
    case ReturnToOutpost => "return_to_outpost"
    case Wait => "wait"
    case QueryState => "query_state"
    case OtherTool(name) => name
  }

  predicate OnlyObserves(tool: Tool) {
    tool.Wait? || tool.QueryState?
  }

  /** Why a decision was taken; it fixes the phase. */
  datatype Reason =
    | MissingSnapshot | MapLoading | WipeRecovery | NativeInProgress(state: string)
    | InventoryLowSlots | TownSetupComplete | GaddsReady | TekksEntryReady | SparkflyOpen | BogrootDungeon
    | UnexpectedMap(mapId: int) | UnknownMap

  datatype Decision = Decision(
    action: Tool,
    reason: Reason,
    phaseKind: Kind,
    needsPlanner: bool,
    controlRequired: bool)

  function ReasonText(reason: Reason): string {
    match reason
    case MissingSnapshot => "missing_snapshot"
    case MapLoading => "map_loading"
    case WipeRecovery => "wipe_recovery"
    case NativeInProgress(state) => "native_" + state + "_in_progress"
    case InventoryLowSlots => "inventory_low_slots"
    case TownSetupComplete => "town_setup_complete"
    case GaddsReady => "gadds_ready"
    case TekksEntryReady => "tekks_entry_ready"
    case SparkflyOpen => "sparkfly_route"
    case BogrootDungeon => "bogroot_dungeon"
    case UnexpectedMap(mapId) => "unexpected_map:" + Decimal(mapId)
    case UnknownMap => "unknown_map"
  }

  function PhaseText(reason: Reason): string {
    match reason
    case MissingSnapshot => "await_snapshot"
    case MapLoading => "loading"
    case WipeRecovery => "wipe_recovery"
    case NativeInProgress(state) => state
    case InventoryLowSlots => "maintenance"
    case TownSetupComplete => "travel_to_sparkfly"
    case GaddsReady => "town_setup"
    case TekksEntryReady => "tekks_entry"
    case SparkflyOpen => "route_to_tekks"
    case BogrootDungeon => "dungeon_loop"
    case UnexpectedMap(_) => "recover_to_gadds"
    case UnknownMap => "unknown"
  }

  function WaitingIntent(reason: Reason): (text: string)
    ensures Shows(text)
  {
    match reason
    case MissingSnapshot => "Request a fresh snapshot before choosing a route phase."
    case _ => "Wait for the map transition to settle."
  }

  function ObservingIntent(reason: Reason): (text: string)
    ensures Shows(text)
  {
    match reason
    case NativeInProgress(_) => "Observe while the native Froggy route controller is active."
    case _ => "Ask for a fresh snapshot because the map id is unknown."
  }

  function RecoveringIntent(reason: Reason): (text: string)
    ensures Shows(text)
  {
    match reason
    case WipeRecovery => "Recover from a wipe by returning to an outpost."
    case _ => "Recover to Gadd's Encampment before resuming the Bogroot cycle."
  }

  function PreparingIntent(reason: Reason): (text: string)
    ensures Shows(text)
  {
    match reason
    case InventoryLowSlots => "Run Froggy maintenance before another Bogroot cycle."
    case _ => "Prepare hard mode, heroes, and route state at Gadd's Encampment."
  }

  function TravellingIntent(reason: Reason): (text: string)
    ensures Shows(text)
  {
    match reason
    case TownSetupComplete => "Travel from Gadd's Encampment to Sparkfly Swamp."
    case _ => "Run the native Sparkfly route toward Tekks."
  }

  function DungeonIntent(reason: Reason): (text: string)
    ensures Shows(text)
  {
    match reason
    case TekksEntryReady => "Use Tekks entry handling to enter Bogroot Growths."
    case _ => "Let Froggy native dungeon loop own routing, boss, reward, and return."
  }

  /** The sentence of intent, by what the phase does. */
  function IntentText(reason: Reason): (text: string)
    ensures Shows(text)
  {
    match reason
    case MissingSnapshot | MapLoading => WaitingIntent(reason)
    case NativeInProgress(_) | UnknownMap => ObservingIntent(reason)
    case WipeRecovery | UnexpectedMap(_) => RecoveringIntent(reason)
    case InventoryLowSlots | GaddsReady => PreparingIntent(reason)
    case TownSetupComplete | SparkflyOpen => TravellingIntent(reason)
    case TekksEntryReady | BogrootDungeon => DungeonIntent(reason)
  }

  function NextStepText(d: Decision): string {
    if d.reason.NativeInProgress? then "wait_for_froggy_native_route"
    else if OnlyObserves(d.action) then Name(d.action)
    else "supervisor:" + Name(d.action)
  }

  function Signature(d: Decision): string {
    PhaseText(d.reason) + ":" + Name(d.action) + ":" + ReasonText(d.reason)
  }

  // ----- past successes -----

  /** The clock readings of one decision, in the order the code takes them: two while it looks for a
      pending handoff, two while it chooses. */
  datatype Clock = Clock(handoffTown: real, handoffTravel: real, town: real, travel: real)

  type Successes = map<Tool, real>

  predicate Recent(successes: Successes, tool: Tool, now: real) {
    tool in successes && now - successes[tool] <= RECENT_SECONDS
  }

  predicate RecentAndNewer(successes: Successes, tool: Tool, than: Tool, now: real) {
    Recent(successes, tool, now) && successes[tool] > (if than in successes then successes[than] else 0.0)
  }

  // ----- the snapshot -----

  predicate PartyDefeated(s: Snapshot, events: seq<string>) {
    s.partyDefeated || exists i :: 0 <= i < |events| && events[i] == "party_defeated"
  }

  predicate IsActive(state: string) {
    state == "traveling" || state == "in_dungeon" || state == "combat" || state == "returning"
    || state == "maintenance" || state == "merchant"
  }

  predicate PlayerBusy(s: Snapshot) {
    s.me.isMoving || s.me.isCasting
  }

  /** The bot says it travels, but it still stands in Gadd's and waits for the travel to Sparkfly. */
  predicate PendingSparkflyHandoff(s: Snapshot, state: string, successes: Successes, clock: Clock) {
    && state == "traveling"
    && MapIdOrZero(s) == GADDS_MAP_ID
    && Recent(successes, TownSetup, clock.handoffTown)
    && !RecentAndNewer(successes, TravelToSparkfly, TownSetup, clock.handoffTravel)
    && s.route.progress == "preparing"
    && (s.route.phase.None? || s.route.phase.value == "town")
    && s.route.nextKind == "travel"
    && IntOrZero(s.route.nextMapId) == SPARKFLY_MAP_ID
    && !PlayerBusy(s)
    && !s.partyDefeated
  }

  function ActiveFroggyState(s: Snapshot, successes: Successes, clock: Clock): (state: Option<string>)
    ensures state.Some? ==> Shows(state.value)
  {
    var state, phase := Strip(s.bot.state), Strip(s.bot.phase);
    if state == "" || state == "idle" || state == "in_town" || state == "llm_controlled" then None
    else if PendingSparkflyHandoff(s, state, successes, clock) then None
    else if s.bot.busy then Some(state)
    else if IsActive(state) && PlayerBusy(s) then Some(state)
    else if s.bot.safeForLlmAction then None
    else if IsActive(phase) && PlayerBusy(s) then Some(phase)
    else None
  }

  predicate Within(x: real, y: real, centreX: real, centreY: real) {
    (x - centreX) * (x - centreX) + (y - centreY) * (y - centreY) <= TEKKS_READY_DISTANCE * TEKKS_READY_DISTANCE
  }

  predicate NearTekks(s: Snapshot) {
    && s.me.x.Some? && s.me.y.Some?
    && (Within(s.me.x.value, s.me.y.value, 12061.0, 22485.0) || Within(s.me.x.value, s.me.y.value, 12396.0, 22407.0))
  }

  // ----- the decision -----

  function DecideInGadds(s: Snapshot, successes: Successes, clock: Clock): Decision {
    if s.freeSlots.Int? && s.freeSlots.value < MINIMUM_FREE_SLOTS then
      Decision(FullMaintenance, InventoryLowSlots, Merchant, false, true)
    else if && Recent(successes, TownSetup, clock.town)
            && !RecentAndNewer(successes, TravelToSparkfly, TownSetup, clock.travel) then
      Decision(TravelToSparkfly, TownSetupComplete, Travel, false, true)
    else
      Decision(TownSetup, GaddsReady, RouteKind, false, true)
  }

  function DecideOnMap(s: Snapshot, successes: Successes, clock: Clock): Decision {
    var mapId := MapIdOrZero(s);
    if mapId == GADDS_MAP_ID then DecideInGadds(s, successes, clock)
    else if mapId == SPARKFLY_MAP_ID then
      if NearTekks(s) || Recent(successes, SparkflyRoute, clock.town) then
        Decision(TekksEntry, TekksEntryReady, Dialog, false, true)
      else
        Decision(SparkflyRoute, SparkflyOpen, LongWalk, false, true)
    else if mapId == 615 || mapId == 616 then
      Decision(DungeonLoop, BogrootDungeon, if mapId == 616 then Boss else LongWalk, false, true)
    else if mapId > 0 then
      Decision(TravelToGadds, UnexpectedMap(mapId), Travel, true, true)
    else
      Decision(QueryState, UnknownMap, RouteKind, true, false)
  }

  function Decide(snapshot: Option<Snapshot>, events: seq<string>, successes: Successes, clock: Clock): Decision {
    match snapshot
    case None => Decision(QueryState, MissingSnapshot, RouteKind, false, false)
    case Some(s) =>
      if !s.loadingState.Absent? && s.loadingState != RawInt.Int(1) then
        Decision(Wait, MapLoading, RouteKind, false, false)
      else if PartyDefeated(s, events) then
        Decision(ReturnToOutpost, WipeRecovery, RouteKind, false, true)
      else
        var active := ActiveFroggyState(s, successes, clock);
        if active.Some? then Decision(Wait, NativeInProgress(active.value), RouteKind, false, false)
        else DecideOnMap(s, successes, clock)
  }

  // ----- every decision is permitted and makes a plan -----

  const SUPERVISOR_CONSTRAINTS: Argument :=
    List([Str("configured_lane_only"), Str("froggy_native_route_control"), Str("executor_must_not_freelance")])

  const SUPERVISOR_ABORTS: Argument :=
    List([Dict(map["kind" := Str("party_defeated")]), Dict(map["kind" := Str("inventory_full")])])

  function PlanArguments(phase: string, kind: string, intent: string, nextStep: string,
                         constraints: Argument, aborts: Argument, fallback: string, traceId: string): Arguments {
    map[
      Phase := Str(phase),
      PhaseKind := Str(kind),
      Intent := Str(intent),
      NextStep := Str(nextStep),
      Constraints := constraints,
      AbortConditions := aborts,
      Fallback := Str(fallback),
      TraceId := Str(traceId)]
  }

  /** The plan of a decision with a sentence of intent, issued at `now`. */
  function PlanWith(d: Decision, intent: string, now: real): Result<Plan> {
    var traceId := "supervisor-" + Decimal(now.Floor) + "-" + PhaseText(d.reason) + "-" + Name(d.action);
    Construct(
      PlanArguments(PhaseText(d.reason), KindName(d.phaseKind), intent, NextStepText(d),
                    SUPERVISOR_CONSTRAINTS, SUPERVISOR_ABORTS, "handoff_to_froggy", traceId),
      now)
  }

  function ToPlan(d: Decision, now: real): Result<Plan> {
    PlanWith(d, IntentText(d.reason), now)
  }

  /** Every decision is a permitted tool, needs control exactly when it does more than wait or query, and
      asks for the planner exactly when the map is not one of the cycle's. */
  lemma DecisionIsPermitted(snapshot: Option<Snapshot>, events: seq<string>, successes: Successes, clock: Clock)
    ensures var d := Decide(snapshot, events, successes, clock);
            && d.action in SUPERVISOR_TOOLS
            && (d.controlRequired <==> !OnlyObserves(d.action))
            && (d.needsPlanner <==> d.reason.UnexpectedMap? || d.reason.UnknownMap?)
            && (d.reason.NativeInProgress? ==> Shows(d.reason.state))
            && !d.action.OtherTool?
  {
  }

  /** The snapshot shows a loaded map and no defeat, and no event tells of one. */
  predicate Undefeated(s: Snapshot, events: seq<string>) {
    && s.loadingState in {Absent, RawInt.Int(1)} && !s.partyDefeated
    && forall i :: 0 <= i < |events| ==> events[i] != "party_defeated"
  }

  /** The bot stands still in Gadd's Encampment, set up for the travel to Sparkfly and about to begin it: a
      handoff that the supervisor makes, although the bot says that it travels. */
  predicate HandsOff(s: Snapshot, successes: Successes, clock: Clock) {
    && Strip(s.bot.state) == "traveling" && s.mapId == RawInt.Int(638)
    && TownSetup in successes && clock.handoffTown - successes[TownSetup] <= 900.0
    && (TravelToSparkfly in successes && clock.handoffTravel - successes[TravelToSparkfly] <= 900.0 ==>
          successes[TravelToSparkfly] <= successes[TownSetup])
    && s.route.progress == "preparing" && s.route.phase in {None, Some("town")}
    && s.route.nextKind == "travel" && s.route.nextMapId == RawInt.Int(558)
    && !s.me.isMoving && !s.me.isCasting && !s.partyDefeated
  }

  /** The native bot is at work: it is in a state of its own that is no handoff, and it is busy, or it moves or
      casts in an active state, or it moves or casts in an active phase while it is not safe to act. */
  predicate NativeWorks(s: Snapshot, successes: Successes, clock: Clock) {
    var active := {"traveling", "in_dungeon", "combat", "returning", "maintenance", "merchant"};
    var acting := s.me.isMoving || s.me.isCasting;
    && Strip(s.bot.state) !in {"", "idle", "in_town", "llm_controlled"}
    && !HandsOff(s, successes, clock)
    && (|| s.bot.busy
        || (Strip(s.bot.state) in active && acting)
        || (!s.bot.safeForLlmAction && Strip(s.bot.phase) in active && acting))
  }

  lemma HandoffExactly(s: Snapshot, successes: Successes, clock: Clock)
    ensures PendingSparkflyHandoff(s, Strip(s.bot.state), successes, clock) <==> HandsOff(s, successes, clock)
  {
  }

  lemma ActiveExactly(s: Snapshot, successes: Successes, clock: Clock)
    ensures ActiveFroggyState(s, successes, clock).Some? <==> NativeWorks(s, successes, clock)
  {
    HandoffExactly(s, successes, clock);
  }

  /** On every snapshot with a loaded map and no defeat the supervisor waits exactly if the native bot is at
      work; told in the snapshot's fields, the past successes and the clock. */
  lemma WaitsForNativeExactly(s: Snapshot, events: seq<string>, successes: Successes, clock: Clock)
    requires Undefeated(s, events)
    ensures Decide(Some(s), events, successes, clock).action == Wait <==> NativeWorks(s, successes, clock)
  {
    ActiveExactly(s, successes, clock);
  }

  /** Without a loaded map it waits, with a defeat it returns to the outpost, and without a snapshot it asks
      for one. */
  lemma InterruptsExactly(s: Snapshot, events: seq<string>, successes: Successes, clock: Clock)
    ensures Decide(None, events, successes, clock).action == QueryState
    ensures s.loadingState !in {Absent, RawInt.Int(1)} ==> Decide(Some(s), events, successes, clock).action == Wait
    ensures Decide(Some(s), events, successes, clock).action == ReturnToOutpost <==>
            s.loadingState in {Absent, RawInt.Int(1)} && !Undefeated(s, events)
  {
  }

  predicate IsCloseTo(s: Snapshot, x: real, y: real) {
    && s.me.x.Some? && s.me.y.Some?
    && (s.me.x.value - x) * (s.me.x.value - x) + (s.me.y.value - y) * (s.me.y.value - y) <= 1440000.0
  }

  lemma NearTekksExactly(s: Snapshot)
    ensures NearTekks(s) <==> IsCloseTo(s, 12061.0, 22485.0) || IsCloseTo(s, 12396.0, 22407.0)
  {
  }

  /** With the native bot at rest, the phase that comes next, by the map, the free slots, the place and the
      past successes. */
  lemma ActsByPlaceExactly(s: Snapshot, events: seq<string>, successes: Successes, clock: Clock)
    requires Undefeated(s, events) && !NativeWorks(s, successes, clock)
    ensures var action := Decide(Some(s), events, successes, clock).action;
            var setUp := TownSetup in successes && clock.town - successes[TownSetup] <= 900.0;
            var travelled := TravelToSparkfly in successes && clock.travel - successes[TravelToSparkfly] <= 900.0;
            && (action == FullMaintenance <==>
                  s.mapId == RawInt.Int(638) && s.freeSlots.Int? && s.freeSlots.value < 5)
            && (action in {TravelToSparkfly, TownSetup} <==>
                  s.mapId == RawInt.Int(638) && (s.freeSlots.Int? ==> s.freeSlots.value >= 5))
            && (action == TravelToSparkfly ==>
                  setUp && (travelled ==> successes[TravelToSparkfly] <= successes[TownSetup]))
            && (action == TownSetup ==> !setUp || (travelled && successes[TravelToSparkfly] > successes[TownSetup]))
            && (action in {TekksEntry, SparkflyRoute} <==> s.mapId == RawInt.Int(558))
            && (action == DungeonLoop <==> s.mapId in {RawInt.Int(615), RawInt.Int(616)})
            && (action == DungeonLoop ==>
                  Decide(Some(s), events, successes, clock).phaseKind ==
                  if s.mapId == RawInt.Int(616) then Boss else LongWalk)
            && (action == TravelToGadds <==>
                  s.mapId.Int? && s.mapId.value > 0 && s.mapId.value !in {638, 558, 615, 616})
  {
    ActiveExactly(s, successes, clock);
  }

  /** In Sparkfly the dialog with Tekks comes next close to him, or after a recent route to him, and the route
      otherwise. */
  lemma TekksNextExactly(s: Snapshot, events: seq<string>, successes: Successes, clock: Clock)
    requires Undefeated(s, events) && !NativeWorks(s, successes, clock) && s.mapId == RawInt.Int(558)
    ensures Decide(Some(s), events, successes, clock).action == TekksEntry <==>
            || IsCloseTo(s, 12061.0, 22485.0) || IsCloseTo(s, 12396.0, 22407.0)
            || (SparkflyRoute in successes && clock.town - successes[SparkflyRoute] <= 900.0)
  {
    ActiveExactly(s, successes, clock);
    NearTekksExactly(s);
  }

  lemma PhaseShows(reason: Reason)
    requires reason.NativeInProgress? ==> Shows(reason.state)
    ensures Shows(PhaseText(reason))
  {
  }

  lemma NameShows(tool: Tool)
    requires !tool.OtherTool?
    ensures Shows(Name(tool))
  {
  }

  lemma ShowsBehind(s: string, t: string)
    requires Shows(t)
    ensures Shows(s + t)
  {
  }

  lemma NextStepShows(d: Decision)
    requires !d.action.OtherTool?
    ensures Shows(NextStepText(d))
  {
    NameShows(d.action);
    ShowsBehind("supervisor:", Name(d.action));
  }

  lemma IntentIsNotBlank(reason: Reason)
    ensures !Blank(IntentText(reason))
  {
    NotBlank(IntentText(reason));
  }

  lemma TraceIsNotBlank(number: string, phase: string, name: string)
    ensures !Blank("supervisor-" + number + "-" + phase + "-" + name)
  {
    NotBlank("supervisor-");
    StillNotBlank("supervisor-", number);
    StillNotBlank("supervisor-" + number, "-");
    StillNotBlank("supervisor-" + number + "-", phase);
    StillNotBlank("supervisor-" + number + "-" + phase, "-");
    StillNotBlank("supervisor-" + number + "-" + phase + "-", name);
  }

  lemma PlanArgumentsAt(phase: string, kind: string, intent: string, nextStep: string, constraints: Argument,
                        aborts: Argument, fallback: string, traceId: string, now: real)
    ensures var given := PlanArguments(phase, kind, intent, nextStep, constraints, aborts, fallback, traceId);
            && At(given, Phase, now) == Str(phase) && At(given, PhaseKind, now) == Str(kind)
            && At(given, Intent, now) == Str(intent) && At(given, NextStep, now) == Str(nextStep)
            && At(given, Fallback, now) == Str(fallback) && At(given, TraceId, now) == Str(traceId)
  {
  }

  lemma PlanArgumentLists(phase: string, kind: string, intent: string, nextStep: string, constraints: Argument,
                          aborts: Argument, fallback: string, traceId: string, now: real)
    ensures var given := PlanArguments(phase, kind, intent, nextStep, constraints, aborts, fallback, traceId);
            && At(given, Constraints, now) == constraints && At(given, AbortConditions, now) == aborts
            && At(given, Version, now) == Argument.Int(1) && At(given, Deviation, now) == Null
            && At(given, ExpectedRoute, now) == List([])
            && At(given, IssuedAt, now) == Float(now) && At(given, ExpiresAt, now) == Float(0.0)
  {
  }

  /** With acceptable lists, arguments are well typed exactly when their texts are. */
  lemma TextsDecide(given: Arguments, now: real)
    requires At(given, Version, now) == Argument.Int(1) && At(given, Deviation, now) == Null
    requires At(given, ExpectedRoute, now) == List([])
    requires IsStringList(At(given, Constraints, now)) && IsDictList(At(given, AbortConditions, now))
    requires IsText(At(given, Phase, now)) && IsText(At(given, NextStep, now))
    requires IsText(At(given, Fallback, now)) && IsText(At(given, TraceId, now))
    requires IsText(At(given, PhaseKind, now)) && KindOf(At(given, PhaseKind, now).s).Some?
    ensures WellTyped(given, now) <==> IsText(At(given, Intent, now))
  {
  }

  lemma TextsAreWellTyped(phase: string, kind: string, intent: string, nextStep: string, constraints: Argument,
                          aborts: Argument, fallback: string, traceId: string, now: real)
    requires !Blank(phase) && !Blank(nextStep) && !Blank(fallback) && !Blank(traceId)
    requires KindOf(kind).Some? && !Blank(kind)
    requires IsStringList(constraints) && IsDictList(aborts)
    ensures WellTyped(PlanArguments(phase, kind, intent, nextStep, constraints, aborts, fallback, traceId), now) <==>
            !Blank(intent)
  {
    PlanArgumentsAt(phase, kind, intent, nextStep, constraints, aborts, fallback, traceId, now);
    PlanArgumentLists(phase, kind, intent, nextStep, constraints, aborts, fallback, traceId, now);
    TextsDecide(PlanArguments(phase, kind, intent, nextStep, constraints, aborts, fallback, traceId), now);
  }

  lemma PlanFromTexts(phase: string, kind: string, intent: string, nextStep: string, constraints: Argument,
                      aborts: Argument, fallback: string, traceId: string, now: real)
    requires !Blank(phase) && !Blank(nextStep) && !Blank(fallback) && !Blank(traceId)
    requires KindOf(kind).Some? && !Blank(kind)
    requires IsStringList(constraints) && IsDictList(aborts)
    ensures var given := PlanArguments(phase, kind, intent, nextStep, constraints, aborts, fallback, traceId);
            var plan := Construct(given, now);
            && (plan.Ok? <==> !Blank(intent))
            && (plan.Ok? ==>
                  && plan.value.phase == phase && plan.value.phaseKind == KindOf(kind).value
                  && plan.value.nextStep == nextStep && plan.value.intent == intent
                  && plan.value.issuedAt == now && plan.value.expiresAt == now + PhaseExpiry(KindOf(kind).value))
  {
    PlanArgumentsAt(phase, kind, intent, nextStep, constraints, aborts, fallback, traceId, now);
    PlanArgumentLists(phase, kind, intent, nextStep, constraints, aborts, fallback, traceId, now);
    TextsAreWellTyped(phase, kind, intent, nextStep, constraints, aborts, fallback, traceId, now);
  }

  lemma PlanWithIntent(d: Decision, intent: string, now: real)
    requires d.reason.NativeInProgress? ==> Shows(d.reason.state)
    requires !d.action.OtherTool? && !Blank(intent)
    ensures var plan := PlanWith(d, intent, now);
            && plan.Ok? && plan.value.phase == PhaseText(d.reason) && plan.value.phaseKind == d.phaseKind
            && plan.value.nextStep == NextStepText(d) && plan.value.intent == intent
            && plan.value.issuedAt == now && plan.value.expiresAt == now + PhaseExpiry(d.phaseKind)
  {
    PhaseShows(d.reason);
    NextStepShows(d);
    NotBlank(PhaseText(d.reason));
    NotBlank(NextStepText(d));
    NotBlank("handoff_to_froggy");
    TraceIsNotBlank(Decimal(now.Floor), PhaseText(d.reason), Name(d.action));
    KindOfName(d.phaseKind);
    PlanFromTexts(PhaseText(d.reason), KindName(d.phaseKind), intent, NextStepText(d), SUPERVISOR_CONSTRAINTS,
                  SUPERVISOR_ABORTS, "handoff_to_froggy",
                  "supervisor-" + Decimal(now.Floor) + "-" + PhaseText(d.reason) + "-" + Name(d.action), now);
  }

  /** The plan of every decision passes validation; it carries the phase and the intent, and expires with its
      phase kind. */
  lemma DecisionMakesPlan(snapshot: Option<Snapshot>, events: seq<string>, successes: Successes,
                          clock: Clock, now: real)
    ensures var d := Decide(snapshot, events, successes, clock); var plan := ToPlan(d, now);
            && plan.Ok? && plan.value.phase == PhaseText(d.reason) && plan.value.phaseKind == d.phaseKind
            && plan.value.nextStep == NextStepText(d) && plan.value.intent == IntentText(d.reason)
            && plan.value.issuedAt == now && plan.value.expiresAt == now + PhaseExpiry(d.phaseKind)
  {
    var d := Decide(snapshot, events, successes, clock);
    DecisionIsPermitted(snapshot, events, successes, clock);
    IntentIsNotBlank(d.reason);
    PlanWithIntent(d, IntentText(d.reason), now);
  }

  // ----- repeats are held back -----

  /** An approved decision: its signature, the clock as it was compared and the clock as it was noted. */
  datatype Approval = Approval(signature: string, comparedAt: real, notedAt: real)

  /** The noted times cover all approvals, and two approvals of one signature are far enough apart. */
  ghost predicate Spaced(approvals: seq<Approval>, noted: map<string, real>, minRepeat: real, clock: real) {
    && (forall i :: 0 <= i < |approvals| ==>
          approvals[i].signature in noted && approvals[i].notedAt <= noted[approvals[i].signature])
    && (forall signature :: signature in noted ==> noted[signature] <= clock)
    && (forall i, j :: 0 <= i < j < |approvals| && approvals[i].signature == approvals[j].signature ==>
          approvals[j].comparedAt - approvals[i].notedAt >= minRepeat)
  }

  function LastNoted(noted: map<string, real>, signature: string): real {
    if signature in noted then noted[signature] else 0.0
  }

  lemma ApproveKeepsSpaced(approvals: seq<Approval>, noted: map<string, real>, minRepeat: real,
                           clock: real, next: Approval)
    requires Spaced(approvals, noted, minRepeat, clock) && clock <= next.comparedAt <= next.notedAt
    requires next.comparedAt - LastNoted(noted, next.signature) >= minRepeat
    ensures Spaced(approvals + [next], noted[next.signature := next.notedAt], minRepeat, next.notedAt)
  {
  }

  class FroggySupervisor {
    const minRepeatSeconds: real
    var lastActionAt: map<string, real>
    var lastSuccessAt: Successes
    ghost var approvals: seq<Approval>
    ghost var history: seq<Event>
    ghost var clock: real

    ghost predicate Valid()
      reads this
    {
      && Spaced(approvals, lastActionAt, minRepeatSeconds, clock)
      && lastSuccessAt == SuccessTimes(history)
    }

    constructor (minRepeatSeconds: real := 3.0)
      ensures Valid() && approvals == [] && history == [] && this.minRepeatSeconds == minRepeatSeconds
    {
      this.minRepeatSeconds := minRepeatSeconds;
      lastActionAt, lastSuccessAt, approvals, history, clock := map[], map[], [], [], 0.0;
    }

    /** A result without an action is ignored, and only a success leaves a time. */
    method ObserveToolResult(action: Option<Tool>, success: bool, now: real)
      requires Valid()
      modifies this`lastSuccessAt, this`history
      ensures Valid()
      ensures history == old(history) + (if action.Some? then [ToolResult(action.value, success, now)] else [])
    {
      if action.None? {
        return;
      }
      ghost var event := ToolResult(action.value, success, now);
      LastEvent(history, event);
      history := history + [event];
      if success {
        lastSuccessAt := lastSuccessAt[action.value := now];
      }
    }

    /** The decision of one tick, with the successes seen so far. */
    method Choose(snapshot: Option<Snapshot>, events: seq<string>, readings: Clock) returns (d: Decision)
      requires Valid()
      modifies this`history
      ensures Valid() && history == old(history) + [Tick(snapshot, events, readings)]
      ensures d.action == Chosen(history, |history| - 1)
    {
      d := Decide(snapshot, events, lastSuccessAt, readings);
      LastEvent(history, Tick(snapshot, events, readings));
      history := history + [Tick(snapshot, events, readings)];
      assert history[..|history| - 1] == old(history);
    }

    /** A decision that acts is approved if its signature was not noted within the minimum interval; the
        clock is read once to compare and once to note. */
    method ShouldExecute(d: Decision, comparedAt: real, notedAt: real) returns (approved: bool)
      requires Valid() && clock <= comparedAt <= notedAt
      modifies this`lastActionAt, this`approvals, this`clock
      ensures Valid()
      ensures approved <==>
              || OnlyObserves(d.action)
              || comparedAt - LastNoted(old(lastActionAt), Signature(d)) >= minRepeatSeconds
      ensures approvals == if approved && !OnlyObserves(d.action)
                           then old(approvals) + [Approval(Signature(d), comparedAt, notedAt)] else old(approvals)
    {
      if OnlyObserves(d.action) {
        return true;
      }
      if comparedAt - LastNoted(lastActionAt, Signature(d)) < minRepeatSeconds {
        return false;
      }
      ApproveKeepsSpaced(approvals, lastActionAt, minRepeatSeconds, clock, Approval(Signature(d), comparedAt, notedAt));
      approvals := approvals + [Approval(Signature(d), comparedAt, notedAt)];
      lastActionAt := lastActionAt[Signature(d) := notedAt];
      clock := notedAt;
      return true;
    }
  }

  /** Over the whole run of a supervisor: two approvals of one acting signature are at least the minimum
      interval apart. */
  lemma RepeatsAreSpaced(supervisor: FroggySupervisor, i: nat, j: nat)
    requires supervisor.Valid() && i < j < |supervisor.approvals|
    requires supervisor.approvals[i].signature == supervisor.approvals[j].signature
    ensures supervisor.approvals[j].comparedAt >= supervisor.approvals[i].notedAt + supervisor.minRepeatSeconds
  {
  }

  // ----- travel to Sparkfly alternates with town setup -----

  /** What happens to a supervisor: a tool result comes in, or a tick decides. */
  datatype Event =
    | ToolResult(tool: Tool, success: bool, at: real)
    | Tick(snapshot: Option<Snapshot>, events: seq<string>, clock: Clock)

  predicate IsSuccess(e: Event) {
    e.ToolResult? && e.success
  }

  predicate Succeeds(e: Event, tool: Tool) {
    IsSuccess(e) && e.tool == tool
  }

  /** The time of the last success of each tool. */
  function SuccessTimes(history: seq<Event>): Successes {
    if history == [] then map[]
    else
      var before, e := SuccessTimes(history[..|history| - 1]), history[|history| - 1];
      if IsSuccess(e) then before[e.tool := e.at] else before
  }

  lemma LastEvent(history: seq<Event>, e: Event)
    ensures SuccessTimes(history + [e]) ==
            if IsSuccess(e) then SuccessTimes(history)[e.tool := e.at] else SuccessTimes(history)
  {
    assert (history + [e])[..|history|] == history;
  }

  /** The choice of the tick at index `j` of a run. */
  function Chosen(history: seq<Event>, j: nat): Tool
    requires j < |history| && history[j].Tick?
  {
    var e := history[j];
    Decide(e.snapshot, e.events, SuccessTimes(history[..j]), e.clock).action
  }

  /** The last success of a tool before index `j`. */
  ghost predicate IsLastSuccess(history: seq<Event>, tool: Tool, i: nat, j: nat) {
    && i < j <= |history| && Succeeds(history[i], tool)
    && forall k :: i < k < j ==> !Succeeds(history[k], tool)
  }

  /** The noted time of a tool is that of its last success. */
  lemma {:induction false} NotedIsLast(history: seq<Event>, tool: Tool, j: nat) returns (i: nat)
    requires j <= |history|
    ensures tool in SuccessTimes(history[..j]) ==>
              IsLastSuccess(history, tool, i, j) && SuccessTimes(history[..j])[tool] == history[i].at
    ensures tool !in SuccessTimes(history[..j]) ==> forall k :: 0 <= k < j ==> !Succeeds(history[k], tool)
  {
    i := 0;
    if j > 0 {
      assert history[..j][..j - 1] == history[..j - 1] && history[..j][j - 1] == history[j - 1];
      if Succeeds(history[j - 1], tool) {
        i := j - 1;
      } else {
        i := NotedIsLast(history, tool, j - 1);
      }
    }
  }

  /** Success times strictly increase along the run. */
  ghost predicate StrictTimes(history: seq<Event>) {
    forall i, j :: 0 <= i < j < |history| && IsSuccess(history[i]) && IsSuccess(history[j]) ==>
        history[i].at < history[j].at
  }

  /** The last travel is newer than the last town setup, and yet too old for a second look at the clock. */
  predicate TravelWentStale(successes: Successes, clock: Clock) {
    && TownSetup in successes && TravelToSparkfly in successes
    && successes[TravelToSparkfly] > successes[TownSetup]
    && clock.travel - successes[TravelToSparkfly] > RECENT_SECONDS
  }

  lemma ChoosesTravel(snapshot: Option<Snapshot>, events: seq<string>, successes: Successes, clock: Clock)
    requires Decide(snapshot, events, successes, clock).action == TravelToSparkfly
    ensures Recent(successes, TownSetup, clock.town)
    ensures !RecentAndNewer(successes, TravelToSparkfly, TownSetup, clock.travel)
  {
  }

  /** Where a tick chooses the travel to Sparkfly after a travel that succeeded, a town setup succeeded in
      between, unless the earlier travel grew stale between the two clock readings of the decision. */
  lemma AlternatesUnlessStale(history: seq<Event>, i: nat, j: nat)
    requires StrictTimes(history) && i < j < |history| && history[j].Tick?
    requires Chosen(history, j) == TravelToSparkfly
    requires IsLastSuccess(history, TravelToSparkfly, i, j)
    ensures SetUpBetween(history, i, j) <==> !TravelWentStale(SuccessTimes(history[..j]), history[j].clock)
  {
    var e := history[j];
    ChoosesTravel(e.snapshot, e.events, SuccessTimes(history[..j]), e.clock);
    var t := NotedIsLast(history, TravelToSparkfly, j);
    assert t == i;
    var w := NotedIsLast(history, TownSetup, j);
  }

  ghost predicate SetUpBetween(history: seq<Event>, i: nat, j: nat)
    requires j < |history|
  {
    exists k :: i < k < j && Succeeds(history[k], TownSetup)
  }

  /** A travel to Sparkfly succeeded at `i`, and a tick at `j` with these readings chooses it again. */
  ghost predicate TravelsAgain(history: seq<Event>, i: nat, j: nat, clock: Clock) {
    && StrictTimes(history) && i < j < |history|
    && Succeeds(history[i], TravelToSparkfly)
    && history[j].Tick? && history[j].clock == clock && Chosen(history, j) == TravelToSparkfly
  }

  lemma OrderedReadingsAlternate(history: seq<Event>, i: nat, j: nat, clock: Clock)
    requires TravelsAgain(history, i, j, clock) && clock.travel <= clock.town
    ensures SetUpBetween(history, i, j)
  {
    var e := history[j];
    var t := NotedIsLast(history, TravelToSparkfly, j);
    ChoosesTravel(e.snapshot, e.events, SuccessTimes(history[..j]), e.clock);
    AlternatesUnlessStale(history, t, j);
    var k :| t < k < j && Succeeds(history[k], TownSetup);
    assert i < k;
  }

  function SetUpThenTravel(setUpAt: real, travelAt: real): seq<Event> {
    [ToolResult(TownSetup, true, setUpAt), ToolResult(TravelToSparkfly, true, travelAt)]
  }

  lemma SetUpThenTravelTimes(setUpAt: real, travelAt: real)
    ensures SuccessTimes(SetUpThenTravel(setUpAt, travelAt)) == map[TownSetup := setUpAt, TravelToSparkfly := travelAt]
  {
    var first := ToolResult(TownSetup, true, setUpAt);
    LastEvent([], first);
    LastEvent([first], ToolResult(TravelToSparkfly, true, travelAt));
    assert [] + [first] == [first];
    assert [first] + [ToolResult(TravelToSparkfly, true, travelAt)] == SetUpThenTravel(setUpAt, travelAt);
  }

  /** A bot at rest in Gadd's Encampment with free slots. */
  const IN_GADDS: Snapshot :=
    Snapshot(RawInt.Int(GADDS_MAP_ID), Absent, false, RawInt.Int(20), Bot("", "", false, true),
             Me(false, false, None, None), Route("", None, "", Absent, None, None))

  lemma InGaddsChoosesTravel(successes: Successes, clock: Clock)
    requires Recent(successes, TownSetup, clock.town)
    requires !RecentAndNewer(successes, TravelToSparkfly, TownSetup, clock.travel)
    ensures Decide(Some(IN_GADDS), [], successes, clock).action == TravelToSparkfly
  {
  }

  /** Where the second reading is later than the first, a travel can follow a travel: the town setup is
      just recent at the first reading, and the travel right after it is stale at the second one. */
  lemma TravelFollowsTravel(clock: Clock) returns (history: seq<Event>)
    requires clock.town < clock.travel
    ensures |history| == 3 && TravelsAgain(history, 1, 2, clock) && !SetUpBetween(history, 1, 2)
    ensures forall k :: 0 <= k < 2 ==>
              history[k].ToolResult? && clock.town - RECENT_SECONDS <= history[k].at <= clock.town
  {
    var gap := clock.travel - clock.town;
    var setUpAt := clock.town - RECENT_SECONDS;
    var travelAt := setUpAt + (if gap < RECENT_SECONDS then gap / 2.0 else RECENT_SECONDS / 2.0);
    SetUpThenTravelTimes(setUpAt, travelAt);
    var done := SetUpThenTravel(setUpAt, travelAt);
    history := done + [Tick(Some(IN_GADDS), [], clock)];
    assert history[..2] == done;
    InGaddsChoosesTravel(SuccessTimes(done), clock);
    assert Chosen(history, 2) == TravelToSparkfly;
  }

  /** For every pair of readings that a decision can take: a town setup succeeds between any two travels to
      Sparkfly, in every run, exactly when the second reading is no later than the first. */
  lemma AlternationExactly(clock: Clock)
    ensures (forall history: seq<Event>, i: nat, j: nat :: TravelsAgain(history, i, j, clock) ==>
               SetUpBetween(history, i, j))
            <==> clock.travel <= clock.town
  {
    if clock.travel <= clock.town {
      forall history: seq<Event>, i: nat, j: nat | TravelsAgain(history, i, j, clock)
        ensures SetUpBetween(history, i, j)
      {
        OrderedReadingsAlternate(history, i, j, clock);
      }
    } else {
      var history := TravelFollowsTravel(clock);
      assert TravelsAgain(history, 1, 2, clock) && !SetUpBetween(history, 1, 2);
    }
  }

  /** With one clock reading for both looks, a town setup always succeeds between two travels to Sparkfly
      that succeeded or were chosen. */
  lemma TravelAlternatesWithTownSetup(history: seq<Event>, i: nat, j: nat)
    requires StrictTimes(history) && i < j < |history| && history[j].Tick?
    requires history[j].clock.town == history[j].clock.travel
    requires Succeeds(history[i], TravelToSparkfly) && Chosen(history, j) == TravelToSparkfly
    ensures exists k :: i < k < j && Succeeds(history[k], TownSetup)
  {
    OrderedReadingsAlternate(history, i, j, history[j].clock);
  }

  /** A clock that moves between the two looks lets a travel follow a travel. */
  lemma TwoReadingsBreakAlternation()
    ensures exists history: seq<Event> ::
              && |history| == 3 && StrictTimes(history) && history[2].Tick?
              && history[2].clock.town <= history[2].clock.travel
              && Succeeds(history[1], TravelToSparkfly) && Chosen(history, 2) == TravelToSparkfly
  {
    var history := TravelFollowsTravel(Clock(999.0, 999.0, 1000.0, 1001.0));
  }
}
