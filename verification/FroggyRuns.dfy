/** The native Froggy bot: the thread that invokes one handler per state, the handlers' next states, and
    the accounting of runs. What the game and the callbacks answer, exceptions included, is a parameter. */
module FroggyRuns {
  import opened Options

  const WORD := 0x1_0000_0000
  type Word = x: int | 0 <= x < WORD

  const SPARKFLY_SWAMP: Word := 558

  const GADDS_ENCAMPMENT: Word := 638

  /** The configured outpost, or else Gadd's Encampment. */
  function Outpost(configured: Word): (mapId: Word)
    ensures mapId != 0
  {
    if configured != 0 then configured else GADDS_ENCAMPMENT
  }

  predicate IsBogroot(mapId: Word) {
    mapId == 615 || mapId == 616
  }

  datatype BotState =
    | Idle | CharSelect | InTown | Traveling | InDungeon | Looting | AwaitingReturn
    | Merchant | Maintenance | Error | Stopping | LlmControlled

  /** The states that a handler is registered for. */
  predicate Registered(state: BotState) {
    !state.Idle? && !state.Stopping? && !state.LlmControlled?
  }

  /** What a call into the game or a callback does. */
  datatype Call<T> = Returns(value: T) | Throws

  // ----- run accounting -----

  /** The log of starts and completions, with the clock in milliseconds. */
  datatype Entry = Started(number: Word, at: Word) | Completed(number: Word, at: Word)

  datatype Accounting = Accounting(
    runCount: Word,
    failCount: Word,
    startTime: Word,
    bestTime: Word,
    marked: bool,
    log: seq<Entry>)

  const FRESH := Accounting(0, 0, 0, 0xFFFF_FFFF, false, [])

  /** Unsigned 32-bit subtraction and increment, which wrap around. */
  function Minus(x: Word, y: Word): Word {
    if x >= y then x - y else x - y + WORD
  }

  function Next(x: Word): Word {
    if x + 1 == WORD then 0 else x + 1
  }

  function MarkStarted(a: Accounting, tick: Word): Accounting {
    a.(runCount := Next(a.runCount),
       startTime := tick,
       marked := false,
       log := a.log + [Started(Next(a.runCount), tick)])
  }

  function MarkCompleted(a: Accounting, number: Word, tick: Word): Accounting {
    if a.marked then a
    else
      var runTime := Minus(tick, a.startTime);
      a.(bestTime := if runTime < a.bestTime then runTime else a.bestTime,
         marked := true,
         log := a.log + [Completed(number, tick)])
  }

  // ----- handlers -----

  /** What a handler leaves: the accounting, also where it throws, and the next state. */
  datatype Outcome = Outcome(accounting: Accounting, next: Call<BotState>)

  datatype LoopResult = LoopResult(completed: bool, finalMapId: Word)

  /** The answers during one dungeon handler, in the order they are asked for. */
  datatype DungeonWorld = DungeonWorld(
    configuredOutpost: Word,
    mapBefore: Word,
    refreshThrows: bool,
    useConsumables: Call<bool>,
    moveToEntryNpc: Call<bool>,
    prepareEntry: Call<bool>,
    recordFailureThrows: bool,
    resetFailuresThrows: bool,
    enterDungeon: Call<bool>,
    mapAfterEntry: Word,
    startTick: Word,
    publishStartThrows: bool,
    loop: Call<LoopResult>,
    mapAfterLoop: Word,
    doneTick: Word,
    publishDoneThrows: bool,
    needsMaintenance: Call<bool>,
    publishFailedThrows: bool)

  /** The way from the entry map into the dungeon; `Some` leaves the handler early. */
  function EnterFromQuestMap(w: DungeonWorld): Call<Option<BotState>> {
    if w.refreshThrows then Throws
    else if w.mapBefore != SPARKFLY_SWAMP then Returns(None)
    else if w.useConsumables.Throws? then Throws
    else if !w.useConsumables.value then Returns(Some(Merchant))
    else if w.moveToEntryNpc.Throws? then Throws
    else if !w.moveToEntryNpc.value then Returns(Some(InDungeon))
    else if w.prepareEntry.Throws? then Throws
    else if !w.prepareEntry.value then if w.recordFailureThrows then Throws else Returns(Some(InDungeon))
    else if w.resetFailuresThrows || w.enterDungeon.Throws? then Throws
    else if !w.enterDungeon.value then Returns(Some(InDungeon))
    else Returns(None)
  }

  function AfterReturnToSparkfly(needsMaintenance: Call<bool>): Call<BotState> {
    match needsMaintenance
    case Throws => Throws
    case Returns(needed) => Returns(if needed then Merchant else InDungeon)
  }

  /** Publishing throws only where the completion was not marked before. */
  function Complete(a: Accounting, number: Word, tick: Word, publishThrows: bool, next: Call<BotState>): Outcome {
    Outcome(MarkCompleted(a, number, tick), if !a.marked && publishThrows then Throws else next)
  }

  function RunDungeon(a: Accounting, w: DungeonWorld): Outcome {
    var started := MarkStarted(a, w.startTick);
    if w.publishStartThrows || w.loop.Throws? then Outcome(started, Throws)
    else
      var completed := w.loop.value.completed;
      var final := if w.loop.value.finalMapId == 0 then w.mapAfterLoop else w.loop.value.finalMapId;
      if completed && final == SPARKFLY_SWAMP then
        Complete(started, started.runCount, w.doneTick, w.publishDoneThrows, AfterReturnToSparkfly(w.needsMaintenance))
      else if completed && final == Outpost(w.configuredOutpost) then
        Complete(started, started.runCount, w.doneTick, w.publishDoneThrows, Returns(InTown))
      else if completed && IsBogroot(final) then Outcome(started, Returns(AwaitingReturn))
      else if completed then Complete(started, started.runCount, w.doneTick, w.publishDoneThrows, Returns(InDungeon))
      else Outcome(started, Returns(InDungeon))
  }

  function Dungeon(a: Accounting, w: DungeonWorld): Outcome {
    var entry := EnterFromQuestMap(w);
    if entry.Throws? then Outcome(a, Throws)
    else if entry.value.Some? then Outcome(a, Returns(entry.value.value))
    else if IsBogroot(w.mapAfterEntry) then RunDungeon(a, w)
    else if w.mapAfterEntry == Outpost(w.configuredOutpost) then
      Outcome(a.(failCount := Next(a.failCount)), if w.publishFailedThrows then Throws else Returns(InTown))
    else Outcome(a, Returns(InDungeon))
  }

  datatype ReturnWorld = ReturnWorld(
    configuredOutpost: Word,
    mapId: Word,
    publishThrows: bool,
    tick: Word,
    publishDoneThrows: bool,
    needsMaintenance: Call<bool>,
    returned: Call<bool>,
    finalMapId: Word,
    publishReturnThrows: bool,
    mapLoaded: bool)

  function AwaitReturn(a: Accounting, w: ReturnWorld): Outcome {
    if w.publishThrows then Outcome(a, Throws)
    else if w.mapId == SPARKFLY_SWAMP then
      Complete(a, a.runCount, w.tick, w.publishDoneThrows, AfterReturnToSparkfly(w.needsMaintenance))
    else if w.mapId == Outpost(w.configuredOutpost) then
      Complete(a, a.runCount, w.tick, w.publishDoneThrows, Returns(InTown))
    else if IsBogroot(w.mapId) then
      if w.needsMaintenance.Throws? then Outcome(a, Throws)
      else if !w.needsMaintenance.value then Outcome(a, Returns(AwaitingReturn))
      else if w.returned.Throws? || w.publishReturnThrows then Outcome(a, Throws)
      else if w.returned.value && w.finalMapId == Outpost(w.configuredOutpost) then
        Complete(a, a.runCount, w.tick, w.publishDoneThrows, Returns(InTown))
      else Outcome(a, Returns(Error))
    else if w.mapId == 0 || !w.mapLoaded then Outcome(a, Returns(AwaitingReturn))
    else Outcome(a, Returns(InDungeon))
  }

  datatype TownWorld = TownWorld(
    configuredOutpost: Word,
    mapId: Word,
    publishThrows: bool,
    outpostReady: Call<bool>,
    runtimeReady: Call<bool>,
    needsMaintenance: Call<bool>,
    freeSlots: int,
    criticalFreeSlots: int,
    missingConsets: bool,
    applySetup: Call<bool>,
    useConsumables: Call<bool>)

  function TownSetup(w: TownWorld): Call<BotState> {
    if w.publishThrows then Throws
    else if w.mapId != Outpost(w.configuredOutpost) then
      if w.outpostReady.Throws? then Throws else Returns(if w.outpostReady.value then InTown else Stopping)
    else if w.runtimeReady.Throws? then Throws
    else if !w.runtimeReady.value then Returns(InTown)
    else if w.needsMaintenance.Throws? then Throws
    else if w.needsMaintenance.value && (w.freeSlots < w.criticalFreeSlots || w.missingConsets) then Returns(Stopping)
    else if w.applySetup.Throws? then Throws
    else if !w.applySetup.value then Returns(Error)
    else if w.useConsumables.Throws? then Throws
    else Returns(if w.useConsumables.value then Traveling else Maintenance)
  }

  datatype MaintenanceResult = Done | NeedsMaintenance | Retry | Stop

  function MerchantNext(result: MaintenanceResult): BotState {
    match result
    case Done => InTown
    case NeedsMaintenance => Maintenance
    case Retry => Merchant
    case Stop => Stopping
  }

  function MaintenanceNext(result: MaintenanceResult): BotState {
    match result
    case Done => Traveling
    case Retry => Maintenance
    case NeedsMaintenance | Stop => Stopping
  }

  /** Where the error state recovers to, by the map. */
  function RecoverTo(mapId: Word): BotState {
    if mapId == 0 then CharSelect
    else if mapId == SPARKFLY_SWAMP || IsBogroot(mapId) then InDungeon
    else InTown
  }

  /** The answers for whichever handler is invoked. */
  datatype World = World(
    mapId: Word,
    town: TownWorld,
    atEntryMap: Call<bool>,
    dungeon: DungeonWorld,
    awaitingReturn: ReturnWorld,
    maintenance: Call<MaintenanceResult>)

  function Handle(state: BotState, a: Accounting, w: World): Outcome
    requires Registered(state)
  {
    match state
    case CharSelect => Outcome(a, Returns(if w.mapId > 0 then InTown else CharSelect))
    case InTown => Outcome(a, TownSetup(w.town))
    case Traveling =>
      Outcome(a, if w.atEntryMap.Throws? then Throws else Returns(if w.atEntryMap.value then InDungeon else InTown))
    case InDungeon => Dungeon(a, w.dungeon)
    case Looting => Outcome(a, Returns(Merchant))
    case AwaitingReturn => AwaitReturn(a, w.awaitingReturn)
    case Merchant => Outcome(a, if w.maintenance.Throws? then Throws else Returns(MerchantNext(w.maintenance.value)))
    case Maintenance =>
      Outcome(a, if w.maintenance.Throws? then Throws else Returns(MaintenanceNext(w.maintenance.value)))
    case Error => Outcome(a, Returns(RecoverTo(w.mapId)))
  }

  /** An exception in a handler leads to the error state; what the handler had done stays done. */
  function NextState(outcome: Outcome): BotState {
    if outcome.next.Throws? then Error else outcome.next.value
  }

  // ----- the bot thread -----

  /** `handling` is the state whose handler runs. */
  datatype Thread = Thread(
    state: BotState,
    handling: Option<BotState>,
    stopRequested: bool,
    exited: bool,
    accounting: Accounting)

  /** A bot that was started, which makes it idle, and then set to a state. */
  function Launched(state: BotState): Thread {
    Thread(state, None, false, false, FRESH)
  }

  /** The thread begins an iteration, a handler ends, or someone else sets the state or stops the bot. */
  datatype Step = Iterate | HandlerEnds(world: World) | SetState(state: BotState) | RequestStop

  predicate Enabled(t: Thread, step: Step) {
    match step
    case Iterate => t.handling.None? && !t.exited
    case HandlerEnds(_) => t.handling.Some? && Registered(t.handling.value)
    case _ => true
  }

  function Apply(t: Thread, step: Step): Thread
    requires Enabled(t, step)
  {
    match step
    case Iterate =>
      if t.stopRequested || t.state.Stopping? then t.(exited := true)
      else if Registered(t.state) then t.(handling := Some(t.state))
      else t
    case HandlerEnds(world) =>
      var current := t.handling.value;
      var outcome := Handle(current, t.accounting, world);
      var next := NextState(outcome);
      t.(handling := None, accounting := outcome.accounting, state := if next != current then next else t.state)
    case SetState(state) => t.(state := state)
    case RequestStop => t.(stopRequested := true, state := Stopping)
  }

  ghost predicate CanRun(t: Thread, steps: seq<Step>)
    decreases |steps|
  {
    steps == [] || (Enabled(t, steps[0]) && CanRun(Apply(t, steps[0]), steps[1..]))
  }

  function Run(t: Thread, steps: seq<Step>): Thread
    requires CanRun(t, steps)
    decreases |steps|
  {
    if steps == [] then t else Run(Apply(t, steps[0]), steps[1..])
  }

  /** No one else sets the state. */
  predicate OwnStep(step: Step) {
    step.Iterate? || step.HandlerEnds?
  }

  // ----- closure -----

  /** Every handler, exceptions included, leads to a registered state or to `Stopping`, and only the town,
      merchant and maintenance handlers stop the bot. */
  lemma HandlersStayRegistered(state: BotState, a: Accounting, w: World)
    requires Registered(state)
    ensures var next := NextState(Handle(state, a, w));
            && (Registered(next) || next.Stopping?)
            && (next.Stopping? ==> state.InTown? || state.Merchant? || state.Maintenance?)
  {
  }

  predicate Alive(t: Thread) {
    && (Registered(t.state) || t.state.Stopping?)
    && (t.handling.Some? ==> Registered(t.handling.value))
  }

  /** Over every run without outside interference: from a registered state the thread never gets into a
      state that no handler serves, short of stopping. */
  lemma {:induction false} RunStaysRegistered(t: Thread, steps: seq<Step>)
    requires Alive(t) && CanRun(t, steps) && forall i :: 0 <= i < |steps| ==> OwnStep(steps[i])
    ensures Alive(Run(t, steps))
    decreases |steps|
  {
    if steps != [] {
      assert OwnStep(steps[0]);
      if steps[0].HandlerEnds? {
        HandlersStayRegistered(t.handling.value, t.accounting, steps[0].world);
      }
      RunStaysRegistered(Apply(t, steps[0]), steps[1..]);
    }
  }

  /** What becomes of a state that is set from outside while a handler runs. */
  function AfterOutside(t: Thread, outside: BotState, w: World): BotState
    requires t.handling.Some? && Registered(t.handling.value)
  {
    Apply(Apply(t, SetState(outside)), HandlerEnds(w)).state
  }

  /** It is kept where the handler stays in its own state, or chooses the same one. */
  lemma KeptByHandler(t: Thread, outside: BotState, w: World)
    requires t.handling.Some? && Registered(t.handling.value)
    ensures var current := t.handling.value; var next := NextState(Handle(current, t.accounting, w));
            Apply(Apply(t, SetState(outside)), HandlerEnds(w)).state == outside <==> next == current || next == outside
  {
  }

  /** Every call throws, and the map is unknown. */
  const THROWING: World :=
    World(
      0, TownWorld(0, 0, true, Throws, Throws, Throws, 0, 0, false, Throws, Throws), Throws,
      DungeonWorld(0, 0, true, Throws, Throws, Throws, true, true, Throws, 0, 0, true, Throws,
                   0, 0, true, Throws, true),
      ReturnWorld(0, 0, true, 0, true, Throws, Throws, 0, true, false), Throws)

  /** The outpost cannot be reached from the town; travel has arrived; the consumables before the dungeon
      fail; the return has come to the outpost; maintenance is done. */
  const MOVING: World :=
    World(
      1, TownWorld(0, 1, false, Returns(false), Throws, Throws, 0, 0, false, Throws, Throws), Returns(true),
      DungeonWorld(0, SPARKFLY_SWAMP, false, Returns(false), Throws, Throws, true, true, Throws, 0, 0, true, Throws,
                   0, 0, true, Throws, true),
      ReturnWorld(0, GADDS_ENCAMPMENT, false, 0, false, Throws, Throws, 0, true, false), Returns(Done))

  /** Each of the two worlds moves a handler on, and not to the same state, except that the character
      selection only ever leads to the town and the looting only to the merchant. */
  lemma MovesOn(state: BotState, a: Accounting)
    requires Registered(state)
    ensures NextState(Handle(state, a, MOVING)) != state
    ensures state.CharSelect? ==> NextState(Handle(state, a, MOVING)) == InTown
    ensures !state.CharSelect? && !state.Looting? ==>
              && NextState(Handle(state, a, THROWING)) != state
              && NextState(Handle(state, a, THROWING)) != NextState(Handle(state, a, MOVING))
  {
  }

  /** Whatever the game answers, a state set from outside while a handler runs survives its end, exactly in
      two cases: the town while the character selection is handled, and the merchant while looting is. */
  lemma OutsideStateSurvivesExactly(t: Thread, outside: BotState)
    requires t.handling.Some? && Registered(t.handling.value)
    ensures (forall w: World :: AfterOutside(t, outside, w) == outside) <==>
            || (t.handling == Some(CharSelect) && outside == InTown)
            || (t.handling == Some(Looting) && outside == Merchant)
  {
    MovesOn(t.handling.value, t.accounting);
    KeptByHandler(t, outside, MOVING);
    KeptByHandler(t, outside, THROWING);
    assert AfterOutside(t, outside, MOVING) == Apply(Apply(t, SetState(outside)), HandlerEnds(MOVING)).state;
    assert AfterOutside(t, outside, THROWING) == Apply(Apply(t, SetState(outside)), HandlerEnds(THROWING)).state;
  }

  /** The bot is set to be controlled from outside while it travels, and goes into the dungeon all the same. */
  lemma OutsideStateIsOverwritten(w: World)
    requires w.atEntryMap == Returns(true)
    ensures var traveling := Apply(Apply(Launched(Idle), SetState(Traveling)), Iterate);
            && traveling.handling == Some(Traveling)
            && Apply(Apply(traveling, SetState(LlmControlled)), HandlerEnds(w)).state == InDungeon
  {
    KeptByHandler(Apply(Apply(Launched(Idle), SetState(Traveling)), Iterate), LlmControlled, w);
  }

  /** An iteration begins a handler exactly in a state that one serves, unless the bot is to stop; it ends the
      thread exactly on a stop request or in the stopping state, and otherwise it only waits. */
  lemma IterationExactly(t: Thread)
    requires Enabled(t, Iterate)
    ensures var next := Apply(t, Iterate);
            && (next.handling == Some(t.state) <==>
                  !t.stopRequested && t.state !in {Idle, Stopping, LlmControlled})
            && (next.handling != Some(t.state) ==> next.handling.None?)
            && (next.exited <==> t.stopRequested || t.state == Stopping)
            && next.accounting == t.accounting && next.state == t.state
  {
  }

  /** A thread that has ended begins no handler any more, whatever is set from outside. */
  lemma {:induction false} ExitIsFinal(t: Thread, steps: seq<Step>)
    requires t.exited && t.handling.None? && CanRun(t, steps)
    ensures Run(t, steps).exited && Run(t, steps).handling.None? && Run(t, steps).accounting == t.accounting
    decreases |steps|
  {
    if steps != [] {
      ExitIsFinal(Apply(t, steps[0]), steps[1..]);
    }
  }

  /** The character selection is left exactly on a map, travel ends in the dungeon exactly at the entry map, and
      looting always ends at the merchant. */
  lemma WaysExactly(a: Accounting, w: World)
    ensures Handle(CharSelect, a, w) == Outcome(a, Returns(if w.mapId != 0 then InTown else CharSelect))
    ensures NextState(Handle(Traveling, a, w)) ==
            if w.atEntryMap == Returns(true) then InDungeon else if w.atEntryMap == Throws then Error else InTown
    ensures Handle(Looting, a, w).next == Returns(Merchant)
    ensures Handle(Error, a, w).next ==
            Returns(if w.mapId == 0 then CharSelect else if w.mapId in {558, 615, 616} then InDungeon else InTown)
  {
  }

  /** The merchant's handler goes on to the town when it is done, to the maintenance where one is needed, and
      stays to try again; the maintenance goes out when it is done, and stays to try again. Both stop the bot
      where the vendor gives up, and the maintenance also where it finds itself needed again. */
  lemma VendorsExactly(a: Accounting, w: World)
    ensures var merchant, maintenance := NextState(Handle(Merchant, a, w)), NextState(Handle(Maintenance, a, w));
            && (merchant == InTown <==> w.maintenance == Returns(Done))
            && (merchant == Maintenance <==> w.maintenance == Returns(NeedsMaintenance))
            && (merchant == Merchant <==> w.maintenance == Returns(Retry))
            && (merchant == Stopping <==> w.maintenance == Returns(Stop))
            && (merchant == Error <==> w.maintenance == Throws)
            && (maintenance == Traveling <==> w.maintenance == Returns(Done))
            && (maintenance == Maintenance <==> w.maintenance == Returns(Retry))
            && (maintenance == Stopping <==> w.maintenance in {Returns(Stop), Returns(NeedsMaintenance)})
            && (maintenance == Error <==> w.maintenance == Throws)
  {
  }

  /** After a stop request no further handler begins, whatever sets the state afterwards. */
  lemma {:induction false} NoHandlerAfterStop(t: Thread, steps: seq<Step>)
    requires t.stopRequested && t.handling.None? && CanRun(t, steps)
    ensures Run(t, steps).handling.None? && Run(t, steps).accounting == t.accounting
    decreases |steps|
  {
    if steps != [] {
      NoHandlerAfterStop(Apply(t, steps[0]), steps[1..]);
    }
  }

  // ----- what the two handlers of a run do to it -----

  /** The dungeon handler gets as far as a loop, and the loop returns. */
  predicate LoopReturns(w: DungeonWorld) {
    && Enters(w) && w.mapAfterEntry in {615, 616}
    && !w.publishStartThrows && w.loop.Returns?
  }

  /** The reward was taken inside the dungeon, and the way out is still to come; an outpost configured inside
      the dungeon counts as outside. */
  predicate RewardInside(w: DungeonWorld)
    requires w.loop.Returns?
  {
    && w.loop.value.completed && (EndsOn(w, 615) || EndsOn(w, 616))
    && !EndsOn(w, if w.configuredOutpost != 0 then w.configuredOutpost else 638)
  }

  /** Nothing on the way into the dungeon throws or fails; on the entry map that takes the consumables, the way
      to the entry's non-player character, the preparation and the portal. */
  predicate Enters(w: DungeonWorld) {
    && !w.refreshThrows
    && (w.mapBefore == 558 ==>
          && w.useConsumables == Returns(true) && w.moveToEntryNpc == Returns(true)
          && w.prepareEntry == Returns(true) && !w.resetFailuresThrows && w.enterDungeon == Returns(true))
  }

  /** The consumables on the entry map are incomplete. */
  predicate LacksConsumables(w: DungeonWorld) {
    !w.refreshThrows && w.mapBefore == 558 && w.useConsumables == Returns(false)
  }

  lemma EntersExactly(w: DungeonWorld)
    ensures EnterFromQuestMap(w) == Returns(None) <==> Enters(w)
    ensures EnterFromQuestMap(w) == Returns(Some(Merchant)) <==> LacksConsumables(w)
    ensures EnterFromQuestMap(w) in {Throws, Returns(None), Returns(Some(Merchant)), Returns(Some(InDungeon))}
  {
  }

  /** The map that a dungeon loop ended on. */
  predicate EndsOn(w: DungeonWorld, mapId: Word)
    requires w.loop.Returns?
  {
    if w.loop.value.finalMapId != 0 then w.loop.value.finalMapId == mapId else w.mapAfterLoop == mapId
  }

  /** A run is over, with its reward, and the bot is back in Sparkfly without an exception so far: after a
      dungeon loop, or while the return was awaited. */
  predicate BackInSparkfly(state: BotState, a: Accounting, w: World) {
    match state
    case InDungeon =>
      var d := w.dungeon;
      && Enters(d) && d.mapAfterEntry in {615, 616} && !d.publishStartThrows
      && d.loop.Returns? && d.loop.value.completed && EndsOn(d, 558) && !d.publishDoneThrows
    case AwaitingReturn =>
      var r := w.awaitingReturn;
      !r.publishThrows && r.mapId == 558 && (a.marked || !r.publishDoneThrows)
    case _ => false
  }

  /** Whether maintenance is needed, as the handler of the state asks for it. */
  function Need(state: BotState, w: World): Call<bool> {
    if state.InDungeon? then w.dungeon.needsMaintenance else w.awaitingReturn.needsMaintenance
  }

  /** Back in Sparkfly the run is marked as completed, and the next state is the merchant exactly if
      maintenance is needed, and the dungeon exactly if it is not. */
  lemma HomecomingExactly(state: BotState, a: Accounting, w: World)
    requires Registered(state) && BackInSparkfly(state, a, w)
    ensures var o := Handle(state, a, w);
            && o.accounting.marked
            && (o.next == Returns(Merchant) <==> Need(state, w) == Returns(true))
            && (o.next == Returns(InDungeon) <==> Need(state, w) == Returns(false))
            && (o.next == Throws <==> Need(state, w) == Throws)
  {
    EntersExactly(w.dungeon);
  }

  /** No handler of the merchant ends in these steps. */
  ghost predicate Unserved(t: Thread, steps: seq<Step>)
    requires CanRun(t, steps)
    decreases |steps|
  {
    steps == []
    || (!(steps[0].HandlerEnds? && t.handling == Some(Merchant)) && Unserved(Apply(t, steps[0]), steps[1..]))
  }

  lemma {:induction false} MerchantComesFirst(t: Thread, steps: seq<Step>)
    requires t.state.Merchant? && t.handling in {None, Some(Merchant)}
    requires CanRun(t, steps) && Unserved(t, steps) && forall i :: 0 <= i < |steps| ==> OwnStep(steps[i])
    ensures Run(t, steps).state.Merchant? && Run(t, steps).accounting == t.accounting
    decreases |steps|
  {
    if steps != [] {
      assert OwnStep(steps[0]);
      MerchantComesFirst(Apply(t, steps[0]), steps[1..]);
    }
  }

  /** Over every run that is left alone: back in Sparkfly in need of maintenance, no further run is started,
      completed or failed, and the bot stays on its way to the merchant, until the merchant's handler has ended. */
  lemma NeededMaintenanceComesFirst(t: Thread, w: World, steps: seq<Step>)
    requires t.handling.Some? && Registered(t.handling.value)
    requires BackInSparkfly(t.handling.value, t.accounting, w) && Need(t.handling.value, w) == Returns(true)
    requires CanRun(Apply(t, HandlerEnds(w)), steps) && Unserved(Apply(t, HandlerEnds(w)), steps)
    requires forall i :: 0 <= i < |steps| ==> OwnStep(steps[i])
    ensures var after := Apply(t, HandlerEnds(w));
            Run(after, steps).state.Merchant? && Run(after, steps).accounting == after.accounting
  {
    HomecomingExactly(t.handling.value, t.accounting, w);
    MerchantComesFirst(Apply(t, HandlerEnds(w)), steps);
  }

  /** The dungeon handler starts a run exactly on a dungeon map, completes it exactly if the loop completed
      and ended outside, waits exactly if it completed inside, and counts a failure exactly at the outpost. */
  lemma DungeonAccountsExactly(a: Accounting, w: DungeonWorld)
    ensures var o := Dungeon(a, w);
            && (o.accounting.log != a.log <==> Enters(w) && w.mapAfterEntry in {615, 616})
            && (o.accounting.log != a.log ==> o.accounting.log[|a.log|] == Started(Next(a.runCount), w.startTick))
            && (|o.accounting.log| == |a.log| + 2 <==> LoopReturns(w) && w.loop.value.completed && !RewardInside(w))
            && (o.next == Returns(AwaitingReturn) <==> LoopReturns(w) && RewardInside(w))
            && (o.next == Returns(Merchant) <==>
                  || LacksConsumables(w)
                  || (BackInSparkfly(InDungeon, a, AtDungeon(w)) && w.needsMaintenance == Returns(true)))
            && (o.accounting.failCount != a.failCount <==>
                  && Enters(w) && w.mapAfterEntry !in {615, 616}
                  && w.mapAfterEntry == (if w.configuredOutpost != 0 then w.configuredOutpost else 638))
            && o.accounting.failCount in {a.failCount, Next(a.failCount)}
  {
    EntersExactly(w);
    assert |a.log + [Started(Next(a.runCount), w.startTick)]| == |a.log| + 1;
  }

  /** The dungeon handler throws exactly where a call or a report on its way does. */
  lemma DungeonThrowsExactly(a: Accounting, w: DungeonWorld)
    ensures var outpost := if w.configuredOutpost != 0 then w.configuredOutpost else 638;
            var done := w.loop.Returns? && w.loop.value.completed && !RewardInside(w);
            Dungeon(a, w).next == Throws <==>
            || w.refreshThrows
            || (w.mapBefore == 558 && ThrowsOnTheWay(w))
            || (Enters(w) && w.mapAfterEntry in {615, 616}
                && (|| w.publishStartThrows || w.loop == Throws
                    || (done && w.publishDoneThrows)
                    || (done && EndsOn(w, 558) && w.needsMaintenance == Throws)))
            || (Enters(w) && w.mapAfterEntry !in {615, 616} && w.mapAfterEntry == outpost && w.publishFailedThrows)
  {
    EntersExactly(w);
  }

  predicate ThrowsOnTheWay(w: DungeonWorld) {
    || w.useConsumables == Throws
    || (w.useConsumables == Returns(true)
        && (|| w.moveToEntryNpc == Throws
            || (w.moveToEntryNpc == Returns(true)
                && (|| w.prepareEntry == Throws
                    || (w.prepareEntry == Returns(false) && w.recordFailureThrows)
                    || (w.prepareEntry == Returns(true) && (w.resetFailuresThrows || w.enterDungeon == Throws))))))
  }

  /** The dungeon handler goes to the town exactly from a loop that was completed and ended at the outpost, and
      after a run that failed there. */
  lemma DungeonToTownExactly(a: Accounting, w: DungeonWorld)
    ensures var outpost := if w.configuredOutpost != 0 then w.configuredOutpost else 638;
            Dungeon(a, w).next == Returns(InTown) <==>
            && Enters(w)
            && (if w.mapAfterEntry in {615, 616} then
                  && LoopReturns(w) && w.loop.value.completed
                  && !EndsOn(w, 558) && EndsOn(w, outpost) && !w.publishDoneThrows
                else w.mapAfterEntry == outpost && !w.publishFailedThrows)
  {
    EntersExactly(w);
  }

  /** A world with these answers for the dungeon handler. */
  function AtDungeon(w: DungeonWorld): World {
    MOVING.(dungeon := w)
  }

  /** Waiting for the return ends in the town, or in Sparkfly, only with the run marked as completed, also
      if reporting it throws; and nothing but a return completes it. */
  lemma LeavingCompletes(a: Accounting, w: ReturnWorld)
    ensures var o := AwaitReturn(a, w); var outpost := Outpost(w.configuredOutpost);
            && (o.next == Returns(InTown) || (!w.publishThrows && w.mapId == SPARKFLY_SWAMP) ==> o.accounting.marked)
            && (o.accounting.marked && !a.marked ==>
                w.mapId == SPARKFLY_SWAMP || w.mapId == outpost || w.finalMapId == outpost)
            && (o.next == Returns(Merchant) ==> w.mapId == SPARKFLY_SWAMP && w.needsMaintenance == Returns(true))
  {
  }

  // ----- a run that has its reward is completed before another one -----

  /** The maps that a return can arrive on. */
  predicate Arrived(w: ReturnWorld) {
    w.mapId == 558 || w.mapId == (if w.configuredOutpost != 0 then w.configuredOutpost else 638)
  }

  /** Something goes wrong while the return is awaited: an exception, a return that does not get to the outpost,
      or a loaded map that the bot does not expect. */
  predicate ReturnGoesWrong(w: ReturnWorld) {
    var outpost := if w.configuredOutpost != 0 then w.configuredOutpost else 638;
    || w.publishThrows
    || (!Arrived(w) && w.mapId in {615, 616}
        && (|| w.needsMaintenance == Throws
            || (w.needsMaintenance == Returns(true)
                && (w.publishReturnThrows || w.returned != Returns(true) || w.finalMapId != outpost))))
    || (!Arrived(w) && w.mapId !in {615, 616} && w.mapId != 0 && w.mapLoaded)
  }

  /** What comes of awaiting a return that does not go wrong: the run is completed on arrival, or by a return for
      maintenance where it is needed; otherwise the bot goes on awaiting it, and nothing has changed. */
  lemma AwaitingExactly(a: Accounting, w: ReturnWorld)
    requires !ReturnGoesWrong(w)
    ensures var o := AwaitReturn(a, w);
            var brought := !Arrived(w) && w.mapId in {615, 616} && w.needsMaintenance == Returns(true);
            && (o.next == Returns(AwaitingReturn) <==> !Arrived(w) && !brought)
            && (if Arrived(w) || brought then o.accounting == MarkCompleted(a, a.runCount, w.tick)
                else o.accounting == a)
            && ((Arrived(w) && w.mapId != 558) || brought ==>
                  o.next == if !a.marked && w.publishDoneThrows then Throws else Returns(InTown))
  {
  }

  /** A return that does go wrong leaves the run as it is, and leads to the error state, or into the dungeon from a
      map that is not expected. */
  lemma WrongReturnExactly(a: Accounting, w: ReturnWorld)
    requires ReturnGoesWrong(w)
    ensures var o := AwaitReturn(a, w);
            && o.accounting == a
            && NextState(o) ==
               if !w.publishThrows && w.mapId !in {615, 616} then InDungeon else Error
  {
  }

  /** No awaited return goes wrong in these steps. */
  ghost predicate ReturnsGoWell(t: Thread, steps: seq<Step>)
    requires CanRun(t, steps)
    decreases |steps|
  {
    steps == []
    || (!(steps[0].HandlerEnds? && t.handling == Some(AwaitingReturn) && ReturnGoesWrong(steps[0].world.awaitingReturn))
        && ReturnsGoWell(Apply(t, steps[0]), steps[1..]))
  }

  /** The run after `log` is still open, or its completion is the next entry. */
  predicate CompletedNext(log: seq<Entry>, number: Word, now: seq<Entry>) {
    now == log || (|log| < |now| && now[..|log|] == log && now[|log|].Completed? && now[|log|].number == number)
  }

  lemma {:induction false} CompletedStaysNext(t: Thread, steps: seq<Step>, log: seq<Entry>, number: Word)
    requires CanRun(t, steps) && t.accounting.log != log && CompletedNext(log, number, t.accounting.log)
    ensures Run(t, steps).accounting.log != log && CompletedNext(log, number, Run(t, steps).accounting.log)
    decreases |steps|
  {
    if steps != [] {
      if steps[0].HandlerEnds? {
        LogOnlyGrows(t.handling.value, t.accounting, steps[0].world);
        LongerStaysNext(log, number, t.accounting.log, Apply(t, steps[0]).accounting.log);
      }
      CompletedStaysNext(Apply(t, steps[0]), steps[1..], log, number);
    }
  }

  lemma LogOnlyGrows(state: BotState, a: Accounting, w: World)
    requires Registered(state)
    ensures a.log <= Handle(state, a, w).accounting.log
  {
  }

  lemma LongerStaysNext(log: seq<Entry>, number: Word, now: seq<Entry>, later: seq<Entry>)
    requires now != log && CompletedNext(log, number, now) && now <= later
    ensures later != log && CompletedNext(log, number, later)
  {
    assert later[|log|] == now[|log|];
    assert later[..|log|] == now[..|log|];
  }

  /** Over every run that is left alone, from a run that has its reward and awaits its return: as long as no
      return goes wrong, that run is completed before any other is started. */
  lemma {:induction false} RewardedRunIsCompletedFirst(t: Thread, steps: seq<Step>)
    requires t.state.AwaitingReturn? && t.handling in {None, Some(AwaitingReturn)} && !t.accounting.marked
    requires CanRun(t, steps) && ReturnsGoWell(t, steps) && forall i :: 0 <= i < |steps| ==> OwnStep(steps[i])
    ensures CompletedNext(t.accounting.log, t.accounting.runCount, Run(t, steps).accounting.log)
    decreases |steps|
  {
    if steps != [] {
      assert OwnStep(steps[0]);
      var next := Apply(t, steps[0]);
      if steps[0].HandlerEnds? {
        AwaitingExactly(t.accounting, steps[0].world.awaitingReturn);
      }
      if next.accounting == t.accounting && next.state.AwaitingReturn? {
        RewardedRunIsCompletedFirst(next, steps[1..]);
      } else {
        CompletedStaysNext(next, steps[1..], t.accounting.log, t.accounting.runCount);
      }
    }
  }

  // ----- no run without a departure -----

  /** The bot stands in the ready outpost, what maintenance could not mend is above the critical limits, the
      setup is applied and the consumables are used. */
  predicate ReadyToLeave(w: TownWorld) {
    && !w.publishThrows && w.mapId == Outpost(w.configuredOutpost) && w.runtimeReady == Returns(true)
    && w.needsMaintenance.Returns?
    && (w.needsMaintenance.value ==> w.freeSlots >= w.criticalFreeSlots && !w.missingConsets)
    && w.applySetup == Returns(true) && w.useConsumables == Returns(true)
  }

  /** A way from the towns to the open: a ready outpost, a full maintenance that is done, or an error that
      finds the bot in the open. */
  predicate Departs(t: Thread, step: Step) {
    && step.HandlerEnds? && t.handling.Some?
    && (|| (t.handling.value.InTown? && ReadyToLeave(step.world.town))
        || (t.handling.value.Maintenance? && step.world.maintenance == Returns(Done))
        || (t.handling.value.Error? && (step.world.mapId == SPARKFLY_SWAMP || IsBogroot(step.world.mapId))))
  }

  predicate InTowns(state: BotState) {
    state in {CharSelect, InTown, Looting, Merchant, Maintenance, Error, Stopping}
  }

  /** In the towns, with no run started. */
  predicate Ashore(t: Thread) {
    InTowns(t.state) && (t.handling.Some? ==> InTowns(t.handling.value)) && t.accounting == FRESH
  }

  ghost predicate StaysHome(t: Thread, steps: seq<Step>)
    requires CanRun(t, steps)
    decreases |steps|
  {
    steps == [] || (!Departs(t, steps[0]) && StaysHome(Apply(t, steps[0]), steps[1..]))
  }

  /** Over every run that is left alone: as long as no ready outpost, no maintenance and no recovery sends the
      bot out, whatever the handlers of the towns do among themselves, no run is started, completed or failed. */
  lemma {:induction false} NoRunWithoutDeparture(t: Thread, steps: seq<Step>)
    requires Ashore(t) && CanRun(t, steps) && StaysHome(t, steps)
    requires forall i :: 0 <= i < |steps| ==> OwnStep(steps[i])
    ensures Ashore(Run(t, steps))
    decreases |steps|
  {
    if steps != [] {
      assert OwnStep(steps[0]);
      NoRunWithoutDeparture(Apply(t, steps[0]), steps[1..]);
    }
  }

  /** The outpost cannot be reached, or what maintenance left is below the critical limits. */
  predicate CannotGoOn(w: TownWorld) {
    && !w.publishThrows
    && (if w.mapId != Outpost(w.configuredOutpost) then w.outpostReady == Returns(false)
        else w.runtimeReady == Returns(true) && w.needsMaintenance == Returns(true)
             && (w.freeSlots < w.criticalFreeSlots || w.missingConsets))
  }

  lemma TownSetsOutExactly(w: TownWorld)
    ensures TownSetup(w) == Returns(Traveling) <==> ReadyToLeave(w)
    ensures TownSetup(w) == Returns(Stopping) <==> CannotGoOn(w)
    ensures TownSetup(w) == Returns(Error) <==>
            && !w.publishThrows && w.mapId == Outpost(w.configuredOutpost) && w.runtimeReady == Returns(true)
            && w.needsMaintenance.Returns? && !CannotGoOn(w) && w.applySetup == Returns(false)
    ensures TownSetup(w) == Returns(Maintenance) <==>
            && !w.publishThrows && w.mapId == Outpost(w.configuredOutpost) && w.runtimeReady == Returns(true)
            && w.needsMaintenance.Returns? && !CannotGoOn(w)
            && w.applySetup == Returns(true) && w.useConsumables == Returns(false)
    ensures TownSetup(w) == Returns(InTown) <==>
            && !w.publishThrows
            && (if w.mapId != Outpost(w.configuredOutpost) then w.outpostReady == Returns(true)
                else w.runtimeReady == Returns(false))
  {
  }

  /** From the towns the bot goes out exactly by a departure, and it stops exactly where the town cannot go on
      or a vendor's maintenance gives up; everything else stays in the towns. */
  lemma DepartsExactly(t: Thread, w: World)
    requires Ashore(t) && t.handling == Some(t.state) && Registered(t.state)
    ensures var next := Apply(t, HandlerEnds(w));
            && (!InTowns(next.state) <==> Departs(t, HandlerEnds(w)))
            && (next.state.Stopping? <==>
                  || (t.state.InTown? && CannotGoOn(w.town))
                  || (t.state.Merchant? && w.maintenance == Returns(Stop))
                  || (t.state.Maintenance? && w.maintenance in {Returns(Stop), Returns(NeedsMaintenance)}))
            && next.accounting == FRESH
  {
    TownSetsOutExactly(w.town);
  }

  // ----- completions follow their starts -----

  function Previous(log: seq<Entry>, i: nat): Word
    requires i < |log|
  {
    if i > 0 then log[i - 1].at else 0
  }

  /** Every completion comes directly after the start of the same run; only the very first entry may be a
      completion without a start. */
  ghost predicate Paired(log: seq<Entry>) {
    forall i :: 0 < i < |log| ==> FollowsStart(log, i)
  }

  predicate FollowsStart(log: seq<Entry>, i: nat)
    requires 0 < i < |log|
  {
    log[i].Completed? ==> log[i - 1].Started? && log[i - 1].number == log[i].number
  }

  /** The least time of a completed run, modulo 2^32, or the initial value. */
  function Best(log: seq<Entry>): Word {
    if log == [] then 0xFFFF_FFFF
    else
      var n := |log| - 1;
      var before := Best(log[..n]);
      if log[n].Started? then before
      else
        var runTime := Minus(log[n].at, Previous(log, n));
        if runTime < before then runTime else before
  }

  ghost predicate Accounted(a: Accounting) {
    && Paired(a.log)
    && a.bestTime == Best(a.log)
    && (a.log == [] ==> !a.marked && a.startTime == 0)
    && (a.log != [] ==> (a.marked <==> a.log[|a.log| - 1].Completed?))
    && (a.log != [] && !a.marked ==> a.runCount == a.log[|a.log| - 1].number && a.startTime == a.log[|a.log| - 1].at)
  }

  lemma SnocLog(log: seq<Entry>, e: Entry)
    requires Paired(log) && (e.Completed? && log != [] ==> log[|log| - 1].Started? && log[|log| - 1].number == e.number)
    ensures Paired(log + [e])
    ensures var runTime := Minus(e.at, if log == [] then 0 else log[|log| - 1].at);
            Best(log + [e]) == if e.Completed? && runTime < Best(log) then runTime else Best(log)
  {
    var all := log + [e];
    assert all[..|log|] == log;
    forall i | 0 < i < |all| ensures FollowsStart(all, i) {
      if i < |log| {
        assert FollowsStart(log, i);
      }
    }
  }

  lemma StartKeepsAccounted(a: Accounting, tick: Word)
    requires Accounted(a)
    ensures Accounted(MarkStarted(a, tick))
  {
    SnocLog(a.log, Started(Next(a.runCount), tick));
  }

  lemma CompleteKeepsAccounted(a: Accounting, tick: Word)
    requires Accounted(a)
    ensures Accounted(MarkCompleted(a, a.runCount, tick))
  {
    if !a.marked {
      var e := Completed(a.runCount, tick);
      SnocLog(a.log, e);
      var all := a.log + [e];
      assert MarkCompleted(a, a.runCount, tick).log == all && all[|all| - 1] == e;
      assert a.startTime == if a.log == [] then 0 else a.log[|a.log| - 1].at;
    }
  }

  lemma HandleKeepsAccounted(state: BotState, a: Accounting, w: World)
    requires Registered(state) && Accounted(a)
    ensures Accounted(Handle(state, a, w).accounting)
  {
    if state.InDungeon? {
      StartKeepsAccounted(a, w.dungeon.startTick);
      CompleteKeepsAccounted(MarkStarted(a, w.dungeon.startTick), w.dungeon.doneTick);
    } else if state.AwaitingReturn? {
      CompleteKeepsAccounted(a, w.awaitingReturn.tick);
    }
  }

  /** Over every run, also with states set from outside and stop requests: a run is completed only as the
      most recent start and at most once, and the best time is the least among the completed runs. */
  lemma {:induction false} RunKeepsAccounted(t: Thread, steps: seq<Step>)
    requires Accounted(t.accounting) && CanRun(t, steps)
    ensures Accounted(Run(t, steps).accounting)
    decreases |steps|
  {
    if steps != [] {
      if steps[0].HandlerEnds? {
        HandleKeepsAccounted(t.handling.value, t.accounting, steps[0].world);
      }
      RunKeepsAccounted(Apply(t, steps[0]), steps[1..]);
    }
  }

  /** The best time is the minimum: no completed run was faster, and some completed run was as fast, or
      there is none and it is still the initial value. */
  lemma {:induction false} BestIsMinimum(log: seq<Entry>)
    ensures forall i :: 0 <= i < |log| && log[i].Completed? ==> Best(log) <= Minus(log[i].at, Previous(log, i))
    ensures || Best(log) == 0xFFFF_FFFF
            || exists i :: 0 <= i < |log| && log[i].Completed? && Best(log) == Minus(log[i].at, Previous(log, i))
  {
    if log != [] {
      var n := |log| - 1;
      var before := log[..n];
      BestIsMinimum(before);
      forall i | 0 <= i < |log| && log[i].Completed? ensures Best(log) <= Minus(log[i].at, Previous(log, i)) {
        if i < n {
          assert before[i] == log[i] && Previous(before, i) == Previous(log, i);
        }
      }
      if Best(log) == Best(before) && Best(before) != 0xFFFF_FFFF {
        var i :| 0 <= i < n && before[i].Completed? && Best(before) == Minus(before[i].at, Previous(before, i));
        assert log[i] == before[i] && Previous(before, i) == Previous(log, i);
      }
    }
  }

  // ----- completions never exceed starts -----

  function Starts(log: seq<Entry>, n: nat): nat
    requires n <= |log|
  {
    if n == 0 then 0 else Starts(log, n - 1) + if log[n - 1].Started? then 1 else 0
  }

  function Completions(log: seq<Entry>, n: nat): nat
    requires n <= |log|
  {
    if n == 0 then 0 else Completions(log, n - 1) + if log[n - 1].Completed? then 1 else 0
  }

  lemma {:induction false} PairedBound(log: seq<Entry>, n: nat)
    requires Paired(log) && n <= |log|
    ensures Completions(log, n) <= Starts(log, n) + if log != [] && log[0].Completed? then 1 else 0
    ensures n > 0 && log[n - 1].Started? ==> Completions(log, n) < Starts(log, n) + if log[0].Completed? then 1 else 0
  {
    if n > 0 {
      PairedBound(log, n - 1);
      if n > 1 && log[n - 1].Completed? {
        assert FollowsStart(log, n - 1);
      }
    }
  }

  /** At no moment have more runs been completed than started, exactly unless the very first entry of the
      accounting is a completion; then there is one too many at most. */
  lemma BoundedUnlessFirst(log: seq<Entry>)
    requires Paired(log)
    ensures (forall n :: 0 <= n <= |log| ==> Completions(log, n) <= Starts(log, n)) <==>
            !(log != [] && log[0].Completed?)
    ensures Completions(log, |log|) <= Starts(log, |log|) + 1
  {
    PairedBound(log, |log|);
    if log != [] && log[0].Completed? {
      assert Completions(log, 0) == 0 && Starts(log, 0) == 0;
      assert Completions(log, 1) > Starts(log, 1);
    } else {
      forall n | 0 <= n <= |log| ensures Completions(log, n) <= Starts(log, n) {
        PairedBound(log, n);
      }
    }
  }

  ghost predicate NeverExceeds(log: seq<Entry>) {
    forall n :: 0 <= n <= |log| ==> Completions(log, n) <= Starts(log, n)
  }

  predicate AwaitsOnlyAfterStart(t: Thread) {
    && (t.state.AwaitingReturn? || t.handling == Some(AwaitingReturn) ==> t.accounting.log != [])
    && (t.accounting.log != [] ==> t.accounting.log[0].Started?)
  }

  lemma HandlerAwaitsAfterStart(t: Thread, w: World)
    requires AwaitsOnlyAfterStart(t) && t.handling.Some? && Registered(t.handling.value)
    ensures AwaitsOnlyAfterStart(Apply(t, HandlerEnds(w)))
  {
  }

  lemma {:induction false} RunAwaitsAfterStart(t: Thread, steps: seq<Step>)
    requires AwaitsOnlyAfterStart(t) && CanRun(t, steps) && forall i :: 0 <= i < |steps| ==> OwnStep(steps[i])
    ensures AwaitsOnlyAfterStart(Run(t, steps))
    decreases |steps|
  {
    if steps != [] {
      assert OwnStep(steps[0]);
      if steps[0].HandlerEnds? {
        HandlerAwaitsAfterStart(t, steps[0].world);
      }
      RunAwaitsAfterStart(Apply(t, steps[0]), steps[1..]);
    }
  }

  /** Started, set to a registered state and left alone, a bot never completes more runs than it started. The
      one state that breaks this is `AwaitingReturn` with no run started before. */
  lemma CompletionsNeverExceedStarts(state: BotState, steps: seq<Step>)
    requires CanRun(Launched(state), steps) && forall i :: 0 <= i < |steps| ==> OwnStep(steps[i])
    requires !state.AwaitingReturn?
    ensures NeverExceeds(Run(Launched(state), steps).accounting.log)
  {
    RunKeepsAccounted(Launched(state), steps);
    RunAwaitsAfterStart(Launched(state), steps);
    BoundedUnlessFirst(Run(Launched(state), steps).accounting.log);
  }

  lemma RunUnfolds(t: Thread, step: Step, rest: seq<Step>)
    requires Enabled(t, step) && CanRun(Apply(t, step), rest)
    ensures CanRun(t, [step] + rest) && Run(t, [step] + rest) == Run(Apply(t, step), rest)
  {
    assert ([step] + rest)[1..] == rest;
  }

  /** A bot that was started, which is idle, and then set to await a return completes a run that never
      started, as soon as the map is the outpost. */
  lemma AwaitingFirstBreaksIt(w: World)
    requires w.awaitingReturn.mapId == Outpost(w.awaitingReturn.configuredOutpost) && !w.awaitingReturn.publishThrows
    ensures var steps := [SetState(AwaitingReturn)] + ([Iterate] + ([HandlerEnds(w)] + []));
            && CanRun(Launched(Idle), steps)
            && var log := Run(Launched(Idle), steps).accounting.log;
            |log| == 1 && Completions(log, 1) > Starts(log, 1)
  {
    var t0 := Apply(Launched(Idle), SetState(AwaitingReturn));
    var t1 := Apply(t0, Iterate);
    RunUnfolds(t1, HandlerEnds(w), []);
    RunUnfolds(t0, Iterate, [HandlerEnds(w)] + []);
    RunUnfolds(Launched(Idle), SetState(AwaitingReturn), [Iterate] + ([HandlerEnds(w)] + []));
    var log := Apply(t1, HandlerEnds(w)).accounting.log;
    assert Completions(log, 0) == 0 && Starts(log, 0) == 0;
  }

  /** A run of the bot from `state` on that is left alone. */
  ghost predicate LeftAlone(state: BotState, steps: seq<Step>) {
    CanRun(Launched(state), steps) && forall i :: 0 <= i < |steps| ==> OwnStep(steps[i])
  }

  /** At every moment of every such run, no more runs were completed than started. */
  ghost predicate NeverOvercounts(state: BotState) {
    forall steps: seq<Step> :: LeftAlone(state, steps) ==> NeverExceeds(Run(Launched(state), steps).accounting.log)
  }

  lemma AwaitingCompletesFirst() returns (steps: seq<Step>)
    ensures LeftAlone(AwaitingReturn, steps) && !NeverExceeds(Run(Launched(AwaitingReturn), steps).accounting.log)
  {
    var t0 := Launched(AwaitingReturn);
    var t1 := Apply(t0, Iterate);
    steps := [Iterate] + ([HandlerEnds(MOVING)] + []);
    RunUnfolds(t1, HandlerEnds(MOVING), []);
    RunUnfolds(t0, Iterate, [HandlerEnds(MOVING)] + []);
    var log := Apply(t1, HandlerEnds(MOVING)).accounting.log;
    assert log == [Completed(0, 0)];
    assert Completions(log, 0) == 0 && Starts(log, 0) == 0;
    assert Completions(log, 1) > Starts(log, 1);
  }

  /** In no run of a bot that is left alone have, at any moment, more runs been completed than started,
      exactly if the bot does not begin by awaiting a return. */
  lemma CompletionsBoundedExactly(state: BotState)
    ensures NeverOvercounts(state) <==> !state.AwaitingReturn?
  {
    if state.AwaitingReturn? {
      var steps := AwaitingCompletesFirst();
    } else {
      forall steps: seq<Step> | LeftAlone(state, steps)
        ensures NeverExceeds(Run(Launched(state), steps).accounting.log)
      {
        CompletionsNeverExceedStarts(state, steps);
      }
    }
  }

  // ----- wipes -----

  /** The route runner counts the wipes of one dungeon loop; `observed` of them were already added to the
      session's total. */
  datatype Wipes = Wipes(route: nat, observed: nat, total: nat)

  datatype WipeEvent = PartyWipes | Observe | ResetLoop

  function ObserveWipes(w: Wipes): Wipes {
    var observed := if w.route < w.observed then w.route else w.observed;
    if w.route > observed then Wipes(w.route, w.route, w.total + (w.route - observed)) else w.(observed := observed)
  }

  function AfterWipes(history: seq<WipeEvent>): Wipes {
    if history == [] then Wipes(0, 0, 0)
    else
      var before := AfterWipes(history[..|history| - 1]);
      match history[|history| - 1]
      case PartyWipes => before.(route := before.route + 1)
      case Observe => ObserveWipes(before)
      case ResetLoop => before.(route := 0, observed := 0)
  }

  /** The wipes of the whole history. */
  function Happened(history: seq<WipeEvent>): nat {
    if history == [] then 0
    else Happened(history[..|history| - 1]) + if history[|history| - 1].PartyWipes? then 1 else 0
  }

  /** The wipes since the last observation or reset. */
  function Unobserved(history: seq<WipeEvent>): nat {
    if history == [] || !history[|history| - 1].PartyWipes? then 0 else Unobserved(history[..|history| - 1]) + 1
  }

  /** The wipes that a reset swept away before anyone observed them. */
  function Lost(history: seq<WipeEvent>): nat {
    if history == [] then 0
    else
      var before := history[..|history| - 1];
      Lost(before) + if history[|history| - 1].ResetLoop? then Unobserved(before) else 0
  }

  /** Every wipe is in the session's total, still unobserved, or lost by a reset; so the total is right
      after an observation exactly if no reset came before its observation. */
  lemma {:induction false} WipesAreConserved(history: seq<WipeEvent>)
    ensures var w := AfterWipes(history);
            && w.observed <= w.route && w.route - w.observed == Unobserved(history)
            && w.total + Unobserved(history) + Lost(history) == Happened(history)
            && (w.total == Happened(history) <==> Unobserved(history) == 0 && Lost(history) == 0)
  {
    if history != [] {
      WipesAreConserved(history[..|history| - 1]);
    }
  }

  // ----- the module's counters and the framework's thread -----

  method IsMapInList(mapId: Word, mapIds: seq<Word>) returns (found: bool)
    ensures found <==> exists i :: 0 <= i < |mapIds| && mapIds[i] == mapId
  {
    for i := 0 to |mapIds|
      invariant forall j :: 0 <= j < i ==> mapIds[j] != mapId
    {
      if mapIds[i] == mapId {
        return true;
      }
    }
    return false;
  }

  const BOGROOT_DUNGEON_MAPS: seq<Word> := [615, 616]

  class FroggyModule {
    var runCount: Word
    var failCount: Word
    var runStartTime: Word
    var bestRunTime: Word
    var runCompletionMarked: bool
    ghost var log: seq<Entry>

    ghost function Value(): Accounting
      reads this
    {
      Accounting(runCount, failCount, runStartTime, bestRunTime, runCompletionMarked, log)
    }

    constructor ()
      ensures Value() == FRESH && Accounted(Value())
    {
      runCount, failCount, runStartTime, bestRunTime, runCompletionMarked, log := 0, 0, 0, 0xFFFF_FFFF, false, [];
    }

    method MarkRunStarted(tick: Word) returns (number: Word)
      modifies this
      ensures Value() == MarkStarted(old(Value()), tick) && number == runCount
    {
      runCount := Next(runCount);
      runStartTime := tick;
      runCompletionMarked := false;
      log := log + [Started(runCount, tick)];
      number := runCount;
    }

    /** `published` says whether the completion was new, and so reported. */
    method MarkFroggyRunCompleted(number: Word, tick: Word) returns (published: bool)
      modifies this
      ensures Value() == MarkCompleted(old(Value()), number, tick) && published == !old(runCompletionMarked)
    {
      if runCompletionMarked {
        return false;
      }
      var runTime := Minus(tick, runStartTime);
      if runTime < bestRunTime {
        bestRunTime := runTime;
      }
      runCompletionMarked := true;
      log := log + [Completed(number, tick)];
      return true;
    }

    method RunDungeonLoop(w: DungeonWorld) returns (next: Call<BotState>)
      modifies this
      ensures Outcome(Value(), next) == RunDungeon(old(Value()), w)
    {
      var number := MarkRunStarted(w.startTick);
      if w.publishStartThrows || w.loop.Throws? {
        return Throws;
      }
      var loopResult := w.loop.value;
      if loopResult.finalMapId == 0 {
        loopResult := loopResult.(finalMapId := w.mapAfterLoop);
      }
      if loopResult.completed {
        var inDungeon := IsMapInList(loopResult.finalMapId, BOGROOT_DUNGEON_MAPS);
        if loopResult.finalMapId == SPARKFLY_SWAMP {
          var published := MarkFroggyRunCompleted(number, w.doneTick);
          if published && w.publishDoneThrows {
            return Throws;
          }
          return AfterReturnToSparkfly(w.needsMaintenance);
        }
        if loopResult.finalMapId == Outpost(w.configuredOutpost) {
          var published := MarkFroggyRunCompleted(number, w.doneTick);
          return if published && w.publishDoneThrows then Throws else Returns(InTown);
        }
        assert BOGROOT_DUNGEON_MAPS[0] == 615 && BOGROOT_DUNGEON_MAPS[1] == 616;
        if inDungeon {
          return Returns(AwaitingReturn);
        }
        var published := MarkFroggyRunCompleted(number, w.doneTick);
        if published && w.publishDoneThrows {
          return Throws;
        }
      }
      return Returns(InDungeon);
    }

    method HandleDungeon(w: DungeonWorld) returns (next: Call<BotState>)
      modifies this
      ensures Outcome(Value(), next) == Dungeon(old(Value()), w)
    {
      var entry := EnterFromQuestMap(w);
      if entry.Throws? {
        return Throws;
      }
      if entry.value.Some? {
        return Returns(entry.value.value);
      }
      var inDungeon := IsMapInList(w.mapAfterEntry, BOGROOT_DUNGEON_MAPS);
      assert BOGROOT_DUNGEON_MAPS[0] == 615 && BOGROOT_DUNGEON_MAPS[1] == 616;
      if inDungeon {
        next := RunDungeonLoop(w);
        return;
      }
      if w.mapAfterEntry == Outpost(w.configuredOutpost) {
        failCount := Next(failCount);
        return if w.publishFailedThrows then Throws else Returns(InTown);
      }
      return Returns(InDungeon);
    }

    method HandleAwaitingReturn(w: ReturnWorld) returns (next: Call<BotState>)
      modifies this
      ensures Outcome(Value(), next) == AwaitReturn(old(Value()), w)
    {
      if w.publishThrows {
        return Throws;
      }
      if w.mapId == SPARKFLY_SWAMP {
        var published := MarkFroggyRunCompleted(runCount, w.tick);
        return if published && w.publishDoneThrows then Throws else AfterReturnToSparkfly(w.needsMaintenance);
      }
      if w.mapId == Outpost(w.configuredOutpost) {
        var published := MarkFroggyRunCompleted(runCount, w.tick);
        return if published && w.publishDoneThrows then Throws else Returns(InTown);
      }
      if IsBogroot(w.mapId) {
        if w.needsMaintenance.Throws? {
          return Throws;
        }
        if w.needsMaintenance.value {
          if w.returned.Throws? || w.publishReturnThrows {
            return Throws;
          }
          if w.returned.value && w.finalMapId == Outpost(w.configuredOutpost) {
            var published := MarkFroggyRunCompleted(runCount, w.tick);
            return if published && w.publishDoneThrows then Throws else Returns(InTown);
          }
          return Returns(Error);
        }
        return Returns(AwaitingReturn);
      }
      if w.mapId == 0 || !w.mapLoaded {
        return Returns(AwaitingReturn);
      }
      return Returns(InDungeon);
    }

    /** The handler of a state, whatever it throws turned into the error state. */
    method InvokeHandler(state: BotState, w: World) returns (next: BotState)
      requires Registered(state)
      modifies this
      ensures var outcome := Handle(state, old(Value()), w); Value() == outcome.accounting && next == NextState(outcome)
    {
      var result: Call<BotState>;
      match state {
        case InDungeon => result := HandleDungeon(w.dungeon);
        case AwaitingReturn => result := HandleAwaitingReturn(w.awaitingReturn);
        case CharSelect => result := Returns(if w.mapId > 0 then InTown else CharSelect);
        case InTown => result := TownSetup(w.town);
        case Traveling =>
          result := if w.atEntryMap.Throws? then Throws else Returns(if w.atEntryMap.value then InDungeon else InTown);
        case Looting => result := Returns(Merchant);
        case Merchant => result := if w.maintenance.Throws? then Throws else Returns(MerchantNext(w.maintenance.value));
        case Maintenance =>
          result := if w.maintenance.Throws? then Throws else Returns(MaintenanceNext(w.maintenance.value));
        case Error => result := Returns(RecoverTo(w.mapId));
      }
      next := if result.Throws? then Error else result.value;
    }
  }

  class BotThread {
    const froggy: FroggyModule
    var state: BotState
    var handling: Option<BotState>
    var stopRequested: bool
    var exited: bool

    ghost function Value(): Thread
      reads this, froggy
    {
      Thread(state, handling, stopRequested, exited, froggy.Value())
    }

    constructor (froggy: FroggyModule, state: BotState)
      requires froggy.Value() == FRESH
      ensures this.froggy == froggy && Value() == Launched(state)
    {
      this.froggy, this.state, handling, stopRequested, exited := froggy, state, None, false, false;
    }

    /** The head of the loop: leave, pick the handler of the current state, or wait for one. */
    method BeginIteration()
      requires Enabled(Value(), Iterate)
      modifies this
      ensures Value() == Apply(old(Value()), Iterate)
    {
      if stopRequested || state == Stopping {
        exited := true;
      } else if Registered(state) {
        handling := Some(state);
      }
    }

    /** The handler runs to its end; a different next state replaces whatever was set meanwhile. */
    method EndIteration(w: World)
      requires Enabled(Value(), HandlerEnds(w))
      modifies this, froggy
      ensures Value() == Apply(old(Value()), HandlerEnds(w))
    {
      var current := handling.value;
      var next := froggy.InvokeHandler(current, w);
      handling := None;
      if next != current {
        state := next;
      }
    }

    method SetBotState(newState: BotState)
      modifies this
      ensures Value() == Apply(old(Value()), SetState(newState))
    {
      if newState != state {
        state := newState;
      }
    }

    method StopBot()
      modifies this
      ensures Value() == Apply(old(Value()), RequestStop)
    {
      stopRequested := true;
      state := Stopping;
    }
  }
}
