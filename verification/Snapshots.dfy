/** Game-state snapshots, as far as the supervisor, the plan controller and the planner look at one.
    A missing section of a snapshot reads as an empty one. */
module Snapshots {
  import opened Options

  /** A field that should hold an integer: absent or null, a number, or something `int()` refuses. */
  datatype RawInt = Absent | Int(value: int) | NotInt

  datatype Bot = Bot(state: string, phase: string, busy: bool, safeForLlmAction: bool)

  /** Coordinates are present only where `float()` accepts them. */
  datatype Me = Me(isMoving: bool, isCasting: bool, x: Option<real>, y: Option<real>)

  datatype Route = Route(
    progress: string,
    phase: Option<string>,
    nextKind: string,
    nextMapId: RawInt,
    deviationDistance: Option<real>,
    offRouteDistance: Option<real>)

  datatype Snapshot = Snapshot(
    mapId: RawInt,
    loadingState: RawInt,
    partyDefeated: bool,
    freeSlots: RawInt,
    bot: Bot,
    me: Me,
    route: Route)

  /** `int(value or 0)`, with 0 for what is no integer. */
  function IntOrZero(raw: RawInt): int {
    if raw.Int? then raw.value else 0
  }

  function MapIdOrZero(snapshot: Snapshot): int {
    IntOrZero(snapshot.mapId)
  }
}
