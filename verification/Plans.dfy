/** The planner's plan: which arguments make one, and the way there and back. */
module Plans {
  import opened Options
  import opened Texts

  /** A decoded JSON value. */
  datatype Argument =
    | Null
    | Bool(b: bool)
    | Int(n: int)
    | Float(x: real)
    | Str(s: string)
    | List(items: seq<Argument>)
    | Dict(entries: map<string, Argument>)

  /** The names of the plan's fields; any other name is `Other`. */
  datatype Field =
    | Version | IssuedAt | ExpiresAt | Phase | PhaseKind | Intent | NextStep | Deviation
    | Constraints | ExpectedRoute | AbortConditions | Fallback | TraceId
    | Other(name: string)

  type Arguments = map<Field, Argument>

  const FIELDS: set<Field> :=
    {Version, IssuedAt, ExpiresAt, Phase, PhaseKind, Intent, NextStep, Deviation,
     Constraints, ExpectedRoute, AbortConditions, Fallback, TraceId}

  const REQUIRED: set<Field> :=
    {Version, Phase, PhaseKind, Intent, NextStep, Constraints, ExpectedRoute, AbortConditions, Fallback, TraceId}

  /** `Invalid` is the declared validation error; `TypeFault` escapes from a comparison or a lookup
      before the fields are validated. */
  datatype PlanError = Invalid | TypeFault

  datatype Result<T> = Ok(value: T) | Err(error: PlanError)

  datatype Plan = Plan(
    issuedAt: real,
    expiresAt: real,
    phase: string,
    phaseKind: Kind,
    intent: string,
    nextStep: string,
    deviation: Option<string>,
    constraints: seq<Argument>,
    expectedRoute: seq<Argument>,
    abortConditions: seq<Argument>,
    fallback: string,
    traceId: string)

  /** The kinds of phase there are. */
  datatype Kind = LongWalk | RouteKind | Travel | Boss | Dialog | Merchant | Combat

  function KindName(kind: Kind): string {
    match kind
    case LongWalk => "long_walk"
    case RouteKind => "route"
    case Travel => "travel"
    case Boss => "boss"
    case Dialog => "dialog"
    case Merchant => "merchant"
    case Combat => "combat"
  }

  function KindOf(name: string): Option<Kind> {
    if name == "long_walk" then Some(LongWalk)
    else if name == "route" then Some(RouteKind)
    else if name == "travel" then Some(Travel)
    else if name == "boss" then Some(Boss)
    else if name == "dialog" then Some(Dialog)
    else if name == "merchant" then Some(Merchant)
    else if name == "combat" then Some(Combat)
    else None
  }

  /** How long a plan of a phase kind lives. */
  function PhaseExpiry(kind: Kind): real {
    if kind.LongWalk? || kind.RouteKind? || kind.Travel? then 60.0 else 10.0
  }

  lemma KindOfName(kind: Kind)
    ensures KindOf(KindName(kind)) == Some(kind)
    ensures !Blank(KindName(kind))
  {
    assert !IsSpace(KindName(kind)[0]);
  }

  lemma NameOfKind(name: string)
    ensures KindOf(name).Some? ==> KindName(KindOf(name).value) == name
  {
  }

  // ----- construction -----

  /** The value given for a field, or its default. */
  function At(given: Arguments, field: Field, now: real): Argument {
    if field in given then given[field]
    else match field
      case Version => Int(1)
      case IssuedAt => Float(now)
      case ExpiresAt => Float(0.0)
      case Phase => Str("idle")
      case PhaseKind => Str("route")
      case Intent => Str("Observe and wait for a planner decision.")
      case NextStep => Str("wait")
      case Constraints | ExpectedRoute | AbortConditions => List([])
      case Fallback => Str("handoff_to_froggy")
      case TraceId => Str("plan-initial")
      case _ => Null
  }

  function AsNumber(a: Argument): Option<real> {
    match a
    case Int(n) => Some(n as real)
    case Float(x) => Some(x)
    case _ => None
  }

  predicate IsText(a: Argument) {
    a.Str? && !Blank(a.s)
  }

  predicate IsStringList(a: Argument) {
    a.List? && forall i :: 0 <= i < |a.items| ==> a.items[i].Str?
  }

  predicate IsDictList(a: Argument) {
    a.List? && forall i :: 0 <= i < |a.items| ==> a.items[i].Dict?
  }

  /** The expiry: the given one if it is positive, or else counted from the time of issue. A given
      `false` compares like 0. */
  function Expiry(given: Argument, issuedAt: real, kind: Argument): Result<real> {
    var unset := given == Bool(false) || (AsNumber(given).Some? && AsNumber(given).value <= 0.0);
    if unset then
      if kind.List? || kind.Dict? then Err(TypeFault)
      else
        var known := if kind.Str? then KindOf(kind.s) else None;
        Ok(issuedAt + if known.Some? then PhaseExpiry(known.value) else 30.0)
    else if AsNumber(given).Some? then Ok(AsNumber(given).value)
    else if given.Bool? then Err(Invalid)
    else Err(TypeFault)
  }

  predicate WellTyped(given: Arguments, now: real) {
    && At(given, Version, now) == Int(1)
    && IsText(At(given, Phase, now)) && IsText(At(given, PhaseKind, now))
    && IsText(At(given, Intent, now)) && IsText(At(given, NextStep, now))
    && (At(given, Deviation, now).Null? || At(given, Deviation, now).Str?)
    && IsText(At(given, Fallback, now)) && IsText(At(given, TraceId, now))
    && KindOf(At(given, PhaseKind, now).s).Some?
    && IsStringList(At(given, Constraints, now))
    && IsDictList(At(given, ExpectedRoute, now))
    && IsDictList(At(given, AbortConditions, now))
  }

  /** The constructor with the checks that follow it. */
  function Construct(given: Arguments, now: real): Result<Plan> {
    var issuedAt := AsNumber(At(given, IssuedAt, now));
    if issuedAt.None? then Err(Invalid)
    else
      var expiresAt := Expiry(At(given, ExpiresAt, now), issuedAt.value, At(given, PhaseKind, now));
      if expiresAt.Err? then Err(expiresAt.error)
      else if !WellTyped(given, now) then Err(Invalid)
      else
        Ok(Plan(
          issuedAt.value, expiresAt.value,
          At(given, Phase, now).s, KindOf(At(given, PhaseKind, now).s).value,
          At(given, Intent, now).s, At(given, NextStep, now).s,
          if At(given, Deviation, now).Str? then Some(At(given, Deviation, now).s) else None,
          At(given, Constraints, now).items, At(given, ExpectedRoute, now).items, At(given, AbortConditions, now).items,
          At(given, Fallback, now).s, At(given, TraceId, now).s))
  }

  function FromDict(data: Arguments, now: real): Result<Plan> {
    if !(data.Keys <= FIELDS) || !(REQUIRED <= data.Keys) then Err(Invalid) else Construct(data, now)
  }

  function ToDict(plan: Plan): Arguments {
    map[
      Version := Int(1),
      IssuedAt := Float(plan.issuedAt),
      ExpiresAt := Float(plan.expiresAt),
      Phase := Str(plan.phase),
      PhaseKind := Str(KindName(plan.phaseKind)),
      Intent := Str(plan.intent),
      NextStep := Str(plan.nextStep),
      Deviation := if plan.deviation.Some? then Str(plan.deviation.value) else Null,
      Constraints := List(plan.constraints),
      ExpectedRoute := List(plan.expectedRoute),
      AbortConditions := List(plan.abortConditions),
      Fallback := Str(plan.fallback),
      TraceId := Str(plan.traceId)]
  }

  // ----- what the two promise each other -----

  /** What holds of every accepted plan. */
  predicate Accepted(plan: Plan) {
    && (plan.expiresAt <= 0.0 ==> plan.expiresAt == plan.issuedAt + PhaseExpiry(plan.phaseKind))
    && !Blank(plan.phase) && !Blank(plan.intent) && !Blank(plan.nextStep)
    && !Blank(plan.fallback) && !Blank(plan.traceId)
    && IsStringList(List(plan.constraints)) && IsDictList(List(plan.expectedRoute))
    && IsDictList(List(plan.abortConditions))
  }

  lemma ConstructedIsAccepted(given: Arguments, now: real)
    requires Construct(given, now).Ok?
    ensures Accepted(Construct(given, now).value)
  {
  }

  /** No expiry is given: there is none, or a number that is not positive, or `false`. */
  predicate Unset(data: Arguments) {
    ExpiresAt in data ==>
      match data[ExpiresAt]
      case Int(n) => n <= 0
      case Float(x) => x <= 0.0
      case Bool(b) => !b
      case _ => false
  }

  predicate GivesNumber(data: Arguments, field: Field) {
    field in data && (data[field].Int? || data[field].Float?)
  }

  predicate GivesText(data: Arguments, field: Field) {
    field in data && data[field].Str? && exists i :: 0 <= i < |data[field].s| && !IsSpace(data[field].s[i])
  }

  predicate GivesStrings(data: Arguments, field: Field) {
    field in data && data[field].List? && forall a :: a in data[field].items ==> a.Str?
  }

  predicate GivesObjects(data: Arguments, field: Field) {
    field in data && data[field].List? && forall a :: a in data[field].items ==> a.Dict?
  }

  /** A dictionary is a plan exactly if it has the required fields and no unknown ones, version 1, numbers for
      times, one of the kinds, texts that are not blank, a list of strings and two lists of objects. */
  lemma AcceptsExactly(data: Arguments, now: real)
    ensures FromDict(data, now).Ok? <==>
            && (forall field :: field in data ==> field in FIELDS)
            && (forall field :: field in REQUIRED ==> field in data)
            && data[Version] == Int(1)
            && (IssuedAt in data ==> GivesNumber(data, IssuedAt))
            && (Unset(data) || GivesNumber(data, ExpiresAt))
            && data[PhaseKind].Str?
            && data[PhaseKind].s in {"long_walk", "route", "travel", "boss", "dialog", "merchant", "combat"}
            && GivesText(data, Phase) && GivesText(data, Intent) && GivesText(data, NextStep)
            && GivesText(data, Fallback) && GivesText(data, TraceId)
            && (Deviation in data ==> data[Deviation].Null? || data[Deviation].Str?)
            && GivesStrings(data, Constraints)
            && GivesObjects(data, ExpectedRoute) && GivesObjects(data, AbortConditions)
  {
    if REQUIRED <= data.Keys && data[PhaseKind].Str? {
      KnownKinds(data[PhaseKind].s);
    }
  }

  lemma KnownKinds(name: string)
    ensures KindOf(name).Some? <==>
            name in {"long_walk", "route", "travel", "boss", "dialog", "merchant", "combat"}
    ensures KindOf(name).Some? ==> !Blank(name)
  {
    if KindOf(name).Some? {
      NameOfKind(name);
      KindOfName(KindOf(name).value);
    }
  }

  /** A dictionary with the right fields and a number for its issue escapes validation by a type error exactly
      where an expiry that is not set meets a kind that cannot be looked up, or an expiry that is set cannot be
      compared. */
  lemma EscapesExactly(data: Arguments, now: real)
    ensures FromDict(data, now) == Err(TypeFault) <==>
            && (forall field :: field in data ==> field in FIELDS)
            && (forall field :: field in REQUIRED ==> field in data)
            && (IssuedAt in data ==> GivesNumber(data, IssuedAt))
            && (if Unset(data) then data[PhaseKind].List? || data[PhaseKind].Dict?
                else !GivesNumber(data, ExpiresAt) && !data[ExpiresAt].Bool?)
  {
  }

  lemma DictTexts(plan: Plan, now: real)
    ensures var d := ToDict(plan);
            && At(d, Phase, now) == Str(plan.phase) && At(d, PhaseKind, now) == Str(KindName(plan.phaseKind))
            && At(d, Intent, now) == Str(plan.intent) && At(d, NextStep, now) == Str(plan.nextStep)
            && At(d, Fallback, now) == Str(plan.fallback) && At(d, TraceId, now) == Str(plan.traceId)
  {
  }

  lemma DictOthers(plan: Plan, now: real)
    ensures var d := ToDict(plan);
            && At(d, Version, now) == Int(1)
            && At(d, IssuedAt, now) == Float(plan.issuedAt) && At(d, ExpiresAt, now) == Float(plan.expiresAt)
            && At(d, Deviation, now) == (if plan.deviation.Some? then Str(plan.deviation.value) else Null)
            && At(d, Constraints, now) == List(plan.constraints)
            && At(d, ExpectedRoute, now) == List(plan.expectedRoute)
            && At(d, AbortConditions, now) == List(plan.abortConditions)
            && d.Keys == FIELDS
  {
  }

  lemma DictIsWellTyped(plan: Plan, now: real)
    requires Accepted(plan)
    ensures WellTyped(ToDict(plan), now)
  {
    KindOfName(plan.phaseKind);
    DictTexts(plan, now);
    DictOthers(plan, now);
  }

  lemma DictExpires(plan: Plan)
    requires Accepted(plan)
    ensures Expiry(Float(plan.expiresAt), plan.issuedAt, Str(KindName(plan.phaseKind))) == Ok(plan.expiresAt)
  {
    KindOfName(plan.phaseKind);
  }

  lemma DictOfAccepted(plan: Plan, now: real)
    requires Accepted(plan)
    ensures FromDict(ToDict(plan), now) == Ok(plan)
  {
    DictIsWellTyped(plan, now);
    DictExpires(plan);
    KindOfName(plan.phaseKind);
    DictTexts(plan, now);
    DictOthers(plan, now);
  }

  /** Every plan that was ever accepted comes back from its dictionary unchanged, at any later time. */
  lemma RoundTrip(given: Arguments, now: real, later: real)
    requires Construct(given, now).Ok?
    ensures FromDict(ToDict(Construct(given, now).value), later) == Construct(given, now)
  {
    ConstructedIsAccepted(given, now);
    DictOfAccepted(Construct(given, now).value, later);
  }

  /** Equality of the two languages: an integer equals the same number as a float. */
  predicate Same(a: Argument, b: Argument) {
    a == b || (AsNumber(a).Some? && AsNumber(a) == AsNumber(b))
  }

  /** The dictionary of an accepted plan says what the planner said, field by field; only an expiry that
      was not positive is replaced, by the end of the phase kind's time. */
  lemma NothingIsRewritten(data: Arguments, now: real, field: Field)
    requires FromDict(data, now).Ok?
    ensures var plan := FromDict(data, now).value; var out := ToDict(plan);
            && (field in data ==> field in out)
            && (field in data && field != ExpiresAt ==> Same(out[field], data[field]))
            && (ExpiresAt in data && AsNumber(data[ExpiresAt]).Some? && AsNumber(data[ExpiresAt]).value > 0.0 ==>
                  Same(out[ExpiresAt], data[ExpiresAt]))
            && (ExpiresAt !in data ==>
                  plan.expiresAt == plan.issuedAt
                                    + if plan.phaseKind in {LongWalk, RouteKind, Travel} then 60.0 else 10.0)
  {
    NameOfKind(At(data, PhaseKind, now).s);
  }
}
