/** Correlating action results with the requests that wait for them. Registering, delivering,
    forgetting and finishing a wait are atomic steps that may come in any order. */
module ActionResults {
  import opened Options

  /** A request id; empty ids are refused. */
  datatype Id = NoId | Id(name: string)

  datatype Msg = Msg(isActionResult: bool, id: Id, body: string)

  datatype FutureState = Waiting | Done(msg: Msg) | MissingRequestId | Cancelled

  /** A future and the request it was registered for. */
  datatype Future = Future(owner: Id, state: FutureState)

  /** Futures are named by the order of their creation. The backlog keeps the insertion order of a
      dictionary. */
  datatype State = State(pending: map<Id, nat>, futures: seq<Future>, backlog: seq<Msg>)

  const BACKLOG_LIMIT := 100
  const BACKLOG_EVICTED := 50

  const INIT := State(map[], [], [])

  // ----- the steps -----

  /** The position of an id in the backlog, or its length. */
  function Find(backlog: seq<Msg>, id: Id, from: nat := 0): (i: nat)
    requires from <= |backlog|
    ensures from <= i <= |backlog|
    ensures i < |backlog| ==> backlog[i].id == id
    ensures forall j :: from <= j < i ==> backlog[j].id != id
    decreases |backlog| - from
  {
    if from == |backlog| || backlog[from].id == id then from else Find(backlog, id, from + 1)
  }

  predicate Filed(backlog: seq<Msg>, id: Id) {
    Find(backlog, id) < |backlog|
  }

  /** Assigning a dictionary entry: an old key keeps its place, a new one comes last. */
  function Put(backlog: seq<Msg>, msg: Msg): seq<Msg> {
    var i := Find(backlog, msg.id);
    if i < |backlog| then backlog[i := msg] else backlog + [msg]
  }

  function Evict(backlog: seq<Msg>): seq<Msg> {
    if |backlog| > BACKLOG_LIMIT then backlog[BACKLOG_EVICTED..] else backlog
  }

  function Remove(backlog: seq<Msg>, i: nat): seq<Msg>
    requires i < |backlog|
  {
    backlog[..i] + backlog[i + 1..]
  }

  function Cancel(f: Future): Future {
    if f.state.Waiting? then f.(state := Cancelled) else f
  }

  datatype Step =
    | Expecting(id: Id)
    | Delivering(msg: Msg)
    | Forgetting(id: Id, future: Option<nat>)
    | Finishing(id: Id, waiter: nat)
    | Disconnecting

  function Expect(st: State, id: Id): State {
    if id == NoId then st.(futures := st.futures + [Future(id, MissingRequestId)])
    else
      var i := Find(st.backlog, id);
      if i < |st.backlog| then
        st.(futures := st.futures + [Future(id, Done(st.backlog[i]))], backlog := Remove(st.backlog, i))
      else
        st.(pending := st.pending[id := |st.futures|], futures := st.futures + [Future(id, Waiting)])
  }

  function Deliver(st: State, msg: Msg): State {
    if !msg.isActionResult || msg.id == NoId then st
    else if && msg.id in st.pending && st.pending[msg.id] < |st.futures|
            && st.futures[st.pending[msg.id]].state.Waiting? then
      var h := st.pending[msg.id];
      st.(futures := st.futures[h := st.futures[h].(state := Done(msg))])
    else st.(backlog := Evict(Put(st.backlog, msg)))
  }

  /** Forgetting cancels whatever waits for the id, also when it is another future than the one given;
      only the entry is left alone then. */
  function Forget(st: State, id: Id, future: Option<nat>): State {
    var owns := future.None? || (id in st.pending && st.pending[id] == future.value);
    var pending := if owns then st.pending - {id} else st.pending;
    if id in st.pending && st.pending[id] < |st.futures| then
      var h := st.pending[id];
      State(pending, st.futures[h := Cancel(st.futures[h])], st.backlog)
    else st.(pending := pending)
  }

  /** The cleanup of a wait for `id`, whichever way it ended. */
  function Finish(st: State, id: Id, future: nat): State
    requires future < |st.futures|
  {
    if id in st.pending && st.pending[id] == future then
      State(st.pending - {id}, st.futures[future := Cancel(st.futures[future])], st.backlog)
    else st
  }

  function CancelAll(fs: seq<Future>, pending: map<Id, nat>): (r: seq<Future>)
    ensures |r| == |fs|
    ensures forall h :: 0 <= h < |fs| ==>
              r[h] == if fs[h].owner in pending && pending[fs[h].owner] == h then Cancel(fs[h]) else fs[h]
  {
    seq(|fs|, h requires 0 <= h < |fs| =>
      if fs[h].owner in pending && pending[fs[h].owner] == h then Cancel(fs[h]) else fs[h])
  }

  /** Disconnecting cancels all that wait; the backlog stays. */
  function Disconnect(st: State): State {
    State(map[], CancelAll(st.futures, st.pending), st.backlog)
  }

  predicate Enabled(st: State, step: Step) {
    step.Finishing? ==> step.waiter < |st.futures|
  }

  function Apply(st: State, step: Step): State
    requires Enabled(st, step)
  {
    match step
    case Expecting(id) => Expect(st, id)
    case Delivering(msg) => Deliver(st, msg)
    case Forgetting(id, future) => Forget(st, id, future)
    case Finishing(id, future) => Finish(st, id, future)
    case Disconnecting => Disconnect(st)
  }

  // ----- invariants of every run -----

  ghost predicate Unique(backlog: seq<Msg>) {
    && (forall i :: 0 <= i < |backlog| ==> backlog[i].id != NoId)
    && (forall i, j :: 0 <= i < j < |backlog| ==> backlog[i].id != backlog[j].id)
  }

  ghost predicate Inv(st: State) {
    && (forall id :: id in st.pending ==> st.pending[id] < |st.futures| && st.futures[st.pending[id]].owner == id)
    && Unique(st.backlog)
    && |st.backlog| <= BACKLOG_LIMIT
    && (forall id :: id in st.pending && st.futures[st.pending[id]].state.Waiting? ==> !Filed(st.backlog, id))
  }

  lemma FiledMeaning(backlog: seq<Msg>, id: Id)
    ensures Filed(backlog, id) <==> exists i :: 0 <= i < |backlog| && backlog[i].id == id
  {
  }

  lemma PutUnique(backlog: seq<Msg>, msg: Msg)
    requires Unique(backlog) && msg.id != NoId
    ensures Unique(Put(backlog, msg)) && |backlog| <= |Put(backlog, msg)| <= |backlog| + 1
  {
  }

  lemma PutFiles(backlog: seq<Msg>, msg: Msg, id: Id)
    ensures Filed(Put(backlog, msg), id) <==> id == msg.id || Filed(backlog, id)
  {
    var put, i := Put(backlog, msg), Find(backlog, msg.id);
    FiledMeaning(put, id);
    FiledMeaning(backlog, id);
    assert put[i] == msg;
    assert forall k :: 0 <= k < |backlog| && k != i ==> put[k] == backlog[k];
  }

  lemma EvictKeeps(backlog: seq<Msg>, id: Id)
    requires Unique(backlog) && |backlog| <= BACKLOG_LIMIT + 1
    ensures Unique(Evict(backlog)) && |Evict(backlog)| <= BACKLOG_LIMIT
    ensures Filed(Evict(backlog), id) ==> Filed(backlog, id)
  {
    var out := Evict(backlog);
    FiledMeaning(out, id);
    FiledMeaning(backlog, id);
    if |backlog| > BACKLOG_LIMIT {
      assert forall i :: 0 <= i < |out| ==> out[i] == backlog[i + BACKLOG_EVICTED];
    }
  }

  /** What was just put is never evicted. */
  lemma JustPutStays(backlog: seq<Msg>, msg: Msg)
    requires |backlog| <= BACKLOG_LIMIT
    ensures Filed(Evict(Put(backlog, msg)), msg.id)
  {
    var put, out := Put(backlog, msg), Evict(Put(backlog, msg));
    FiledMeaning(out, msg.id);
    if |put| > BACKLOG_LIMIT {
      assert out[|out| - 1] == msg;
    } else {
      assert put[Find(backlog, msg.id)] == msg;
    }
  }

  lemma PutKeeps(backlog: seq<Msg>, msg: Msg, id: Id)
    requires Unique(backlog) && msg.id != NoId && |backlog| <= BACKLOG_LIMIT
    ensures Unique(Evict(Put(backlog, msg))) && |Evict(Put(backlog, msg))| <= BACKLOG_LIMIT
    ensures Filed(Evict(Put(backlog, msg)), id) ==> id == msg.id || Filed(backlog, id)
    ensures Filed(Evict(Put(backlog, msg)), msg.id)
  {
    PutUnique(backlog, msg);
    PutFiles(backlog, msg, id);
    EvictKeeps(Put(backlog, msg), id);
    JustPutStays(backlog, msg);
  }

  lemma RemoveAt(backlog: seq<Msg>, i: nat, j: nat)
    requires i < |backlog| && j < |backlog| - 1
    ensures Remove(backlog, i)[j] == backlog[if j < i then j else j + 1]
  {
  }

  lemma RemoveKeeps(backlog: seq<Msg>, i: nat)
    requires Unique(backlog) && i < |backlog|
    ensures Unique(Remove(backlog, i))
  {
    var out := Remove(backlog, i);
    forall j, k | 0 <= j < k < |out| ensures out[j].id != out[k].id {
      RemoveAt(backlog, i, j);
      RemoveAt(backlog, i, k);
    }
    forall j | 0 <= j < |out| ensures out[j].id != NoId {
      RemoveAt(backlog, i, j);
    }
  }

  lemma RemoveFilesNothing(backlog: seq<Msg>, i: nat, id: Id)
    requires Unique(backlog) && i < |backlog| && Filed(Remove(backlog, i), id)
    ensures Filed(backlog, id) && id != backlog[i].id
  {
    var j := Find(Remove(backlog, i), id);
    RemoveAt(backlog, i, j);
    FiledMeaning(backlog, id);
  }

  lemma DeliverKeepsInv(st: State, msg: Msg)
    requires Inv(st)
    ensures Inv(Deliver(st, msg))
  {
    var st' := Deliver(st, msg);
    if st'.backlog != st.backlog {
      forall id | id in st.pending && st.futures[st.pending[id]].state.Waiting? ensures !Filed(st'.backlog, id) {
        PutKeeps(st.backlog, msg, id);
      }
      PutKeeps(st.backlog, msg, msg.id);
    }
  }

  lemma ExpectKeepsInv(st: State, id: Id)
    requires Inv(st)
    ensures Inv(Expect(st, id))
  {
    if id != NoId && Filed(st.backlog, id) {
      var i := Find(st.backlog, id);
      forall other | Filed(Remove(st.backlog, i), other) ensures Filed(st.backlog, other) {
        RemoveFilesNothing(st.backlog, i, other);
      }
      RemoveKeeps(st.backlog, i);
    }
  }

  lemma ForgetKeepsInv(st: State, id: Id, future: Option<nat>)
    requires Inv(st)
    ensures Inv(Forget(st, id, future))
  {
  }

  lemma FinishKeepsInv(st: State, id: Id, future: nat)
    requires Inv(st) && future < |st.futures|
    ensures Inv(Finish(st, id, future))
  {
  }

  /** No id is in the backlog while an undone future is pending for it, and the backlog is bounded,
      after every step in any order. */
  lemma ApplyKeepsInv(st: State, step: Step)
    requires Inv(st) && Enabled(st, step)
    ensures Inv(Apply(st, step))
  {
    match step {
      case Expecting(id) => ExpectKeepsInv(st, id);
      case Delivering(msg) => DeliverKeepsInv(st, msg);
      case Forgetting(id, future) => ForgetKeepsInv(st, id, future);
      case Finishing(id, future) => FinishKeepsInv(st, id, future);
      case Disconnecting =>
    }
  }

  /** A wait that is over leaves no entry for its future, under any id, exactly if it was for the id that the
      future was registered for, or there was none before. */
  lemma FinishLeavesNoEntry(st: State, id: Id, future: nat)
    requires Inv(st) && future < |st.futures|
    ensures future !in Finish(st, id, future).pending.Values <==>
            id == st.futures[future].owner || future !in st.pending.Values
    ensures id == st.futures[future].owner && future in st.pending.Values ==>
              !Finish(st, id, future).futures[future].state.Waiting?
  {
    var pending := Finish(st, id, future).pending;
    var owner := st.futures[future].owner;
    forall other | other in st.pending && st.pending[other] == future ensures other == owner {
      assert st.futures[st.pending[other]].owner == other;
    }
    if future in st.pending.Values {
      var other :| other in st.pending && st.pending[other] == future;
      if id != owner {
        assert pending == st.pending;
      }
    }
  }

  // ----- whole runs -----

  ghost predicate CanRun(st: State, steps: seq<Step>)
    decreases |steps|
  {
    steps == [] || (Enabled(st, steps[0]) && CanRun(Apply(st, steps[0]), steps[1..]))
  }

  function Run(st: State, steps: seq<Step>): State
    requires CanRun(st, steps)
    decreases |steps|
  {
    if steps == [] then st else Run(Apply(st, steps[0]), steps[1..])
  }

  lemma {:induction false} RunKeepsInv(st: State, steps: seq<Step>)
    requires Inv(st) && CanRun(st, steps)
    ensures Inv(Run(st, steps))
    decreases |steps|
  {
    if steps != [] {
      ApplyKeepsInv(st, steps[0]);
      RunKeepsInv(Apply(st, steps[0]), steps[1..]);
    }
  }

  /** The step concerns the request `id`. */
  predicate Touches(step: Step, id: Id, future: nat) {
    match step
    case Expecting(i) => i == id
    case Delivering(msg) => msg.isActionResult && msg.id == id
    case Forgetting(i, _) => i == id
    case Finishing(i, f) => i == id && f == future
    case Disconnecting => true
  }

  ghost predicate LeavesAlone(steps: seq<Step>, id: Id, future: nat) {
    forall i :: 0 <= i < |steps| ==> !Touches(steps[i], id, future)
  }

  /** `future` is waiting and registered for `id`. */
  ghost predicate Registered(st: State, id: Id, future: nat) {
    Inv(st) && id in st.pending && st.pending[id] == future && st.futures[future].state.Waiting?
  }

  lemma StepKeepsRegistered(st: State, step: Step, id: Id, future: nat)
    requires Registered(st, id, future) && Enabled(st, step) && !Touches(step, id, future)
    ensures Registered(Apply(st, step), id, future)
  {
    ApplyKeepsInv(st, step);
  }

  lemma {:induction false} RunKeepsRegistered(st: State, steps: seq<Step>, id: Id, future: nat)
    requires Registered(st, id, future) && CanRun(st, steps) && LeavesAlone(steps, id, future)
    ensures Registered(Run(st, steps), id, future)
    decreases |steps|
  {
    if steps != [] {
      assert !Touches(steps[0], id, future);
      StepKeepsRegistered(st, steps[0], id, future);
      RunKeepsRegistered(Apply(st, steps[0]), steps[1..], id, future);
    }
  }

  /** Register first, then deliver: the waiter gets the message, whatever happens in between to
      other requests. */
  lemma ExpectThenDeliver(st: State, id: Id, between: seq<Step>, msg: Msg)
    requires Inv(st) && id != NoId && !Filed(st.backlog, id)
    requires msg.isActionResult && msg.id == id
    requires CanRun(Expect(st, id), between) && LeavesAlone(between, id, |st.futures|)
    ensures var last := Deliver(Run(Expect(st, id), between), msg);
            |st.futures| < |last.futures| && last.futures[|st.futures|].state == Done(msg) && !Filed(last.backlog, id)
  {
    ApplyKeepsInv(st, Expecting(id));
    RunKeepsRegistered(Expect(st, id), between, id, |st.futures|);
  }

  /** Forgetting drops the entry of an id exactly if no future is named or the named one is its own; what waits
      for the id is cancelled in any case. */
  lemma ForgetExactly(st: State, id: Id, future: Option<nat>)
    requires Inv(st)
    ensures var after := Forget(st, id, future);
            && (id in after.pending <==> id in st.pending && future.Some? && st.pending[id] != future.value)
            && (forall other :: other != id ==> (other in after.pending <==> other in st.pending))
            && (forall other :: other in after.pending ==>
                  other in st.pending && after.pending[other] == st.pending[other])
            && (id in st.pending ==> !after.futures[st.pending[id]].state.Waiting?)
            && after.backlog == st.backlog
  {
  }

  /** An empty id is refused at once, and nothing waits for it. */
  lemma EmptyIdIsRefused(st: State)
    ensures var after := Expect(st, NoId);
            && after.pending == st.pending && after.backlog == st.backlog
            && after.futures == st.futures + [Future(NoId, MissingRequestId)]
  {
  }

  lemma StepKeepsSettled(st: State, step: Step, h: nat)
    requires Enabled(st, step) && h < |st.futures| && !st.futures[h].state.Waiting?
    ensures h < |Apply(st, step).futures| && Apply(st, step).futures[h] == st.futures[h]
  {
  }

  /** Over every run: a future that is settled, by a result, a refusal or a cancellation, stays as it is. */
  lemma {:induction false} SettledIsFinal(st: State, steps: seq<Step>, h: nat)
    requires CanRun(st, steps) && h < |st.futures| && !st.futures[h].state.Waiting?
    ensures h < |Run(st, steps).futures| && Run(st, steps).futures[h] == st.futures[h]
    decreases |steps|
  {
    if steps != [] {
      StepKeepsSettled(st, steps[0], h);
      SettledIsFinal(Apply(st, steps[0]), steps[1..], h);
    }
  }

  /** The waiter's own future is forgotten: its entry is gone, it is cancelled, and no other future changes.
      A result that comes after it, whatever happens to other requests in between, is filed. */
  lemma ForgottenResultIsFiled(st: State, id: Id, future: nat, between: seq<Step>, msg: Msg)
    requires Registered(st, id, future) && id != NoId && msg.isActionResult && msg.id == id
    requires CanRun(Forget(st, id, Some(future)), between)
    requires forall i :: 0 <= i < |between| ==> !(between[i].Expecting? && between[i].id == id)
    ensures var forgotten := Forget(st, id, Some(future));
            && id !in forgotten.pending && |forgotten.futures| == |st.futures| && forgotten.backlog == st.backlog
            && forgotten.futures[future].state.Cancelled?
            && (forall h :: 0 <= h < |st.futures| && h != future ==> forgotten.futures[h] == st.futures[h])
            && var last := Run(forgotten, between);
            && Filed(Deliver(last, msg).backlog, id) && Deliver(last, msg).futures == last.futures
  {
    var forgotten := Forget(st, id, Some(future));
    ApplyKeepsInv(st, Forgetting(id, Some(future)));
    RunKeepsInv(forgotten, between);
    StaysForgotten(forgotten, between, id);
    JustPutStays(Run(forgotten, between).backlog, msg);
  }

  lemma {:induction false} StaysForgotten(st: State, steps: seq<Step>, id: Id)
    requires CanRun(st, steps) && id !in st.pending
    requires forall i :: 0 <= i < |steps| ==> !(steps[i].Expecting? && steps[i].id == id)
    ensures id !in Run(st, steps).pending
    decreases |steps|
  {
    if steps != [] {
      StaysForgotten(Apply(st, steps[0]), steps[1..], id);
    }
  }

  function Deliveries(steps: seq<Step>): nat {
    if steps == [] then 0 else (if steps[0].Delivering? then 1 else 0) + Deliveries(steps[1..])
  }

  /** `msg` is in the backlog with at most `n` newer entries. */
  ghost predicate Kept(st: State, msg: Msg, n: int) {
    Inv(st) && exists i :: 0 <= i < |st.backlog| && st.backlog[i] == msg && |st.backlog| - 1 - i <= n
  }

  /** The step neither takes nor replaces the filed result of `id`. */
  predicate TakesResult(step: Step, id: Id) {
    match step
    case Expecting(i) => i == id
    case Delivering(msg) => msg.isActionResult && msg.id == id
    case _ => false
  }

  /** Delivering another result pushes an entry back by at most one place, and evicts it only when 50
      newer ones stand behind it. */
  lemma PutKeepsEntry(backlog: seq<Msg>, i: nat, m: Msg)
    requires i < |backlog| <= BACKLOG_LIMIT && backlog[i].id != m.id && |backlog| - 1 - i < BACKLOG_EVICTED
    ensures var out := Evict(Put(backlog, m));
            exists j :: 0 <= j < |out| && out[j] == backlog[i] && |out| - 1 - j <= |backlog| - i
  {
    var put, out := Put(backlog, m), Evict(Put(backlog, m));
    assert put[i] == backlog[i];
    assert out[if |put| > BACKLOG_LIMIT then i - BACKLOG_EVICTED else i] == backlog[i];
  }

  lemma StepKeepsFiled(st: State, step: Step, msg: Msg, n: nat)
    requires Kept(st, msg, n) && Enabled(st, step) && !TakesResult(step, msg.id)
    requires n + (if step.Delivering? then 1 else 0) <= BACKLOG_EVICTED
    ensures Kept(Apply(st, step), msg, n + if step.Delivering? then 1 else 0)
  {
    ApplyKeepsInv(st, step);
    var i :| 0 <= i < |st.backlog| && st.backlog[i] == msg && |st.backlog| - 1 - i <= n;
    if step.Delivering? && Apply(st, step).backlog != st.backlog {
      PutKeepsEntry(st.backlog, i, step.msg);
    }
    if step.Expecting? && step.id != NoId && Filed(st.backlog, step.id) {
      RemoveKeepsEntry(st.backlog, Find(st.backlog, step.id), i);
    }
  }

  lemma RemoveKeepsEntry(backlog: seq<Msg>, k: nat, i: nat)
    requires k < |backlog| && i < |backlog| && i != k
    ensures var out := Remove(backlog, k);
            exists j :: 0 <= j < |out| && out[j] == backlog[i] && |out| - 1 - j <= |backlog| - 1 - i
  {
    RemoveAt(backlog, k, if i < k then i else i - 1);
  }

  ghost predicate LeavesResult(steps: seq<Step>, id: Id) {
    forall i :: 0 <= i < |steps| ==> !TakesResult(steps[i], id)
  }

  lemma {:induction false} RunKeepsFiled(st: State, steps: seq<Step>, msg: Msg, n: nat)
    requires Kept(st, msg, n) && CanRun(st, steps) && LeavesResult(steps, msg.id)
    requires n + Deliveries(steps) <= BACKLOG_EVICTED
    ensures Kept(Run(st, steps), msg, BACKLOG_EVICTED)
    decreases |steps|
  {
    if steps != [] {
      assert !TakesResult(steps[0], msg.id);
      StepKeepsFiled(st, steps[0], msg, n);
      RunKeepsFiled(Apply(st, steps[0]), steps[1..], msg, n + if steps[0].Delivering? then 1 else 0);
    }
  }

  /** Deliver first, then register: the waiter gets the same message, after any other steps with at
      most 50 deliveries among them; so the order of the two does not matter. */
  lemma DeliverThenExpect(st: State, id: Id, between: seq<Step>, msg: Msg)
    requires Inv(st) && id != NoId && !Filed(st.backlog, id) && id !in st.pending
    requires msg.isActionResult && msg.id == id
    requires CanRun(Deliver(st, msg), between) && LeavesResult(between, id)
    requires Deliveries(between) <= BACKLOG_EVICTED
    ensures var mid := Run(Deliver(st, msg), between);
            Expect(mid, id).futures[|mid.futures|].state == Done(msg)
  {
    var st1 := Deliver(st, msg);
    ApplyKeepsInv(st, Delivering(msg));
    var put := Put(st.backlog, msg);
    assert put == st.backlog + [msg];
    assert st1.backlog[|st1.backlog| - 1] == msg;
    RunKeepsFiled(st1, between, msg, 0);
    var mid := Run(st1, between);
    var i :| 0 <= i < |mid.backlog| && mid.backlog[i] == msg;
    assert Find(mid.backlog, id) == i;
  }

  // ----- each message has one receiver -----

  /** Everything received so far went to one place: no message is held by two futures, or by a future
      and the backlog. */
  ghost predicate Exclusive(st: State, seen: set<Msg>) {
    && (forall h :: 0 <= h < |st.futures| && st.futures[h].state.Done? ==>
          st.futures[h].state.msg in seen && st.futures[h].state.msg.id == st.futures[h].owner)
    && (forall h, k :: 0 <= h < k < |st.futures| && st.futures[h].state.Done? && st.futures[k].state.Done? ==>
          st.futures[h].state.msg != st.futures[k].state.msg)
    && (forall i :: 0 <= i < |st.backlog| ==> st.backlog[i] in seen)
    && (forall h, i :: 0 <= h < |st.futures| && st.futures[h].state.Done? && 0 <= i < |st.backlog| ==>
          st.futures[h].state.msg != st.backlog[i])
  }

  function SeenAfter(seen: set<Msg>, step: Step): set<Msg> {
    if step.Delivering? then seen + {step.msg} else seen
  }

  lemma BacklogMembers(backlog: seq<Msg>, msg: Msg)
    ensures forall i :: 0 <= i < |Evict(Put(backlog, msg))| ==>
              Evict(Put(backlog, msg))[i] == msg || Evict(Put(backlog, msg))[i] in backlog
  {
    var put, out := Put(backlog, msg), Evict(Put(backlog, msg));
    assert |put| > BACKLOG_LIMIT ==> forall i :: 0 <= i < |out| ==> out[i] == put[i + BACKLOG_EVICTED];
  }

  lemma DeliverKeepsExclusive(st: State, seen: set<Msg>, msg: Msg)
    requires Inv(st) && Exclusive(st, seen) && msg !in seen
    ensures Exclusive(Deliver(st, msg), seen + {msg})
  {
    BacklogMembers(st.backlog, msg);
  }

  lemma ExpectKeepsExclusive(st: State, seen: set<Msg>, id: Id)
    requires Inv(st) && Exclusive(st, seen)
    ensures Exclusive(Expect(st, id), seen)
  {
    var k := Find(st.backlog, id);
    if id != NoId && k < |st.backlog| {
      var out := Remove(st.backlog, k);
      forall i | 0 <= i < |out| ensures out[i] in st.backlog && out[i] != st.backlog[k] {
        RemoveAt(st.backlog, k, i);
      }
    }
  }

  /** With messages that are told apart, every step keeps one receiver per message, and a waiter only
      ever gets a message with its own id. */
  lemma ApplyKeepsExclusive(st: State, seen: set<Msg>, step: Step)
    requires Inv(st) && Exclusive(st, seen) && Enabled(st, step)
    requires step.Delivering? ==> step.msg !in seen
    ensures Exclusive(Apply(st, step), SeenAfter(seen, step))
  {
    match step {
      case Delivering(msg) => DeliverKeepsExclusive(st, seen, msg);
      case Expecting(id) => ExpectKeepsExclusive(st, seen, id);
      case Forgetting(id, future) => CancellingKeepsExclusive(st, Forget(st, id, future), seen);
      case Finishing(id, future) => CancellingKeepsExclusive(st, Finish(st, id, future), seen);
      case Disconnecting => CancellingKeepsExclusive(st, Disconnect(st), seen);
    }
  }

  /** A step that only cancels futures hands nothing out. */
  lemma CancellingKeepsExclusive(st: State, st': State, seen: set<Msg>)
    requires Exclusive(st, seen) && st'.backlog == st.backlog && |st'.futures| == |st.futures|
    requires forall h :: 0 <= h < |st.futures| ==> st'.futures[h] in {st.futures[h], Cancel(st.futures[h])}
    ensures Exclusive(st', seen)
  {
  }

  ghost predicate HeldByFuture(st: State, msg: Msg) {
    exists h :: 0 <= h < |st.futures| && st.futures[h].state == Done(msg)
  }

  ghost predicate HeldByBacklog(st: State, msg: Msg) {
    exists i :: 0 <= i < |st.backlog| && st.backlog[i] == msg
  }

  /** A delivered result is given to one waiter or filed, never both and never neither. */
  lemma DeliverHasOneReceiver(st: State, seen: set<Msg>, msg: Msg)
    requires Inv(st) && Exclusive(st, seen) && msg !in seen && msg.isActionResult && msg.id != NoId
    ensures HeldByFuture(Deliver(st, msg), msg) <==> !HeldByBacklog(Deliver(st, msg), msg)
  {
    var st' := Deliver(st, msg);
    if st'.backlog == st.backlog && st'.futures != st.futures {
      assert st'.futures[st.pending[msg.id]].state == Done(msg);
    } else {
      PutKeeps(st.backlog, msg, msg.id);
      var put := Put(st.backlog, msg);
      var i := Find(st.backlog, msg.id);
      assert put[i] == msg;
      if |put| > BACKLOG_LIMIT {
        assert st'.backlog[i - BACKLOG_EVICTED] == msg;
      }
    }
  }

  /** No message is delivered twice in a run. */
  ghost predicate FreshDeliveries(steps: seq<Step>, seen: set<Msg>)
    decreases |steps|
  {
    steps == [] ||
    ((steps[0].Delivering? ==> steps[0].msg !in seen) && FreshDeliveries(steps[1..], SeenAfter(seen, steps[0])))
  }

  lemma {:induction false} RunKeepsExclusive(st: State, seen: set<Msg>, steps: seq<Step>) returns (all: set<Msg>)
    requires Inv(st) && Exclusive(st, seen) && CanRun(st, steps) && FreshDeliveries(steps, seen)
    ensures Inv(Run(st, steps)) && Exclusive(Run(st, steps), all)
    decreases |steps|
  {
    all := seen;
    if steps != [] {
      ApplyKeepsInv(st, steps[0]);
      ApplyKeepsExclusive(st, seen, steps[0]);
      all := RunKeepsExclusive(Apply(st, steps[0]), SeenAfter(seen, steps[0]), steps[1..]);
    }
  }

  // ----- the client's table -----

  class ResultTable {
    var pending: map<Id, nat>
    var futures: seq<Future>
    var backlog: seq<Msg>

    ghost function Value(): State
      reads this
    {
      State(pending, futures, backlog)
    }

    constructor ()
      ensures Value() == INIT && Inv(Value())
    {
      pending, futures, backlog := map[], [], [];
    }

    method ExpectActionResult(id: Id) returns (future: nat)
      modifies this
      ensures Value() == Apply(old(Value()), Expecting(id))
      ensures future == |old(futures)|
    {
      future := |futures|;
      if id == NoId {
        futures := futures + [Future(id, MissingRequestId)];
        return;
      }
      var i := Find(backlog, id);
      if i < |backlog| {
        futures := futures + [Future(id, Done(backlog[i]))];
        backlog := backlog[..i] + backlog[i + 1..];
        return;
      }
      futures := futures + [Future(id, Waiting)];
      pending := pending[id := future];
    }

    method ForgetActionResult(id: Id, future: Option<nat>)
      requires Inv(Value())
      modifies this
      ensures Value() == Apply(old(Value()), Forgetting(id, future)) && Inv(Value())
    {
      ApplyKeepsInv(Value(), Forgetting(id, future));
      var current := if id in pending then Some(pending[id]) else None;
      if future.None? || current == future {
        pending := pending - {id};
      }
      if current.Some? && futures[current.value].state.Waiting? {
        var h := current.value;
        futures := futures[h := futures[h].(state := Cancelled)];
      }
    }

    /** The cleanup of a wait for `id`; the waiter comes from `ExpectActionResult`. */
    method FinishWait(id: Id, waiter: nat)
      requires Inv(Value()) && waiter < |futures|
      modifies this
      ensures Value() == Apply(old(Value()), Finishing(id, waiter)) && Inv(Value())
      ensures id == old(futures[waiter].owner) ==> waiter !in pending.Values
    {
      ApplyKeepsInv(Value(), Finishing(id, waiter));
      FinishLeavesNoEntry(Value(), id, waiter);
      if id in pending && pending[id] == waiter {
        pending := pending - {id};
        if futures[waiter].state.Waiting? {
          futures := futures[waiter := futures[waiter].(state := Cancelled)];
        }
      }
    }

    method DeliverActionResult(msg: Msg)
      requires Inv(Value())
      modifies this
      ensures Value() == Apply(old(Value()), Delivering(msg)) && Inv(Value())
    {
      ApplyKeepsInv(Value(), Delivering(msg));
      if !msg.isActionResult || msg.id == NoId {
        return;
      }
      if msg.id in pending && futures[pending[msg.id]].state.Waiting? {
        var h := pending[msg.id];
        futures := futures[h := futures[h].(state := Done(msg))];
        return;
      }
      var i := Find(backlog, msg.id);
      backlog := if i < |backlog| then backlog[i := msg] else backlog + [msg];
      if |backlog| > BACKLOG_LIMIT {
        backlog := backlog[BACKLOG_EVICTED..];
      }
    }

    method Disconnect()
      requires Inv(Value())
      modifies this
      ensures Value() == Apply(old(Value()), Disconnecting) && Inv(Value())
    {
      ApplyKeepsInv(Value(), Disconnecting);
      var todo := pending.Keys;
      while todo != {}
        invariant todo <= pending.Keys && pending == old(pending) && backlog == old(backlog)
        invariant |futures| == |old(futures)|
        invariant forall h :: 0 <= h < |futures| ==>
                    futures[h] == var f := old(futures)[h];
                                  if f.owner in pending.Keys - todo && pending[f.owner] == h then Cancel(f) else f
        decreases todo
      {
        var id :| id in todo;
        var h := pending[id];
        if futures[h].state.Waiting? {
          futures := futures[h := futures[h].(state := Cancelled)];
        }
        todo := todo - {id};
      }
      assert futures == CancelAll(old(futures), pending);
      pending := map[];
    }
  }
}
