/** The observation window: lightweight snapshots and skillbar deltas are merged into one view of the
    game that keeps the last known value of everything. */
module Observation {
  import opened Options

  /** A skill in the bar; `extra` stands for the fields that no comparison looks at. */
  datatype Skill = Skill(slot: Option<int>, skillId: int, recharge: real, adrenaline: int, event: int, extra: string)

  datatype Signature = Signature(slot: int, skillId: int, recharge: int, adrenaline: int, event: int)

  function SlotOf(skill: Skill): int {
    if skill.slot.Some? then skill.slot.value else -1
  }

  /** `int()` of a number drops the fraction. */
  function Truncate(x: real): int {
    if x >= 0.0 then x.Floor else -((-x).Floor)
  }

  function SignatureOf(skill: Skill): Signature {
    Signature(SlotOf(skill), skill.skillId, Truncate(skill.recharge), skill.adrenaline, skill.event)
  }

  // ----- skills by slot -----

  /** The last skill of each slot; skills without a slot do not count. */
  function BySlot(skills: seq<Skill>): map<nat, Skill> {
    if skills == [] then map[]
    else
      var before, last := BySlot(skills[..|skills| - 1]), skills[|skills| - 1];
      if SlotOf(last) >= 0 then before[SlotOf(last) := last] else before
  }

  function SkillAt(skills: seq<Skill>, slot: nat): Option<Skill> {
    var bySlot := BySlot(skills);
    if slot in bySlot then Some(bySlot[slot]) else None
  }

  /** The skill of a slot is the last one in the list that names it. */
  lemma {:induction false} SkillAtExactly(skills: seq<Skill>, slot: nat, skill: Skill)
    ensures SkillAt(skills, slot) == Some(skill) <==>
            exists i :: 0 <= i < |skills| && skills[i] == skill && LastOf(skills, slot, i)
  {
    if skills != [] {
      var n := |skills| - 1;
      var before := skills[..n];
      SkillAtExactly(before, slot, skill);
      if i :| 0 <= i < n && before[i] == skill && LastOf(before, slot, i) && skills[n].slot != Some(slot) {
        assert skills[i] == skill && LastOf(skills, slot, i);
      }
      if i :| 0 <= i < |skills| && skills[i] == skill && LastOf(skills, slot, i) && i < n {
        assert before[i] == skill && LastOf(before, slot, i);
      }
      if skills[n].slot == Some(slot) {
        assert LastOf(skills, slot, n);
      }
    }
  }

  ghost predicate LastOf(skills: seq<Skill>, slot: nat, i: nat)
    requires i < |skills|
  {
    skills[i].slot == Some(slot) && forall j :: i < j < |skills| ==> skills[j].slot != Some(slot)
  }

  /** Two skills look the same exactly if they agree in slot, identifier, adrenaline and event, and in the whole
      part of their recharge; no slot counts as slot -1. */
  lemma SameSignatureExactly(a: Skill, b: Skill)
    ensures SignatureOf(a) == SignatureOf(b) <==>
            && (if a.slot.Some? then a.slot.value else -1) == (if b.slot.Some? then b.slot.value else -1)
            && a.skillId == b.skillId && a.adrenaline == b.adrenaline && a.event == b.event
            && exists whole: int :: IsWholePart(a.recharge, whole) && IsWholePart(b.recharge, whole)
  {
    WholePart(a.recharge);
    WholePart(b.recharge);
    forall whole: int | IsWholePart(a.recharge, whole) ensures whole == Truncate(a.recharge) {
      WholePartIsUnique(a.recharge, whole, Truncate(a.recharge));
    }
    forall whole: int | IsWholePart(b.recharge, whole) ensures whole == Truncate(b.recharge) {
      WholePartIsUnique(b.recharge, whole, Truncate(b.recharge));
    }
  }

  predicate IsWholePart(x: real, whole: int) {
    if x < 0.0 then whole as real - 1.0 < x <= whole as real else whole as real <= x < whole as real + 1.0
  }

  lemma WholePart(x: real)
    ensures IsWholePart(x, Truncate(x))
  {
  }

  lemma WholePartIsUnique(x: real, m: int, n: int)
    requires IsWholePart(x, m) && IsWholePart(x, n)
    ensures m == n
  {
  }

  function Signatures(skills: seq<Skill>): map<nat, Signature> {
    var bySlot := BySlot(skills);
    map slot | slot in bySlot :: SignatureOf(bySlot[slot])
  }

  /** A map in which every skill stands at its own slot. */
  ghost predicate Keyed(bySlot: map<nat, Skill>) {
    forall slot: nat :: slot in bySlot ==> SlotOf(bySlot[slot]) == slot
  }

  lemma {:induction false} BySlotIsKeyed(skills: seq<Skill>)
    ensures Keyed(BySlot(skills))
  {
    if skills != [] {
      BySlotIsKeyed(skills[..|skills| - 1]);
    }
  }

  lemma SnocBySlot(skills: seq<Skill>, skill: Skill)
    ensures BySlot(skills + [skill]) ==
            if SlotOf(skill) >= 0 then BySlot(skills)[SlotOf(skill) := skill] else BySlot(skills)
  {
    assert (skills + [skill])[..|skills|] == skills;
  }

  /** No slot occurs twice. */
  ghost predicate DistinctSlots(skills: seq<Skill>) {
    forall i, j :: 0 <= i < j < |skills| && SlotOf(skills[i]) >= 0 ==> SlotOf(skills[i]) != SlotOf(skills[j])
  }

  lemma {:induction false} SlotComesFrom(skills: seq<Skill>, slot: nat) returns (i: nat)
    requires slot in BySlot(skills)
    ensures i < |skills| && SlotOf(skills[i]) == slot && BySlot(skills)[slot] == skills[i]
  {
    var n := |skills| - 1;
    if SlotOf(skills[n]) == slot {
      i := n;
    } else {
      i := SlotComesFrom(skills[..n], slot);
    }
  }

  lemma {:induction false} DistinctIsFound(skills: seq<Skill>, i: nat)
    requires DistinctSlots(skills) && i < |skills| && SlotOf(skills[i]) >= 0
    ensures SlotOf(skills[i]) in BySlot(skills) && BySlot(skills)[SlotOf(skills[i])] == skills[i]
  {
    var n := |skills| - 1;
    if i < n {
      DistinctIsFound(skills[..n], i);
    }
  }

  // ----- listing in slot order -----

  lemma LeastFrom(slots: set<nat>, some: nat) returns (least: nat)
    requires some in slots
    ensures least in slots && forall slot: nat :: slot in slots ==> least <= slot
    decreases some
  {
    if smaller: nat :| smaller in slots && smaller < some {
      least := LeastFrom(slots, smaller);
    } else {
      least := some;
    }
  }

  lemma LeastExists(slots: set<nat>)
    requires slots != {}
    ensures exists least: nat :: least in slots && forall slot: nat :: slot in slots ==> least <= slot
  {
    var some :| some in slots;
    var least := LeastFrom(slots, some);
  }

  function Least(slots: set<nat>): (least: nat)
    requires slots != {}
    ensures least in slots && forall slot: nat :: slot in slots ==> least <= slot
  {
    LeastExists(slots);
    var least: nat :| least in slots && forall slot: nat :: slot in slots ==> least <= slot;
    least
  }

  /** `sorted` of a dictionary's keys. */
  function SortedSlots(slots: set<nat>): (r: seq<nat>)
    ensures forall i :: 0 <= i < |r| ==> r[i] in slots
    ensures forall i, j :: 0 <= i < j < |r| ==> r[i] < r[j]
    decreases |slots|
  {
    if slots == {} then []
    else
      var least := Least(slots);
      [least] + SortedSlots(slots - {least})
  }

  lemma {:induction false} SortedSlotsHas(slots: set<nat>, slot: nat) returns (i: nat)
    requires slot in slots
    ensures i < |SortedSlots(slots)| && SortedSlots(slots)[i] == slot
    decreases |slots|
  {
    var least := Least(slots);
    if slot == least {
      i := 0;
    } else {
      var k := SortedSlotsHas(slots - {least}, slot);
      i := k + 1;
    }
  }

  function Listing(bySlot: map<nat, Skill>): (r: seq<Skill>)
    ensures |r| == |SortedSlots(bySlot.Keys)|
    ensures forall i :: 0 <= i < |r| ==> r[i] == bySlot[SortedSlots(bySlot.Keys)[i]]
  {
    var slots := SortedSlots(bySlot.Keys);
    seq(|slots|, i requires 0 <= i < |slots| => bySlot[slots[i]])
  }

  ghost predicate SlotsIncrease(skills: seq<Skill>) {
    forall i, j :: 0 <= i < j < |skills| ==> SlotOf(skills[i]) < SlotOf(skills[j])
  }

  lemma ListingOrder(bySlot: map<nat, Skill>)
    requires Keyed(bySlot)
    ensures SlotsIncrease(Listing(bySlot)) && DistinctSlots(Listing(bySlot))
  {
    var r, slots := Listing(bySlot), SortedSlots(bySlot.Keys);
    forall i | 0 <= i < |r| ensures SlotOf(r[i]) == slots[i] {
      assert slots[i] in bySlot;
    }
  }

  /** Listing a map and reading it back by slot is the identity. */
  lemma ListingRoundTrip(bySlot: map<nat, Skill>)
    requires Keyed(bySlot)
    ensures BySlot(Listing(bySlot)) == bySlot
  {
    var r := Listing(bySlot);
    ListingOrder(bySlot);
    forall slot | slot in bySlot ensures slot in BySlot(r) && BySlot(r)[slot] == bySlot[slot] {
      var i := SortedSlotsHas(bySlot.Keys, slot);
      DistinctIsFound(r, i);
    }
    forall slot | slot in BySlot(r) ensures slot in bySlot {
      var i := SlotComesFrom(r, slot);
    }
  }

  // ----- merging -----

  function Merge(previous: seq<Skill>, updates: seq<Skill>): seq<Skill> {
    Listing(BySlot(previous) + BySlot(updates))
  }

  lemma MergeBySlot(previous: seq<Skill>, updates: seq<Skill>)
    ensures BySlot(Merge(previous, updates)) == BySlot(previous) + BySlot(updates)
    ensures SlotsIncrease(Merge(previous, updates))
  {
    BySlotIsKeyed(previous);
    BySlotIsKeyed(updates);
    ListingOrder(BySlot(previous) + BySlot(updates));
    ListingRoundTrip(BySlot(previous) + BySlot(updates));
  }

  lemma MergeAt(previous: seq<Skill>, updates: seq<Skill>, slot: nat)
    ensures SkillAt(Merge(previous, updates), slot) ==
            if SkillAt(updates, slot).Some? then SkillAt(updates, slot) else SkillAt(previous, slot)
  {
    MergeBySlot(previous, updates);
  }

  /** Merging updates one after the other equals merging their merge. */
  lemma MergeIsAssociative(previous: seq<Skill>, first: seq<Skill>, second: seq<Skill>)
    ensures Merge(Merge(previous, first), second) == Merge(previous, Merge(first, second))
  {
    MergeBySlot(previous, first);
    MergeBySlot(first, second);
    UpdatesAssociate(BySlot(previous), BySlot(first), BySlot(second));
  }

  lemma UpdatesAssociate(a: map<nat, Skill>, b: map<nat, Skill>, c: map<nat, Skill>)
    ensures (a + b) + c == a + (b + c)
  {
  }

  // ----- deltas -----

  predicate Unchanged(signatures: map<nat, Signature>, skill: Skill) {
    SlotOf(skill) in signatures && signatures[SlotOf(skill)] == SignatureOf(skill)
  }

  /** The skills of a bar that differ from the signatures. */
  function Changed(signatures: map<nat, Signature>, current: seq<Skill>): seq<Skill> {
    if current == [] then []
    else
      var before, last := Changed(signatures, current[..|current| - 1]), current[|current| - 1];
      if SlotOf(last) < 0 || Unchanged(signatures, last) then before else before + [last]
  }

  lemma LastSlotIsNew(current: seq<Skill>)
    requires DistinctSlots(current) && current != [] && SlotOf(current[|current| - 1]) >= 0
    ensures SlotOf(current[|current| - 1]) !in BySlot(current[..|current| - 1])
  {
    var n := |current| - 1;
    if SlotOf(current[n]) in BySlot(current[..n]) {
      var i := SlotComesFrom(current[..n], SlotOf(current[n]));
      assert false;
    }
  }

  lemma {:induction false} ChangedBySlot(signatures: map<nat, Signature>, current: seq<Skill>, slot: nat)
    requires DistinctSlots(current)
    ensures SkillAt(Changed(signatures, current), slot) ==
            match SkillAt(current, slot)
            case None => None
            case Some(skill) => if Unchanged(signatures, skill) then None else Some(skill)
  {
    if current != [] {
      var n := |current| - 1;
      ChangedBySlot(signatures, current[..n], slot);
      SnocBySlot(Changed(signatures, current[..n]), current[n]);
      if SlotOf(current[n]) >= 0 {
        LastSlotIsNew(current);
      }
    }
  }

  lemma DeltaAt(previous: seq<Skill>, current: seq<Skill>, slot: nat)
    requires DistinctSlots(current)
    ensures var merged := Merge(previous, Changed(Signatures(previous), current));
            && (slot in BySlot(merged) <==> slot in BySlot(previous) || slot in BySlot(current))
            && (slot in BySlot(current) ==> SignatureOf(BySlot(merged)[slot]) == SignatureOf(BySlot(current)[slot]))
  {
    var delta := Changed(Signatures(previous), current);
    MergeBySlot(previous, delta);
    ChangedBySlot(Signatures(previous), current, slot);
    BySlotIsKeyed(current);
  }

  /** Sending only the changed skills loses nothing: merged into the previous bar they show the signature
      of the current one in every slot, exactly if the current bar has every slot of the previous one. */
  lemma DeltaUndoneExactly(previous: seq<Skill>, current: seq<Skill>)
    requires DistinctSlots(current)
    ensures var merged := Merge(previous, Changed(Signatures(previous), current));
            && SlotsIncrease(merged)
            && (Signatures(merged) == Signatures(current) <==> BySlot(previous).Keys <= BySlot(current).Keys)
  {
    var merged := Merge(previous, Changed(Signatures(previous), current));
    MergeBySlot(previous, Changed(Signatures(previous), current));
    forall slot: nat
      ensures slot in Signatures(merged) <==> slot in BySlot(previous) || slot in BySlot(current)
      ensures slot in Signatures(current) ==> Signatures(merged)[slot] == Signatures(current)[slot]
    {
      DeltaAt(previous, current, slot);
    }
    if Signatures(merged) == Signatures(current) {
      forall slot | slot in BySlot(previous) ensures slot in BySlot(current) {
        assert slot in Signatures(merged);
      }
    }
  }

  // ----- the loops over skills -----

  /** The skills of the previous bar by slot, overwritten by the updates, in slot order. */
  method MergeSkillbar(previous: seq<Skill>, updates: seq<Skill>) returns (merged: seq<Skill>)
    ensures merged == Merge(previous, updates)
  {
    var bySlot: map<nat, Skill> := map[];
    for i := 0 to |previous|
      invariant bySlot == BySlot(previous[..i])
    {
      SnocBySlot(previous[..i], previous[i]);
      assert previous[..i + 1] == previous[..i] + [previous[i]];
      if SlotOf(previous[i]) >= 0 {
        bySlot := bySlot[SlotOf(previous[i]) := previous[i]];
      }
    }
    assert previous[..|previous|] == previous;
    for i := 0 to |updates|
      invariant bySlot == BySlot(previous) + BySlot(updates[..i])
    {
      SnocBySlot(updates[..i], updates[i]);
      assert updates[..i + 1] == updates[..i] + [updates[i]];
      if SlotOf(updates[i]) >= 0 {
        bySlot := bySlot[SlotOf(updates[i]) := updates[i]];
      }
    }
    assert updates[..|updates|] == updates;
    merged := Listing(bySlot);
  }

  lemma SnocSignatures(skills: seq<Skill>, skill: Skill)
    ensures Signatures(skills + [skill]) ==
            if SlotOf(skill) >= 0 then Signatures(skills)[SlotOf(skill) := SignatureOf(skill)] else Signatures(skills)
  {
    SnocBySlot(skills, skill);
  }

  method ChangedSkillSlots(previous: seq<Skill>, current: seq<Skill>) returns (changed: seq<Skill>)
    ensures changed == Changed(Signatures(previous), current)
  {
    var signatures: map<nat, Signature> := map[];
    for i := 0 to |previous|
      invariant signatures == Signatures(previous[..i])
    {
      SnocSignatures(previous[..i], previous[i]);
      assert previous[..i + 1] == previous[..i] + [previous[i]];
      if SlotOf(previous[i]) >= 0 {
        signatures := signatures[SlotOf(previous[i]) := SignatureOf(previous[i])];
      }
    }
    assert previous[..|previous|] == previous;
    changed := [];
    for i := 0 to |current|
      invariant changed == Changed(signatures, current[..i])
    {
      assert current[..i + 1][..i] == current[..i];
      var slot := SlotOf(current[i]);
      if slot >= 0 && !(slot in signatures && signatures[slot] == SignatureOf(current[i])) {
        changed := changed + [current[i]];
      }
    }
    assert current[..|current|] == current;
  }

  // ----- snapshots -----

  /** A list under a key that may be missing, or null. */
  datatype Section<T> = Missing | Null | Given(items: seq<T>)

  function Items<T>(section: Section<T>): seq<T> {
    if section.Given? then section.items else []
  }

  datatype Agent = Agent(isItem: bool, id: int, itemId: int, modelId: int, quantity: int, owner: int)

  /** A snapshot as it comes in; `rest` holds the other top-level keys. */
  datatype Raw = Raw(skillbar: Section<Skill>, skillbarDelta: Option<bool>, agents: Section<Agent>,
                     rest: map<string, string>)

  /** A snapshot with the two keys that the window adds. */
  datatype View = View(
    skillbar: Section<Skill>,
    changedSlots: Section<Skill>,
    skillbarDelta: Option<bool>,
    agents: Section<Agent>,
    itemsChanged: Option<bool>,
    rest: map<string, string>)

  const EMPTY_VIEW := View(Missing, Missing, None, Missing, None, map[])

  predicate IsDelta(raw: Raw) {
    raw.skillbarDelta == Some(true)
  }

  /** The items on the ground; two sorted lists of signatures are equal exactly when these are. */
  function GroundItems(agents: seq<Agent>): multiset<Agent> {
    if agents == [] then multiset{}
    else
      var last := agents[|agents| - 1];
      GroundItems(agents[..|agents| - 1]) + if last.isItem then multiset{last} else multiset{}
  }

  lemma {:induction false} GroundCount(agents: seq<Agent>, a: Agent)
    ensures GroundItems(agents)[a] == if a.isItem then multiset(agents)[a] else 0
  {
    if agents != [] {
      var n := |agents| - 1;
      GroundCount(agents[..n], a);
      assert agents == agents[..n] + [agents[n]];
    }
  }

  /** The flag for changed items: some item lies there more or fewer times than before; agents that are no
      items, and the order of the list, do not count. */
  lemma ItemsChangedExactly(view: View, raw: Raw)
    ensures Enrich(view, raw).itemsChanged.Some? <==> !raw.agents.Missing?
    ensures Enrich(view, raw).itemsChanged == Some(true) <==>
            && !raw.agents.Missing?
            && exists a: Agent :: a.isItem && multiset(Items(view.agents))[a] != multiset(Items(raw.agents))[a]
  {
    var before, after := GroundItems(Items(view.agents)), GroundItems(Items(raw.agents));
    forall a: Agent
      ensures before[a] == if a.isItem then multiset(Items(view.agents))[a] else 0
      ensures after[a] == if a.isItem then multiset(Items(raw.agents))[a] else 0
    {
      GroundCount(Items(view.agents), a);
      GroundCount(Items(raw.agents), a);
    }
    if before != after {
      var a :| before[a] != after[a];
      assert a.isItem && multiset(Items(view.agents))[a] != multiset(Items(raw.agents))[a];
    }
  }

  /** Iterating over a null list raises. */
  predicate Refuses(view: View, raw: Raw) {
    || (!raw.skillbar.Missing? && view.skillbar.Null?)
    || (!raw.agents.Missing? && (view.agents.Null? || raw.agents.Null?))
  }

  /** The incoming snapshot with the merged skillbar and the derived keys. */
  function Enrich(view: View, raw: Raw): View {
    var previous, updates := Items(view.skillbar), Items(raw.skillbar);
    View(
      if !raw.skillbar.Missing? && IsDelta(raw) then Given(Merge(previous, updates)) else raw.skillbar,
      if raw.skillbar.Missing? then Missing
      else if IsDelta(raw) then Given(updates)
      else Given(Changed(Signatures(previous), updates)),
      raw.skillbarDelta,
      raw.agents,
      if raw.agents.Missing? then None else Some(GroundItems(Items(view.agents)) != GroundItems(Items(raw.agents))),
      raw.rest)
  }

  /** Every key of the incoming snapshot replaces the one of the merged view. */
  function Overlay(view: View, incoming: View): View {
    View(
      if incoming.skillbar.Missing? then view.skillbar else incoming.skillbar,
      if incoming.changedSlots.Missing? then view.changedSlots else incoming.changedSlots,
      if incoming.skillbarDelta.None? then view.skillbarDelta else incoming.skillbarDelta,
      if incoming.agents.Missing? then view.agents else incoming.agents,
      if incoming.itemsChanged.None? then view.itemsChanged else incoming.itemsChanged,
      view.rest + incoming.rest)
  }

  // ----- what the view should show, told from the whole history -----

  /** The latest update of a slot since the last full skillbar. */
  function ShownSkill(history: seq<Raw>, slot: nat): Option<Skill> {
    if history == [] then None
    else
      var before, last := history[..|history| - 1], history[|history| - 1];
      match last.skillbar
      case Missing => ShownSkill(before, slot)
      case Null => if last.skillbarDelta == Some(true) then ShownSkill(before, slot) else None
      case Given(skills) =>
        if SkillAt(skills, slot).Some? then SkillAt(skills, slot)
        else if last.skillbarDelta == Some(true) then ShownSkill(before, slot)
        else None
  }

  /** The last value reported for a key. */
  function LastReported(history: seq<Raw>, key: string): Option<string> {
    if history == [] then None
    else if key in history[|history| - 1].rest then Some(history[|history| - 1].rest[key])
    else LastReported(history[..|history| - 1], key)
  }

  function LastAgents(history: seq<Raw>): Section<Agent> {
    if history == [] then Missing
    else if !history[|history| - 1].agents.Missing? then history[|history| - 1].agents
    else LastAgents(history[..|history| - 1])
  }

  function LastDelta(history: seq<Raw>): Option<bool> {
    if history == [] then None
    else if history[|history| - 1].skillbarDelta.Some? then history[|history| - 1].skillbarDelta
    else LastDelta(history[..|history| - 1])
  }

  /** Whether the last two reports of agents show different items. */
  function ItemsChanged(history: seq<Raw>): Option<bool> {
    if history == [] then None
    else
      var before, last := history[..|history| - 1], history[|history| - 1];
      if last.agents.Missing? then ItemsChanged(before)
      else Some(GroundItems(Items(LastAgents(before))) != GroundItems(Items(last.agents)))
  }

  /** A full skillbar that was null. */
  predicate BarWasNull(history: seq<Raw>) {
    history != []
    && ((history[|history| - 1].skillbar.Null? && history[|history| - 1].skillbarDelta != Some(true))
        || BarWasNull(history[..|history| - 1]))
  }

  function Shown(view: View, slot: nat): Option<Skill> {
    SkillAt(Items(view.skillbar), slot)
  }

  function Value(view: View, key: string): Option<string> {
    if key in view.rest then Some(view.rest[key]) else None
  }

  ghost predicate Agrees(view: View, history: seq<Raw>) {
    && (forall slot: nat :: Shown(view, slot) == ShownSkill(history, slot))
    && (forall key: string :: Value(view, key) == LastReported(history, key))
    && view.agents == LastAgents(history) && !view.agents.Null?
    && view.itemsChanged == ItemsChanged(history) && view.skillbarDelta == LastDelta(history)
    && (view.changedSlots.Missing? <==> forall i :: 0 <= i < |history| ==> history[i].skillbar.Missing?)
    && (view.skillbar.Null? <==> BarWasNull(history))
  }

  lemma OverlayShows(view: View, history: seq<Raw>, raw: Raw, slot: nat)
    requires Shown(view, slot) == ShownSkill(history, slot) && !Refuses(view, raw)
    ensures Shown(Overlay(view, Enrich(view, raw)), slot) == ShownSkill(history + [raw], slot)
  {
    assert (history + [raw])[..|history|] == history;
    if !raw.skillbar.Missing? && IsDelta(raw) {
      MergeAt(Items(view.skillbar), Items(raw.skillbar), slot);
    }
  }

  /** Adding a snapshot that is not refused keeps the view equal to what the whole history tells. */
  lemma OverlayAgrees(view: View, history: seq<Raw>, raw: Raw)
    requires Agrees(view, history) && !Refuses(view, raw)
    ensures Agrees(Overlay(view, Enrich(view, raw)), history + [raw])
  {
    assert (history + [raw])[..|history|] == history;
    var after := Overlay(view, Enrich(view, raw));
    forall slot: nat ensures Shown(after, slot) == ShownSkill(history + [raw], slot) {
      OverlayShows(view, history, raw, slot);
    }
    forall key: string ensures Value(after, key) == LastReported(history + [raw], key) {
      assert Value(view, key) == LastReported(history, key);
    }
  }

  /** A snapshot is refused exactly if it carries a skillbar after a full one that was null, or null
      agents: from then on every snapshot with a skillbar is refused. */
  lemma RefusesExactly(view: View, history: seq<Raw>, raw: Raw)
    requires Agrees(view, history)
    ensures Refuses(view, raw) <==> (!raw.skillbar.Missing? && BarWasNull(history)) || raw.agents.Null?
    ensures BarWasNull(history) ==> BarWasNull(history + [raw])
  {
    assert (history + [raw])[..|history|] == history;
  }

  /** One full snapshot whose skillbar is null: the next one with a skillbar is refused, full or delta. */
  lemma NullBarRefuses(raw: Raw)
    requires !raw.skillbar.Missing?
    ensures var first := Raw(Null, None, Missing, map[]);
            && Agrees(EMPTY_VIEW, []) && !Refuses(EMPTY_VIEW, first)
            && var view := Overlay(EMPTY_VIEW, Enrich(EMPTY_VIEW, first));
            && Agrees(view, [first]) && Refuses(view, raw)
  {
    var first := Raw(Null, None, Missing, map[]);
    OverlayAgrees(EMPTY_VIEW, [], first);
    assert [] + [first] == [first];
  }

  /** The slots reported as changed are enough to follow the bar: merged into the bar before, they show the
      signatures of the bar after, exactly if the snapshot was a delta or its bar has every earlier slot. */
  lemma ChangedSlotsExactly(view: View, raw: Raw)
    requires raw.skillbar.Given? && !Refuses(view, raw) && DistinctSlots(raw.skillbar.items)
    ensures var incoming := Enrich(view, raw); var after := Overlay(view, incoming);
            var followed := Merge(Items(view.skillbar), Items(incoming.changedSlots));
            && incoming.changedSlots.Given? && after.changedSlots == incoming.changedSlots
            && (Signatures(followed) == Signatures(Items(after.skillbar)) <==>
                  || raw.skillbarDelta == Some(true)
                  || BySlot(Items(view.skillbar)).Keys <= BySlot(raw.skillbar.items).Keys)
  {
    if !IsDelta(raw) {
      DeltaUndoneExactly(Items(view.skillbar), raw.skillbar.items);
    }
  }

  /** A snapshot without a skillbar leaves the bar and the slots reported as changed as they are; one with a
      full bar shows just that, and one with a delta the bar before with the delta's skills in their slots. */
  lemma BarShownExactly(view: View, raw: Raw)
    requires !Refuses(view, raw)
    ensures var after := Overlay(view, Enrich(view, raw));
            && (raw.skillbar.Missing? ==> after.skillbar == view.skillbar && after.changedSlots == view.changedSlots)
            && (!raw.skillbar.Missing? && raw.skillbarDelta != Some(true) ==> after.skillbar == raw.skillbar)
            && (raw.skillbar.Given? && raw.skillbarDelta == Some(true) ==>
                  && after.skillbar.Given? && after.changedSlots == raw.skillbar
                  && forall slot: nat :: SkillAt(after.skillbar.items, slot) ==
                                         if SkillAt(raw.skillbar.items, slot).Some?
                                         then SkillAt(raw.skillbar.items, slot) else Shown(view, slot))
  {
    forall slot: nat ensures SkillAt(Merge(Items(view.skillbar), Items(raw.skillbar)), slot) ==
                             if SkillAt(Items(raw.skillbar), slot).Some?
                             then SkillAt(Items(raw.skillbar), slot) else Shown(view, slot)
    {
      MergeAt(Items(view.skillbar), Items(raw.skillbar), slot);
    }
  }

  // ----- the window -----

  function Newest<T>(s: seq<T>, n: nat): seq<T> {
    if |s| > n then s[|s| - n..] else s
  }

  /** The window holds the last `n` snapshots, or all of them if there are fewer. */
  lemma NewestExactly<T>(s: seq<T>, n: nat) returns (older: seq<T>)
    ensures s == older + Newest(s, n)
    ensures |Newest(s, n)| == if |s| <= n then |s| else n
  {
    older := s[..|s| - |Newest(s, n)|];
  }

  method EnrichIncoming(previous: View, raw: Raw) returns (incoming: View)
    ensures incoming == Enrich(previous, raw)
  {
    incoming := View(raw.skillbar, Missing, raw.skillbarDelta, raw.agents, None, raw.rest);
    if !raw.skillbar.Missing? {
      var updates := Items(raw.skillbar);
      if IsDelta(raw) {
        var merged := MergeSkillbar(Items(previous.skillbar), updates);
        incoming := incoming.(changedSlots := Given(updates), skillbar := Given(merged));
      } else {
        var changed := ChangedSkillSlots(Items(previous.skillbar), updates);
        incoming := incoming.(changedSlots := Given(changed));
      }
    }
    if !raw.agents.Missing? {
      var changed := GroundItems(Items(previous.agents)) != GroundItems(Items(raw.agents));
      incoming := incoming.(itemsChanged := Some(changed));
    }
  }

  class ObservationWindow {
    const maxSize: nat
    var snapshots: seq<View>
    var latestMerged: View
    ghost var history: seq<Raw>

    ghost predicate Valid()
      reads this
    {
      Agrees(latestMerged, history) && |snapshots| <= maxSize
    }

    constructor (maxSize: nat := 5)
      ensures Valid() && history == [] && snapshots == [] && this.maxSize == maxSize
    {
      this.maxSize := maxSize;
      snapshots, latestMerged, history := [], EMPTY_VIEW, [];
    }

    /** The new snapshot joins the window and overlays the merged view. */
    method Store(incoming: View, ghost raw: Raw)
      requires Valid() && !Refuses(latestMerged, raw) && incoming == Enrich(latestMerged, raw)
      modifies this
      ensures Valid() && history == old(history) + [raw]
      ensures snapshots == Newest(old(snapshots) + [incoming], maxSize)
      ensures latestMerged == Overlay(old(latestMerged), incoming)
    {
      OverlayAgrees(latestMerged, history, raw);
      snapshots := Newest(snapshots + [incoming], maxSize);
      latestMerged := Overlay(latestMerged, incoming);
      history := history + [raw];
    }

    method AddSnapshot(raw: Raw) returns (added: bool)
      requires Valid()
      modifies this
      ensures Valid()
      ensures added <==> !((!raw.skillbar.Missing? && BarWasNull(old(history))) || raw.agents.Null?)
      ensures history == old(history) + (if added then [raw] else [])
      ensures !added ==> snapshots == old(snapshots) && latestMerged == old(latestMerged)
      ensures added ==>
                && snapshots == Newest(old(snapshots) + [Enrich(old(latestMerged), raw)], maxSize)
                && latestMerged == Overlay(old(latestMerged), Enrich(old(latestMerged), raw))
    {
      RefusesExactly(latestMerged, history, raw);
      if Refuses(latestMerged, raw) {
        return false;
      }
      var incoming := EnrichIncoming(latestMerged, raw);
      Store(incoming, raw);
      return true;
    }
  }
}
