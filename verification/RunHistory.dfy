/** The run history: summaries of runs, of which repeats of one outcome keep only the newest, at the
    place of the first. */
module RunHistory {
  import opened Options
  import opened Texts

  datatype Outcome = Outcome(waypointIterations: Option<string>, enteredLvl2: string, step: string)

  /** A summary; `details` stands for the fields that no key looks at. */
  datatype Summary = Summary(
    reason: string,
    routePhase: string,
    lastOutcome: Option<Outcome>,
    capturedAt: Option<real>,
    details: string)

  /** The key under which repeats are found; only outcomes that count waypoints have one. */
  function KeyOf(item: Summary): Option<string> {
    if item.lastOutcome.None? || item.lastOutcome.value.waypointIterations.None? then None
    else
      var last := item.lastOutcome.value;
      Some(item.reason + "|" + item.routePhase + "|" + last.enteredLvl2
           + "|" + last.waypointIterations.value + "|" + last.step)
  }

  lemma KeyNested(a: string, b: string, c: string, d: string, e: string)
    ensures a + "|" + b + "|" + c + "|" + d + "|" + e == a + ("|" + (b + ("|" + (c + ("|" + (d + ("|" + e)))))))
  {
  }

  /** The five texts that a key is made of. */
  datatype Repeat = Repeat(reason: string, routePhase: string, enteredLvl2: string, iterations: string, step: string)

  function RepeatOf(item: Summary): Repeat
    requires item.lastOutcome.Some? && item.lastOutcome.value.waypointIterations.Some?
  {
    var last := item.lastOutcome.value;
    Repeat(item.reason, item.routePhase, last.enteredLvl2, last.waypointIterations.value, last.step)
  }

  /** A summary has a key exactly if its outcome counts waypoints. Equal texts make equal keys; and where no
      text but the last has a bar in it, only equal texts do. */
  lemma SameKeyExactly(a: Summary, b: Summary)
    ensures KeyOf(a).Some? <==> a.lastOutcome.Some? && a.lastOutcome.value.waypointIterations.Some?
    ensures KeyOf(a).Some? && KeyOf(b).Some? ==>
              var x, y := RepeatOf(a), RepeatOf(b);
              && (x == y ==> KeyOf(a) == KeyOf(b))
              && (BarOnlyInStep(x) && BarOnlyInStep(y) && KeyOf(a) == KeyOf(b) ==> x == y)
  {
    if KeyOf(a).Some? && KeyOf(b).Some? {
      var x, y := RepeatOf(a), RepeatOf(b);
      KeyNested(x.reason, x.routePhase, x.enteredLvl2, x.iterations, x.step);
      KeyNested(y.reason, y.routePhase, y.enteredLvl2, y.iterations, y.step);
      if BarOnlyInStep(x) && BarOnlyInStep(y) {
        SplitKeys(x, y);
      }
    }
  }

  predicate BarOnlyInStep(x: Repeat) {
    NoBar(x.reason) && NoBar(x.routePhase) && NoBar(x.enteredLvl2) && NoBar(x.iterations)
  }

  lemma SplitKeys(x: Repeat, y: Repeat)
    requires BarOnlyInStep(x) && BarOnlyInStep(y)
    ensures var s1, t1 := x.iterations + ("|" + x.step), y.iterations + ("|" + y.step);
            var s2, t2 := x.enteredLvl2 + ("|" + s1), y.enteredLvl2 + ("|" + t1);
            var s3, t3 := x.routePhase + ("|" + s2), y.routePhase + ("|" + t2);
            x.reason + ("|" + s3) == y.reason + ("|" + t3) ==> x == y
  {
    var s1, t1 := x.iterations + ("|" + x.step), y.iterations + ("|" + y.step);
    var s2, t2 := x.enteredLvl2 + ("|" + s1), y.enteredLvl2 + ("|" + t1);
    SplitAtBar(x.iterations, y.iterations, x.step, y.step);
    SplitAtBar(x.enteredLvl2, y.enteredLvl2, s1, t1);
    SplitAtBar(x.routePhase, y.routePhase, s2, t2);
    SplitAtBar(x.reason, y.reason, x.routePhase + ("|" + s2), y.routePhase + ("|" + t2));
  }

  /** Two summaries that differ in reason and phase and share a key, so that one of them is dropped. */
  lemma KeysCanCollide() returns (a: Summary, b: Summary)
    ensures a.reason != b.reason && a.routePhase != b.routePhase
    ensures KeyOf(a).Some? && KeyOf(a) == KeyOf(b) && Dedupe([a, b]) == [b]
  {
    var last := Some(Outcome(Some("1"), "", ""));
    a := Summary("r|s", "t", last, None, "");
    b := Summary("r", "s|t", last, None, "");
    BarsCollide();
    SecondReplacesFirst(a, b);
  }

  lemma BarsCollide()
    ensures "r|s" + "|" + "t" == "r" + "|" + "s|t" && "r|s" != "r" && "t" != "s|t"
  {
    assert |"r|s"| != |"r"| && |"t"| != |"s|t"|;
  }

  lemma SecondReplacesFirst(a: Summary, b: Summary)
    requires KeyOf(a).Some? && KeyOf(a) == KeyOf(b)
    ensures Dedupe([a, b]) == [b]
  {
    assert [a] + [b] == [a, b] && [] + [a] == [a];
    DedupeSnoc([], a);
    DedupeSnoc([a], b);
  }

  /** The first position of a key from `from` on, or the length. */
  function Find(items: seq<Summary>, key: string, from: nat := 0): (i: nat)
    requires from <= |items|
    ensures from <= i <= |items|
    ensures i < |items| ==> KeyOf(items[i]) == Some(key)
    ensures forall j :: from <= j < i ==> KeyOf(items[j]) != Some(key)
    decreases |items| - from
  {
    if from == |items| || KeyOf(items[from]) == Some(key) then from else Find(items, key, from + 1)
  }

  function Replace(items: seq<Summary>, key: string, item: Summary): (r: seq<Summary>)
    ensures |r| == |items|
    ensures forall i :: 0 <= i < |items| ==> r[i] == if KeyOf(items[i]) == Some(key) then item else items[i]
  {
    seq(|items|, i requires 0 <= i < |items| => if KeyOf(items[i]) == Some(key) then item else items[i])
  }

  function Insert(items: seq<Summary>, item: Summary): seq<Summary> {
    var key := KeyOf(item);
    if key.None? || Find(items, key.value) == |items| then items + [item] else Replace(items, key.value, item)
  }

  function Dedupe(items: seq<Summary>): seq<Summary> {
    if items == [] then [] else Insert(Dedupe(items[..|items| - 1]), items[|items| - 1])
  }

  lemma DedupeSnoc(items: seq<Summary>, item: Summary)
    ensures Dedupe(items + [item]) == Insert(Dedupe(items), item)
  {
    assert (items + [item])[..|items|] == items;
  }

  // ----- repeated and incremental deduplication -----

  ghost predicate UniqueKeys(items: seq<Summary>) {
    forall i, j :: 0 <= i < j < |items| && KeyOf(items[i]).Some? ==> KeyOf(items[i]) != KeyOf(items[j])
  }

  lemma InsertKeepsUnique(items: seq<Summary>, item: Summary)
    requires UniqueKeys(items)
    ensures UniqueKeys(Insert(items, item))
  {
  }

  /** No key is left twice. */
  lemma {:induction false} DedupeIsUnique(items: seq<Summary>)
    ensures UniqueKeys(Dedupe(items))
  {
    if items != [] {
      DedupeIsUnique(items[..|items| - 1]);
      InsertKeepsUnique(Dedupe(items[..|items| - 1]), items[|items| - 1]);
    }
  }

  lemma {:induction false} UniqueIsFixed(items: seq<Summary>)
    requires UniqueKeys(items)
    ensures Dedupe(items) == items
  {
    if items != [] {
      var n := |items| - 1;
      UniqueIsFixed(items[..n]);
      assert items == items[..n] + [items[n]];
    }
  }

  /** Deduplicating what is already deduplicated, with more items behind it, gives the same as
      deduplicating everything at once. */
  lemma {:induction false} DedupeIsIncremental(a: seq<Summary>, b: seq<Summary>)
    ensures Dedupe(Dedupe(a) + b) == Dedupe(a + b)
  {
    if b == [] {
      assert a + b == a && Dedupe(a) + b == Dedupe(a);
      DedupeIsUnique(a);
      UniqueIsFixed(Dedupe(a));
    } else {
      var n := |b| - 1;
      DedupeIsIncremental(a, b[..n]);
      assert a + b == (a + b[..n]) + [b[n]];
      assert Dedupe(a) + b == (Dedupe(a) + b[..n]) + [b[n]];
      DedupeSnoc(a + b[..n], b[n]);
      DedupeSnoc(Dedupe(a) + b[..n], b[n]);
    }
  }

  // ----- what is kept, and where -----

  /** The last item with a key before `to`. */
  function Latest(items: seq<Summary>, key: string, to: nat): Option<Summary>
    requires to <= |items|
  {
    if to == 0 then None
    else if KeyOf(items[to - 1]) == Some(key) then Some(items[to - 1])
    else Latest(items, key, to - 1)
  }

  /** What stands for position `i` of the input: an item without a key stands for itself, the first item
      of a key for the last one, and every later item of a key for nothing. */
  function Slot(items: seq<Summary>, i: nat): seq<Summary>
    requires i < |items|
  {
    var key := KeyOf(items[i]);
    if key.None? then [items[i]]
    else if Find(items, key.value) < i then []
    else
      var latest := Latest(items, key.value, |items|);
      if latest.Some? then [latest.value] else []
  }

  function Slots(items: seq<Summary>, n: nat): seq<Summary>
    requires n <= |items|
  {
    if n == 0 then [] else Slots(items, n - 1) + Slot(items, n - 1)
  }

  lemma {:induction false} FindSnoc(items: seq<Summary>, item: Summary, key: string, from: nat)
    requires from <= |items|
    ensures Find(items + [item], key, from) ==
            if Find(items, key, from) < |items| then Find(items, key, from)
            else if KeyOf(item) == Some(key) then |items| else |items| + 1
    decreases |items| - from
  {
    if from < |items| && KeyOf(items[from]) != Some(key) {
      FindSnoc(items, item, key, from + 1);
    } else if from == |items| && KeyOf(item) != Some(key) {
      assert Find(items + [item], key, |items| + 1) == |items| + 1;
    }
  }

  lemma {:induction false} LatestPrefix(items: seq<Summary>, item: Summary, key: string, to: nat)
    requires to <= |items|
    ensures Latest(items + [item], key, to) == Latest(items, key, to)
  {
    if to > 0 {
      LatestPrefix(items, item, key, to - 1);
    }
  }

  /** The items of a key give way to a new one. */
  function Renewed(items: seq<Summary>, item: Summary): seq<Summary> {
    if KeyOf(item).Some? then Replace(items, KeyOf(item).value, item) else items
  }

  lemma RenewedConcat(a: seq<Summary>, b: seq<Summary>, item: Summary)
    ensures Renewed(a + b, item) == Renewed(a, item) + Renewed(b, item)
  {
  }

  /** One more item changes a slot only if it repeats the slot's key. */
  lemma SlotSnoc(items: seq<Summary>, item: Summary, i: nat)
    requires i < |items|
    ensures Slot(items + [item], i) == Renewed(Slot(items, i), item)
  {
    var key := KeyOf(items[i]);
    if key.Some? {
      FindSnoc(items, item, key.value, 0);
      LatestPrefix(items, item, key.value, |items|);
      LatestHasKey(items, key.value, |items|);
    }
  }

  lemma {:induction false} LatestHasKey(items: seq<Summary>, key: string, to: nat)
    requires to <= |items|
    ensures Latest(items, key, to).Some? ==> KeyOf(Latest(items, key, to).value) == Some(key)
    ensures forall j :: 0 <= j < to && KeyOf(items[j]) == Some(key) ==> Latest(items, key, to).Some?
  {
    if to > 0 {
      LatestHasKey(items, key, to - 1);
    }
  }

  lemma {:induction false} SlotsSnoc(items: seq<Summary>, item: Summary, n: nat)
    requires n <= |items|
    ensures Slots(items + [item], n) == Renewed(Slots(items, n), item)
  {
    if n == 0 {
      assert Renewed([], item) == [];
    } else {
      SlotsSnoc(items, item, n - 1);
      SlotSnoc(items, item, n - 1);
      RenewedConcat(Slots(items, n - 1), Slot(items, n - 1), item);
    }
  }

  lemma FindConcat(a: seq<Summary>, b: seq<Summary>, key: string)
    ensures Find(a + b, key) == if Find(a, key) < |a| then Find(a, key) else |a| + Find(b, key)
  {
    var i := Find(a + b, key);
    if i < |a| {
      assert (a + b)[i] == a[i];
    }
    var j, k := Find(a, key), Find(b, key);
    if j < |a| {
      assert (a + b)[j] == a[j];
    } else if k < |b| {
      assert (a + b)[|a| + k] == b[k];
    }
  }

  lemma SlotHasKey(items: seq<Summary>, key: string, i: nat)
    requires i < |items|
    ensures Find(Slot(items, i), key) < |Slot(items, i)| <==> Find(items, key) == i
  {
    if KeyOf(items[i]).Some? {
      LatestHasKey(items, KeyOf(items[i]).value, |items|);
    }
  }

  lemma {:induction false} SlotsHaveKey(items: seq<Summary>, key: string, n: nat)
    requires n <= |items|
    ensures Find(Slots(items, n), key) < |Slots(items, n)| <==> Find(items, key) < n
  {
    if n > 0 {
      SlotsHaveKey(items, key, n - 1);
      SlotHasKey(items, key, n - 1);
      FindConcat(Slots(items, n - 1), Slot(items, n - 1), key);
    }
  }

  /** The deduplicated list, told without any order of work: items without a key all stay, in order, and
      every key keeps its latest item at the place of its first. */
  lemma {:induction false} DedupeKeepsLatestAtFirst(items: seq<Summary>)
    ensures Dedupe(items) == Slots(items, |items|)
  {
    if items != [] {
      var n := |items| - 1;
      var before, item := items[..n], items[n];
      assert items == before + [item];
      DedupeKeepsLatestAtFirst(before);
      SlotsSnoc(before, item, n);
      if KeyOf(item).Some? {
        var key := KeyOf(item).value;
        FindSnoc(before, item, key, 0);
        SlotsHaveKey(before, key, n);
        assert Latest(items, key, n + 1) == Some(item);
        if Find(before, key) == n {
          NothingToReplace(Slots(before, n), key, item);
        }
      }
    }
  }

  lemma NothingToReplace(items: seq<Summary>, key: string, item: Summary)
    requires Find(items, key) == |items|
    ensures Replace(items, key, item) == items
  {
  }

  // ----- the loop and the store -----

  lemma ReplaceAt(items: seq<Summary>, key: string, item: Summary, i: nat)
    requires UniqueKeys(items) && i < |items| && KeyOf(items[i]) == Some(key)
    ensures Replace(items, key, item) == items[i := item]
  {
  }

  /** Keys are indexed by their position in the compacted list. */
  ghost predicate Indexed(compact: seq<Summary>, indexByKey: map<string, nat>) {
    && (forall key :: key in indexByKey ==> indexByKey[key] < |compact| && KeyOf(compact[indexByKey[key]]) == Some(key))
    && (forall i :: 0 <= i < |compact| && KeyOf(compact[i]).Some? ==> KeyOf(compact[i]).value in indexByKey)
  }

  lemma IndexedKey(compact: seq<Summary>, indexByKey: map<string, nat>, key: string)
    requires Indexed(compact, indexByKey)
    ensures key in indexByKey <==> Find(compact, key) < |compact|
  {
    if key in indexByKey {
      assert KeyOf(compact[indexByKey[key]]) == Some(key);
    }
  }

  lemma IndexMore(compact: seq<Summary>, indexByKey: map<string, nat>, item: Summary)
    requires Indexed(compact, indexByKey)
    requires KeyOf(item).Some? ==> KeyOf(item).value !in indexByKey
    ensures Indexed(compact + [item],
                    if KeyOf(item).Some? then indexByKey[KeyOf(item).value := |compact|] else indexByKey)
    ensures Insert(compact, item) == compact + [item]
  {
    if KeyOf(item).Some? {
      IndexedKey(compact, indexByKey, KeyOf(item).value);
    }
  }

  lemma IndexSame(compact: seq<Summary>, indexByKey: map<string, nat>, item: Summary)
    requires Indexed(compact, indexByKey) && UniqueKeys(compact)
    requires KeyOf(item).Some? && KeyOf(item).value in indexByKey
    ensures Indexed(compact[indexByKey[KeyOf(item).value] := item], indexByKey)
    ensures Insert(compact, item) == compact[indexByKey[KeyOf(item).value] := item]
  {
    var key := KeyOf(item).value;
    IndexedKey(compact, indexByKey, key);
    ReplaceAt(compact, key, item, indexByKey[key]);
  }

  lemma DedupeStep(items: seq<Summary>, n: nat)
    requires n < |items|
    ensures Dedupe(items[..n + 1]) == Insert(Dedupe(items[..n]), items[n])
  {
    assert items[..n + 1] == items[..n] + [items[n]];
    DedupeSnoc(items[..n], items[n]);
  }

  method DedupeLoop(items: seq<Summary>) returns (compact: seq<Summary>)
    ensures compact == Dedupe(items)
  {
    compact := [];
    var indexByKey: map<string, nat> := map[];
    for n := 0 to |items|
      invariant compact == Dedupe(items[..n])
      invariant Indexed(compact, indexByKey)
    {
      var item := items[n];
      DedupeStep(items, n);
      DedupeIsUnique(items[..n]);
      var key := KeyOf(item);
      if key.None? {
        IndexMore(compact, indexByKey, item);
        compact := compact + [item];
      } else if key.value !in indexByKey {
        IndexMore(compact, indexByKey, item);
        indexByKey := indexByKey[key.value := |compact|];
        compact := compact + [item];
      } else {
        IndexSame(compact, indexByKey, item);
        var prior := indexByKey[key.value];
        compact := compact[prior := item];
      }
    }
    assert items[..|items|] == items;
  }

  /** `items[-n:]`: the last `n` items, all of them for 0, and all but the first `-n` for a negative `n`. */
  function Newest(items: seq<Summary>, n: int): seq<Summary> {
    if n == 0 || n >= |items| then items
    else if n > 0 then items[|items| - n..]
    else if -n >= |items| then []
    else items[-n..]
  }

  lemma NewestIsUnique(items: seq<Summary>, n: int)
    requires UniqueKeys(items)
    ensures UniqueKeys(Newest(items, n))
  {
  }

  /** Loading what was saved gives back the saved list exactly if the limit is not negative, or nothing
      was left to save. */
  lemma ReloadExactly(items: seq<Summary>, maxItems: int)
    ensures var saved := Newest(Dedupe(items), maxItems);
            Newest(Dedupe(saved), maxItems) == saved <==> maxItems >= 0 || saved == []
  {
    var saved := Newest(Dedupe(items), maxItems);
    DedupeIsUnique(items);
    NewestIsUnique(Dedupe(items), maxItems);
    UniqueIsFixed(saved);
    if maxItems < 0 && saved != [] {
      assert |Newest(saved, maxItems)| < |saved|;
    }
  }

  /** Two summaries saved with a limit of -1: one is left, and reloading leaves none. */
  lemma NegativeLimitDropsAgain(a: Summary, b: Summary)
    requires KeyOf(a).None? && KeyOf(b).None?
    ensures Newest(Dedupe([a, b]), -1) == [b] && Newest(Dedupe([b]), -1) == []
  {
    UniqueIsFixed([a, b]);
    UniqueIsFixed([b]);
  }

  /** The summary that was just appended is in the list, whatever it repeats, unless a negative limit cuts
      it off. */
  lemma AppendedIsKept(items: seq<Summary>, item: Summary, maxItems: int)
    requires UniqueKeys(items) && (maxItems > 0 ==> |items| <= maxItems) && maxItems >= 0
    ensures var after := Newest(Dedupe(items + [item]), maxItems);
            (exists i :: 0 <= i < |after| && after[i] == item) && (maxItems > 0 ==> |after| <= maxItems)
  {
    DedupeSnoc(items, item);
    UniqueIsFixed(items);
    var all := Insert(items, item);
    var after := Newest(all, maxItems);
    var known := KeyOf(item).Some? && Find(items, KeyOf(item).value) < |items|;
    var i := if known then Find(items, KeyOf(item).value) else |items|;
    assert all[i] == item;
    if maxItems > 0 && |all| > maxItems {
      assert after[|after| - 1] == item;
    } else {
      assert after[i] == item;
    }
  }

  class RunHistoryStore {
    const maxItems: int
    var items: seq<Summary>
    var file: Option<seq<Summary>>

    ghost predicate Valid()
      reads this
    {
      UniqueKeys(items) && (maxItems > 0 ==> |items| <= maxItems)
    }

    /** A file that is missing or no list counts as empty. */
    constructor (file: Option<seq<Summary>>, maxItems: int := 20)
      ensures Valid() && this.maxItems == maxItems && this.file == file
      ensures items == Newest(Dedupe(if file.Some? then file.value else []), maxItems)
    {
      var data := if file.Some? then file.value else [];
      var compact := DedupeLoop(data);
      DedupeIsUnique(data);
      NewestIsUnique(compact, maxItems);
      this.maxItems, this.file, items := maxItems, file, Newest(compact, maxItems);
    }

    method Append(summary: Summary, now: real) returns (item: Summary)
      requires Valid()
      modifies this`items, this`file
      ensures Valid()
      ensures item == if summary.capturedAt.None? then summary.(capturedAt := Some(now)) else summary
      ensures items == Newest(Dedupe(old(items) + [item]), maxItems) && file == Some(items)
      ensures maxItems >= 0 ==> exists i :: 0 <= i < |items| && items[i] == item
    {
      item := if summary.capturedAt.None? then summary.(capturedAt := Some(now)) else summary;
      if maxItems >= 0 {
        AppendedIsKept(items, item, maxItems);
      }
      var compact := DedupeLoop(items + [item]);
      DedupeIsUnique(items + [item]);
      NewestIsUnique(compact, maxItems);
      items := Newest(compact, maxItems);
      file := Some(items);
    }
  }
}
