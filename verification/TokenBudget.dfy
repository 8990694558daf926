/** The rolling hourly token budget: the pruned window always agrees with the full log of usage. */
module TokenBudget {
  import opened Options

  const HOUR := 3600.0

  datatype Usage = Usage(at: real, tokens: nat)

  /** Tokens used at or after a time. */
  function SumSince(log: seq<Usage>, from: real): nat {
    if log == [] then 0
    else (if log[0].at >= from then log[0].tokens else 0) + SumSince(log[1..], from)
  }

  /** Tokens used in a closed interval. */
  function SumBetween(log: seq<Usage>, from: real, to: real): nat {
    if log == [] then 0
    else (if from <= log[0].at <= to then log[0].tokens else 0) + SumBetween(log[1..], from, to)
  }

  function Sum(log: seq<Usage>): nat {
    if log == [] then 0 else log[0].tokens + Sum(log[1..])
  }

  ghost predicate Sorted(log: seq<Usage>) {
    forall i, j :: 0 <= i < j < |log| ==> log[i].at <= log[j].at
  }

  ghost predicate Upto(log: seq<Usage>, now: real) {
    forall i :: 0 <= i < |log| ==> log[i].at <= now
  }

  lemma {:induction false} SumSinceConcat(a: seq<Usage>, b: seq<Usage>, from: real)
    ensures SumSince(a + b, from) == SumSince(a, from) + SumSince(b, from)
  {
    if a == [] {
      assert a + b == b;
    } else {
      assert (a + b)[1..] == a[1..] + b;
      SumSinceConcat(a[1..], b, from);
    }
  }

  lemma {:induction false} SumSinceOld(log: seq<Usage>, from: real)
    requires forall i :: 0 <= i < |log| ==> log[i].at < from
    ensures SumSince(log, from) == 0
  {
    if log != [] {
      SumSinceOld(log[1..], from);
    }
  }

  lemma {:induction false} SumSinceRecent(log: seq<Usage>, from: real)
    requires forall i :: 0 <= i < |log| ==> log[i].at >= from
    ensures SumSince(log, from) == Sum(log)
  {
    if log != [] {
      SumSinceRecent(log[1..], from);
    }
  }

  lemma {:induction false} SumSinceMonotone(log: seq<Usage>, from: real, later: real)
    requires from <= later
    ensures SumSince(log, later) <= SumSince(log, from)
  {
    if log != [] {
      SumSinceMonotone(log[1..], from, later);
    }
  }

  lemma {:induction false} BetweenIsSince(log: seq<Usage>, from: real, to: real, start: real)
    requires start <= from
    ensures SumBetween(log, from, to) <= SumSince(log, start)
  {
    if log != [] {
      BetweenIsSince(log[1..], from, to, start);
    }
  }

  lemma {:induction false} BetweenConcat(a: seq<Usage>, b: seq<Usage>, from: real, to: real)
    ensures SumBetween(a + b, from, to) == SumBetween(a, from, to) + SumBetween(b, from, to)
  {
    if a == [] {
      assert a + b == b;
    } else {
      assert (a + b)[1..] == a[1..] + b;
      BetweenConcat(a[1..], b, from, to);
    }
  }

  lemma {:induction false} BetweenOutside(log: seq<Usage>, from: real, to: real)
    requires forall i :: 0 <= i < |log| ==> !(from <= log[i].at <= to)
    ensures SumBetween(log, from, to) == 0
  {
    if log != [] {
      BetweenOutside(log[1..], from, to);
    }
  }

  // ----- every interval of a run -----

  /** No record of the run raised: when usage `i` was recorded, the total at the second clock reading
      `totals[i]`, at most `gap` after the first, was within the cap. */
  ghost predicate Accepted(log: seq<Usage>, totals: seq<real>, cap: int, gap: real) {
    |totals| == |log| && forall i :: 0 <= i < |log| ==> Within(log, i, totals[i], cap, gap)
  }

  ghost predicate Within(log: seq<Usage>, i: nat, total: real, cap: int, gap: real)
    requires i < |log|
  {
    log[i].at <= total <= log[i].at + gap && SumSince(log[..i + 1], total - HOUR) <= cap
  }

  lemma AcceptedSnoc(log: seq<Usage>, totals: seq<real>, cap: int, gap: real, usage: Usage, again: real)
    requires Accepted(log, totals, cap, gap)
    requires usage.at <= again && SumSince(log + [usage], again - HOUR) <= cap
    ensures Accepted(log + [usage], totals + [again], cap, Max(gap, again - usage.at))
  {
    var all, wide := log + [usage], Max(gap, again - usage.at);
    forall i | 0 <= i < |log| ensures Within(all, i, totals[i], cap, wide) {
      assert all[..i + 1] == log[..i + 1];
      assert Within(log, i, totals[i], cap, gap);
    }
    assert all[..|log| + 1] == all;
  }

  /** Every closed interval anywhere in the run, an hour long less the gap between the two clock
      readings of one call, sums to at most the cap. With one reading per call the gap is zero. */
  lemma EveryIntervalWithinCap(log: seq<Usage>, totals: seq<real>, cap: int, gap: real, from: real)
    requires Sorted(log) && Accepted(log, totals, cap, gap) && cap >= 0
    ensures SumBetween(log, from, from + HOUR - gap) <= cap
  {
    var to := from + HOUR - gap;
    var n := LastInside(log, from, to, |log|);
    BetweenPrefix(log, n, from, to);
    if n == 0 {
      assert log[..0] == [];
    } else {
      assert Within(log, n - 1, totals[n - 1], cap, gap);
      BetweenIsSince(log[..n], from, to, totals[n - 1] - HOUR);
      assert log[..n] == log[..n - 1 + 1];
    }
  }

  lemma BetweenPrefix(log: seq<Usage>, n: nat, from: real, to: real)
    requires n <= |log| && forall i :: n <= i < |log| ==> !(from <= log[i].at <= to)
    ensures SumBetween(log, from, to) == SumBetween(log[..n], from, to)
  {
    assert log == log[..n] + log[n..];
    BetweenConcat(log[..n], log[n..], from, to);
    forall i | 0 <= i < |log[n..]| ensures !(from <= log[n..][i].at <= to) {
      assert log[n..][i] == log[n + i];
    }
    BetweenOutside(log[n..], from, to);
  }

  /** The length of the shortest prefix that holds all usage of an interval. */
  lemma {:induction false} LastInside(log: seq<Usage>, from: real, to: real, m: nat) returns (n: nat)
    requires m <= |log|
    requires forall i :: m <= i < |log| ==> !(from <= log[i].at <= to)
    ensures n <= |log| && forall i :: n <= i < |log| ==> !(from <= log[i].at <= to)
    ensures n > 0 ==> from <= log[n - 1].at <= to
  {
    if m == 0 || from <= log[m - 1].at <= to {
      n := m;
    } else {
      n := LastInside(log, from, to, m - 1);
    }
  }

  /** A gap between the two readings really costs that much: here no record raises and a closed hour
      still exceeds the cap. */
  lemma GapCanExceedCap()
    ensures var log := [Usage(0.0, 6), Usage(3600.0, 6)];
            Sorted(log) && Accepted(log, [0.0, 3600.5], 10, 0.5) && SumBetween(log, 0.0, HOUR) == 12
  {
    var log := [Usage(0.0, 6), Usage(3600.0, 6)];
    var second := log[1..];
    assert Within(log, 0, 0.0, 10, 0.5) by { assert log[..1] == [Usage(0.0, 6)] && [Usage(0.0, 6)][1..] == []; }
    assert second == [Usage(3600.0, 6)] && second[1..] == [];
    assert log[..1] == [Usage(0.0, 6)] && log[..1][1..] == [];
    assert log[..2] == log;
    assert SumSince(log, 0.5) == 0 + SumSince(second, 0.5);
    assert Within(log, 1, 3600.5, 10, 0.5);
    assert SumBetween(log, 0.0, HOUR) == 6 + SumBetween(second, 0.0, HOUR);
  }

  /** Whatever was accepted: every closed interval of this length sums to at most the cap. */
  ghost predicate KeepsIntervals(cap: int, gap: real, length: real) {
    forall log, totals, from :: Sorted(log) && Accepted(log, totals, cap, gap) ==> KeptFrom(log, from, length, cap)
  }

  ghost predicate KeptFrom(log: seq<Usage>, from: real, length: real, cap: int) {
    SumBetween(log, from, from + length) <= cap
  }

  /** Two records of the whole cap, `length` apart, the second of which looks back from `gap` later. */
  lemma TwoFullRecords(cap: nat, gap: real, length: real)
    requires cap >= 1 && gap >= 0.0 && length >= 0.0 && length + gap > HOUR
    ensures var log := [Usage(0.0, cap), Usage(length, cap)];
            && Sorted(log) && Accepted(log, [0.0, length + gap], cap, gap)
            && SumBetween(log, 0.0, 0.0 + length) == 2 * cap
  {
    var log := [Usage(0.0, cap), Usage(length, cap)];
    var first, second := [Usage(0.0, cap)], [Usage(length, cap)];
    assert log == first + second && log[..1] == first && log[..2] == log;
    assert first[1..] == [] && second[1..] == [];
    SumSinceConcat(first, second, length + gap - HOUR);
    BetweenConcat(first, second, 0.0, 0.0 + length);
    assert Within(log, 0, 0.0, cap, gap);
    assert Within(log, 1, length + gap, cap, gap);
  }

  /** How long the intervals are that the guard keeps within the cap: exactly an hour less the gap. */
  lemma KeptIntervalsExactly(cap: nat, gap: real, length: real)
    requires cap >= 1 && gap >= 0.0 && length >= 0.0
    ensures KeepsIntervals(cap, gap, length) <==> length <= HOUR - gap
  {
    if length <= HOUR - gap {
      forall log, totals, from | Sorted(log) && Accepted(log, totals, cap, gap)
        ensures KeptFrom(log, from, length, cap)
      {
        EveryIntervalWithinCap(log, totals, cap, gap, from);
        ShorterBetween(log, from, from + length, from + HOUR - gap);
      }
    } else {
      TwoFullRecords(cap, gap, length);
      assert !KeptFrom([Usage(0.0, cap), Usage(length, cap)], 0.0, length, cap);
    }
  }

  lemma {:induction false} ShorterBetween(log: seq<Usage>, from: real, to: real, further: real)
    requires to <= further
    ensures SumBetween(log, from, to) <= SumBetween(log, from, further)
  {
    if log != [] {
      ShorterBetween(log[1..], from, to, further);
    }
  }

  lemma AcceptedGap(log: seq<Usage>, totals: seq<real>, cap: int, gap: real)
    requires Accepted(log, totals, cap, gap) && log != []
    ensures gap >= 0.0
  {
    assert Within(log, 0, totals[0], cap, gap);
  }

  /** Closed hours are kept within the cap exactly if the clock does not move between the two readings of a
      record. */
  lemma ClosedHourExactly(cap: nat, gap: real)
    requires cap >= 1
    ensures KeepsIntervals(cap, gap, HOUR) <==> gap <= 0.0
  {
    if gap >= 0.0 {
      KeptIntervalsExactly(cap, gap, HOUR);
    } else {
      forall log, totals, from | Sorted(log) && Accepted(log, totals, cap, gap)
        ensures KeptFrom(log, from, HOUR, cap)
      {
        if log != [] {
          AcceptedGap(log, totals, cap, gap);
        }
      }
    }
  }

  // ----- check, then record -----

  /** A request that was checked first: whenever the hour is looked at from its record on, the total
      is below the cap plus what the response used. */
  lemma CheckedTotalBounded(log: seq<Usage>, cap: int, checkedAt: real, used: Usage, later: real)
    requires SumSince(log, checkedAt - HOUR) < cap && checkedAt <= later
    ensures SumSince(log + [used], later - HOUR) <= cap - 1 + used.tokens
  {
    SumSinceMonotone(log, checkedAt - HOUR, later - HOUR);
    SumSinceConcat(log, [used], later - HOUR);
    assert [used][1..] == [];
  }

  /** Every record was checked before: the total at the check, and so from the record on, was below the
      cap without it. */
  ghost predicate CheckedRun(log: seq<Usage>, checks: seq<real>, cap: int) {
    |checks| == |log| && forall i :: 0 <= i < |log| ==> PassedCheck(log, i, checks[i], cap)
  }

  ghost predicate PassedCheck(log: seq<Usage>, i: nat, checkedAt: real, cap: int)
    requires i < |log|
  {
    checkedAt <= log[i].at && SumSince(log[..i], checkedAt - HOUR) < cap
  }

  lemma CheckedSnoc(log: seq<Usage>, checks: seq<real>, cap: int, checkedAt: real, used: Usage)
    requires CheckedRun(log, checks, cap)
    requires checkedAt <= used.at && SumSince(log, checkedAt - HOUR) < cap
    ensures CheckedRun(log + [used], checks + [checkedAt], cap)
  {
    var all := log + [used];
    forall i | 0 <= i < |log| ensures PassedCheck(all, i, checks[i], cap) {
      assert all[..i] == log[..i];
      assert PassedCheck(log, i, checks[i], cap);
    }
    assert all[..|log|] == log;
  }

  /** Over every run of check-then-record: at any time from a record on, before the next one, the total of the
      last hour is at most the cap, less one, plus what that response used. */
  lemma CheckedRunBounded(log: seq<Usage>, checks: seq<real>, cap: int, n: nat, later: real)
    requires CheckedRun(log, checks, cap) && 0 < n <= |log| && log[n - 1].at <= later
    ensures SumSince(log[..n], later - HOUR) <= cap - 1 + log[n - 1].tokens
  {
    assert PassedCheck(log, n - 1, checks[n - 1], cap);
    assert log[..n] == log[..n - 1] + [log[n - 1]];
    CheckedTotalBounded(log[..n - 1], cap, checks[n - 1], log[n - 1], later);
  }

  // ----- the guard -----

  /** What the clock-ordered deque keeps when it is pruned at `now`. */
  function Prune(events: seq<Usage>, now: real): seq<Usage> {
    if events != [] && events[0].at < now - HOUR then Prune(events[1..], now) else events
  }

  lemma SumOfRest(log: seq<Usage>, k: nat, from: real)
    requires k <= |log| && forall i :: 0 <= i < k ==> log[i].at < from
    requires forall i :: k <= i < |log| ==> log[i].at >= from
    ensures Sum(log[k..]) == SumSince(log, from)
  {
    var past, rest := log[..k], log[k..];
    assert log == past + rest;
    SumSinceConcat(past, rest, from);
    SumSinceOld(past, from);
    SumSinceRecent(rest, from);
  }

  /** Pruning the rest of a log leaves exactly its last hour. */
  lemma {:induction false} PruneIsLastHour(log: seq<Usage>, pruned: nat, now: real) returns (k: nat)
    requires Sorted(log) && pruned <= |log|
    requires forall i :: 0 <= i < pruned ==> log[i].at < now - HOUR
    ensures pruned <= k <= |log| && Prune(log[pruned..], now) == log[k..]
    ensures forall i :: 0 <= i < k ==> log[i].at < now - HOUR
    ensures Sum(log[k..]) == SumSince(log, now - HOUR)
    decreases |log| - pruned
  {
    if pruned < |log| && log[pruned].at < now - HOUR {
      assert log[pruned..][1..] == log[pruned + 1..];
      k := PruneIsLastHour(log, pruned + 1, now);
    } else {
      k := pruned;
      forall i | k <= i < |log| ensures log[i].at >= now - HOUR {
        assert log[k].at <= log[i].at || i == k;
      }
      SumOfRest(log, k, now - HOUR);
    }
  }

  datatype Recorded = Recorded(tokens: nat) | Exceeded(total: nat)

  function Max(a: real, b: real): real {
    if a >= b then a else b
  }

  /** A burst above the allowed rate keeps the downgrade on for a while, and nothing shortens it. */
  function NextUntil(tokens: nat, now: real, window: real, cap: int, multiplier: real, seconds: real, until: real)
      : (r: real)
    ensures until <= r
  {
    var rate := tokens as real / Max(window, 1.0);
    if rate > cap as real / HOUR * multiplier then Max(until, now + seconds) else until
  }

  function NextDowngrade(events: seq<Usage>, now: real, window: real, cap: int, multiplier: real, seconds: real,
                         until: real): (r: real)
    ensures until <= r
  {
    NextUntil(SumSince(events, now - window), now, window, cap, multiplier, seconds, until)
  }

  /** The tokens of the spike window are more than the cap's share of it, times the multiplier. */
  predicate IsBurst(events: seq<Usage>, now: real, window: real, cap: int, multiplier: real) {
    SumSince(events, now - window) as real * HOUR > cap as real * multiplier * Max(window, 1.0)
  }

  lemma DivideBack(x: real, y: real)
    requires y > 0.0
    ensures (x / y) * y == x
  {
  }

  lemma ScaleBoth(x: real, y: real, k: real)
    requires k > 0.0
    ensures x > y <==> x * k > y * k
  {
    if x > y {
      assert (x - y) * k > 0.0;
    } else {
      assert (y - x) * k >= 0.0;
    }
  }

  lemma Regrouped(x: real, y: real, z: real)
    ensures x * (y * z) == (x * y) * z
    ensures x * y * z == x * z * y
  {
  }

  /** Two rates compare like their cross products. */
  lemma RatesCompare(tokens: real, seconds: real, cap: real, hour: real, multiplier: real)
    requires seconds > 0.0 && hour > 0.0
    ensures tokens / seconds > cap / hour * multiplier <==> tokens * hour > cap * multiplier * seconds
  {
    var rate, base := tokens / seconds, cap / hour;
    var allowed := base * multiplier;
    DivideBack(tokens, seconds);
    DivideBack(cap, hour);
    ScaleBoth(rate, allowed, seconds);
    ScaleBoth(rate * seconds, allowed * seconds, hour);
    assert rate * seconds * hour == tokens * hour;
    assert allowed * seconds * hour == cap * multiplier * seconds by {
      Regrouped(allowed, seconds, hour);
      Regrouped(base, multiplier, hour);
      assert allowed * hour == cap * multiplier;
    }
  }

  /** What the guard goes by when it updates its downgrade. */
  datatype Update = Update(events: seq<Usage>, now: real)

  function DowngradeAfter(updates: seq<Update>, window: real, cap: int, multiplier: real, seconds: real): real {
    if updates == [] then 0.0
    else
      var last := updates[|updates| - 1];
      NextDowngrade(last.events, last.now, window, cap, multiplier, seconds,
                    DowngradeAfter(updates[..|updates| - 1], window, cap, multiplier, seconds))
  }

  lemma DowngradeSnoc(updates: seq<Update>, next: Update, window: real, cap: int, multiplier: real, seconds: real)
    ensures DowngradeAfter(updates + [next], window, cap, multiplier, seconds) ==
            NextDowngrade(next.events, next.now, window, cap, multiplier, seconds,
                          DowngradeAfter(updates, window, cap, multiplier, seconds))
  {
    assert (updates + [next])[..|updates|] == updates;
  }

  lemma NextExactly(update: Update, window: real, cap: int, multiplier: real, seconds: real, until: real, time: real)
    ensures time < NextDowngrade(update.events, update.now, window, cap, multiplier, seconds, until) <==>
            time < until || Downgrades(update, window, cap, multiplier, seconds, time)
  {
    var tokens := SumSince(update.events, update.now - window) as real;
    RatesCompare(tokens, Max(window, 1.0), cap as real, HOUR, multiplier);
  }

  /** The update met a burst, and its downgrade still lasts at `time`. */
  predicate Downgrades(update: Update, window: real, cap: int, multiplier: real, seconds: real, time: real) {
    IsBurst(update.events, update.now, window, cap, multiplier) && time < update.now + seconds
  }

  /** Over every run of updates: at a time that is not negative the guard is downgraded exactly if one of
      the updates met a burst that is not longer ago than the downgrade lasts. */
  lemma {:induction false} DowngradedExactly(updates: seq<Update>, window: real, cap: int, multiplier: real,
                                             seconds: real, time: real)
    requires time >= 0.0
    ensures time < DowngradeAfter(updates, window, cap, multiplier, seconds) <==>
            exists i :: 0 <= i < |updates| && Downgrades(updates[i], window, cap, multiplier, seconds, time)
  {
    if updates != [] {
      var n := |updates| - 1;
      var before, last := updates[..n], updates[n];
      DowngradedExactly(before, window, cap, multiplier, seconds, time);
      NextExactly(last, window, cap, multiplier, seconds,
                  DowngradeAfter(before, window, cap, multiplier, seconds), time);
      if i :| 0 <= i < n && Downgrades(before[i], window, cap, multiplier, seconds, time) {
        assert updates[i] == before[i];
      }
      if i :| 0 <= i < n && Downgrades(updates[i], window, cap, multiplier, seconds, time) {
        assert updates[i] == before[i];
      }
    }
  }

  /** A spike window that reaches back less than an hour from the latest reading sees the whole log. */
  lemma BurstOfLog(log: seq<Usage>, pruned: nat, events: seq<Usage>, clock: real, now: real, window: real)
    requires Holds(log, pruned, events, clock) && now - window >= clock - HOUR
    ensures SumSince(events, now - window) == SumSince(log, now - window)
  {
    assert log == log[..pruned] + log[pruned..];
    SumSinceConcat(log[..pruned], log[pruned..], now - window);
    SumSinceOld(log[..pruned], now - window);
  }

  /** The events are the log without its first `pruned` entries, which are more than an hour old. */
  ghost predicate Holds(log: seq<Usage>, pruned: nat, events: seq<Usage>, clock: real) {
    && Sorted(log) && Upto(log, clock)
    && pruned <= |log| && events == log[pruned..]
    && (forall i :: 0 <= i < pruned ==> log[i].at < clock - HOUR)
  }

  lemma HoldsOneMore(log: seq<Usage>, pruned: nat, events: seq<Usage>, clock: real, usage: Usage)
    requires Holds(log, pruned, events, clock) && clock <= usage.at
    ensures Holds(log + [usage], pruned, events + [usage], usage.at)
  {
  }

  class TokenBudgetGuard {
    const hourlyTokenCap: int
    const spikeWindow: real
    const spikeMultiplier: real
    const downgradeSeconds: real
    var usageEvents: seq<Usage>
    var downgradeUntil: real

    /** Everything ever recorded, the second clock reading of each record, the largest gap between the
        two readings of a record, whether a record has raised, the latest reading, how much of the log has
        been pruned, and the updates of the downgrade. */
    ghost var log: seq<Usage>
    ghost var totals: seq<real>
    ghost var gap: real
    ghost var raised: bool
    ghost var clock: real
    ghost var pruned: nat
    ghost var updates: seq<Update>

    ghost predicate Valid()
      reads this
    {
      && Holds(log, pruned, usageEvents, clock)
      && (!raised ==> Accepted(log, totals, hourlyTokenCap, gap))
      && downgradeUntil == DowngradeAfter(updates, spikeWindow, hourlyTokenCap, spikeMultiplier, downgradeSeconds)
    }

    constructor (cap: int, spikeWindow: real := 60.0, spikeMultiplier: real := 1.5, downgradeSeconds: real := 120.0)
      ensures Valid() && log == [] && !raised && gap == 0.0 && hourlyTokenCap == cap && updates == []
    {
      hourlyTokenCap := cap;
      this.spikeWindow, this.spikeMultiplier, this.downgradeSeconds := spikeWindow, spikeMultiplier, downgradeSeconds;
      usageEvents, downgradeUntil := [], 0.0;
      log, totals, gap, raised, clock, pruned, updates := [], [], 0.0, false, 0.0, 0, [];
    }

    method PruneAt(now: real)
      requires Valid() && clock <= now
      modifies this`usageEvents, this`clock, this`pruned
      ensures Valid() && clock == now
      ensures usageEvents == Prune(old(usageEvents), now)
      ensures Sum(usageEvents) == SumSince(log, now - HOUR)
    {
      ghost var whole := usageEvents;
      ghost var k := PruneIsLastHour(log, pruned, now);
      while usageEvents != [] && usageEvents[0].at < now - HOUR
        invariant Prune(usageEvents, now) == Prune(whole, now)
      {
        usageEvents := usageEvents[1..];
      }
      clock, pruned := now, k;
    }

    /** The total of the deque is the total of the whole log for the last hour. */
    method TotalTokensLastHour(now: real) returns (total: nat)
      requires Valid() && clock <= now
      modifies this`usageEvents, this`clock, this`pruned
      ensures Valid() && clock == now
      ensures total == SumSince(log, now - HOUR)
    {
      PruneAt(now);
      total := 0;
      assert usageEvents[0..] == usageEvents;
      for i := 0 to |usageEvents|
        invariant total + Sum(usageEvents[i..]) == Sum(usageEvents)
      {
        assert usageEvents[i..][1..] == usageEvents[i + 1..];
        total := total + usageEvents[i].tokens;
      }
    }

    /** `false` is the exception that refuses the request. */
    method CheckBeforeRequest(now: real) returns (ok: bool)
      requires Valid() && clock <= now
      modifies this`usageEvents, this`clock, this`pruned
      ensures Valid() && clock == now
      ensures ok <==> SumSince(log, now - HOUR) < hourlyTokenCap
    {
      var total := TotalTokensLastHour(now);
      var remaining := if hourlyTokenCap - total > 0 then hourlyTokenCap - total else 0;
      ok := remaining > 0;
    }

    /** Records a response; `now` and `again` are its two clock readings. The usage stays recorded also
        when the total is over the cap and the call raises. */
    method RecordUsage(tokens: int, now: real, again: real) returns (r: Recorded)
      requires Valid() && clock <= now <= again
      modifies this
      ensures Valid()
      ensures tokens <= 0 ==>
                && r == Recorded(0) && log == old(log) && raised == old(raised) && gap == old(gap)
                && usageEvents == old(usageEvents)
      ensures tokens > 0 ==>
                && log == old(log) + [Usage(now, tokens)]
                && var total := SumSince(log, again - HOUR);
                && r == (if total > hourlyTokenCap then Exceeded(total) else Recorded(tokens))
                && raised == (old(raised) || total > hourlyTokenCap)
                && gap == Max(old(gap), again - now)
      ensures updates == old(updates) + if tokens <= 0 || r.Exceeded? then [] else [Update(usageEvents, now)]
    {
      if tokens <= 0 {
        return Recorded(0);
      }
      ghost var log0, totals0, gap0, raised0 := log, totals, gap, raised;
      var total := Append(Usage(now, tokens), again);
      Settle(log0, totals0, gap0, raised0, Usage(now, tokens), again);
      if total > hourlyTokenCap {
        return Exceeded(total);
      }
      UpdateDowngradeState(now);
      return Recorded(tokens);
    }

    /** The record raises exactly when the last hour, at the second clock reading, is above the cap. */
    ghost method Settle(log0: seq<Usage>, totals0: seq<real>, gap0: real, raised0: bool, usage: Usage, again: real)
      requires Valid() && (!raised0 ==> Accepted(log0, totals0, hourlyTokenCap, gap0))
      requires log == log0 + [usage] && totals == totals0 + [again] && gap == Max(gap0, again - usage.at)
      requires usage.at <= again
      modifies this`raised
      ensures Valid() && raised == (raised0 || SumSince(log, again - HOUR) > hourlyTokenCap)
    {
      raised := raised0 || SumSince(log, again - HOUR) > hourlyTokenCap;
      if !raised {
        AcceptedSnoc(log0, totals0, hourlyTokenCap, gap0, usage, again);
      }
    }

    /** The entry of a usage, and the total at the second clock reading; whether the record raises is
        settled later. */
    method Append(usage: Usage, again: real) returns (total: nat)
      requires Valid() && clock <= usage.at <= again
      modifies this`usageEvents, this`log, this`totals, this`gap, this`raised, this`clock, this`pruned
      ensures Valid() && clock == again && raised
      ensures log == old(log) + [usage] && totals == old(totals) + [again]
      ensures gap == Max(old(gap), again - usage.at)
      ensures total == SumSince(log, again - HOUR)
    {
      HoldsOneMore(log, pruned, usageEvents, clock, usage);
      usageEvents := usageEvents + [usage];
      log, totals, gap, raised, clock := log + [usage], totals + [again], Max(gap, again - usage.at), true, usage.at;
      PruneAt(usage.at);
      total := TotalTokensLastHour(again);
    }

    method TokensSince(cutoff: real) returns (tokens: nat)
      ensures tokens == SumSince(usageEvents, cutoff)
    {
      tokens := 0;
      assert usageEvents[0..] == usageEvents;
      for i := 0 to |usageEvents|
        invariant tokens + SumSince(usageEvents[i..], cutoff) == SumSince(usageEvents, cutoff)
      {
        assert usageEvents[i..][1..] == usageEvents[i + 1..];
        if usageEvents[i].at >= cutoff {
          tokens := tokens + usageEvents[i].tokens;
        }
      }
    }

    method ExtendFor(windowTokens: nat, now: real) returns (until: real)
      ensures until == NextUntil(windowTokens, now, spikeWindow, hourlyTokenCap, spikeMultiplier, downgradeSeconds,
                                 downgradeUntil)
    {
      var observed := windowTokens as real / Max(spikeWindow, 1.0);
      var baseline := hourlyTokenCap as real / HOUR;
      until := downgradeUntil;
      if observed > baseline * spikeMultiplier {
        until := Max(until, now + downgradeSeconds);
      }
    }

    /** A burst above the allowed rate keeps the downgrade on for a while, and nothing shortens it. */
    method UpdateDowngradeState(now: real)
      requires Valid()
      modifies this`downgradeUntil, this`updates
      ensures Valid() && updates == old(updates) + [Update(usageEvents, now)]
    {
      DowngradeSnoc(updates, Update(usageEvents, now), spikeWindow, hourlyTokenCap, spikeMultiplier, downgradeSeconds);
      var windowTokens := TokensSince(now - spikeWindow);
      var until := ExtendFor(windowTokens, now);
      downgradeUntil := until;
      updates := updates + [Update(usageEvents, now)];
    }

    /** Whether only the cheap tier may be asked. */
    method Tier1Only(now: real) returns (downgraded: bool)
      requires Valid() && now >= 0.0
      ensures downgraded <==>
              exists i :: 0 <= i < |updates| && Downgrades(updates[i], spikeWindow, hourlyTokenCap, spikeMultiplier,
                                                           downgradeSeconds, now)
    {
      DowngradedExactly(updates, spikeWindow, hourlyTokenCap, spikeMultiplier, downgradeSeconds, now);
      downgraded := now < downgradeUntil;
    }
  }

  /** For a guard none of whose records raised: every closed interval of an hour less its largest gap. */
  lemma GuardKeepsEveryInterval(guard: TokenBudgetGuard, from: real)
    requires guard.Valid() && !guard.raised && guard.hourlyTokenCap >= 0
    ensures SumBetween(guard.log, from, from + HOUR - guard.gap) <= guard.hourlyTokenCap
  {
    EveryIntervalWithinCap(guard.log, guard.totals, guard.hourlyTokenCap, guard.gap, from);
  }

  /** The agent's use of a guard: every model call is checked before and recorded after. */
  class CheckedClient {
    const guard: TokenBudgetGuard
    ghost var checks: seq<real>

    ghost predicate Valid()
      reads this, guard
    {
      guard.Valid() && CheckedRun(guard.log, checks, guard.hourlyTokenCap)
    }

    constructor (guard: TokenBudgetGuard)
      requires guard.Valid() && guard.log == []
      ensures Valid() && this.guard == guard
    {
      this.guard, checks := guard, [];
    }

    /** One model call: `None` if the check refuses it, and else what recording its response gave. */
    method Call(checkedAt: real, tokens: int, now: real, again: real) returns (r: Option<Recorded>)
      requires Valid() && guard.clock <= checkedAt <= now <= again
      modifies this, guard
      ensures Valid()
      ensures r.None? <==> SumSince(old(guard.log), checkedAt - HOUR) >= guard.hourlyTokenCap
      ensures guard.log == old(guard.log) + if r.Some? && tokens > 0 then [Usage(now, tokens)] else []
    {
      var ok := guard.CheckBeforeRequest(checkedAt);
      if !ok {
        return None;
      }
      ghost var log := guard.log;
      var recorded := guard.RecordUsage(tokens, now, again);
      if tokens > 0 {
        CheckedSnoc(log, checks, guard.hourlyTokenCap, checkedAt, Usage(now, tokens));
        checks := checks + [checkedAt];
      }
      return Some(recorded);
    }
  }

  /** Over the whole run of a client, the total never exceeds the cap, less one, plus the last response. */
  lemma ClientTotalBounded(client: CheckedClient, n: nat, later: real)
    requires client.Valid() && 0 < n <= |client.guard.log| && client.guard.log[n - 1].at <= later
    ensures SumSince(client.guard.log[..n], later - HOUR)
            <= client.guard.hourlyTokenCap - 1 + client.guard.log[n - 1].tokens
  {
    CheckedRunBounded(client.guard.log, client.checks, client.guard.hourlyTokenCap, n, later);
  }
}
