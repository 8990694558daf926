/** The event bus: bounded replay for late subscribers and drop-oldest queues, checked against the
    unbounded log of all events. */
module EventBus {
  const QUEUE_LIMIT := 256

  datatype BridgeEvent = BridgeEvent(sequence: nat, event: string, data: string)

  /** Sequence numbers count the events from 1. */
  ghost predicate Numbered(log: seq<BridgeEvent>) {
    forall i :: 0 <= i < |log| ==> log[i].sequence == i + 1
  }

  ghost predicate Increasing(events: seq<BridgeEvent>) {
    forall i, j :: 0 <= i < j < |events| ==> events[i].sequence < events[j].sequence
  }

  /** The past of a queue: the log position of the first event it was offered, the position of its
      head, what its subscriber has consumed, and how many events it dropped. */
  datatype Track = Track(first: nat, head: nat, taken: seq<BridgeEvent>, dropped: nat)

  /** The queue holds a gap-free block of the log up to `end`; what was consumed is older and strictly
      increasing, and it is everything from the first event on if nothing was dropped. */
  ghost predicate Block(items: seq<BridgeEvent>, t: Track, log: seq<BridgeEvent>, end: nat) {
    && t.head <= end <= |log| && items == log[t.head..end] && |items| <= QUEUE_LIMIT
    && Increasing(t.taken) && (t.taken != [] ==> t.taken[|t.taken| - 1].sequence <= t.head)
    && t.first <= t.head && (t.dropped == 0 ==> t.taken == log[t.first..t.head])
  }

  /** `put_nowait`, after making room when the queue is full. */
  function Offer(items: seq<BridgeEvent>, item: BridgeEvent): seq<BridgeEvent> {
    (if |items| >= QUEUE_LIMIT then items[1..] else items) + [item]
  }

  function OfferTrack(items: seq<BridgeEvent>, t: Track): Track {
    if |items| >= QUEUE_LIMIT then t.(head := t.head + 1, dropped := t.dropped + 1) else t
  }

  lemma OfferKeepsBlock(items: seq<BridgeEvent>, t: Track, log: seq<BridgeEvent>, item: BridgeEvent)
    requires Block(items, t, log, |log|)
    ensures Block(Offer(items, item), OfferTrack(items, t), log + [item], |log| + 1)
  {
    var all, t' := log + [item], OfferTrack(items, t);
    assert all[t.head..|log| + 1] == log[t.head..|log|] + [item];
    assert |items| >= QUEUE_LIMIT ==> all[t.head + 1..|log| + 1] == log[t.head..|log|][1..] + [item];
    assert all[t.first..t.head] == log[t.first..t.head];
  }

  lemma LogGrows(items: seq<BridgeEvent>, t: Track, log: seq<BridgeEvent>, item: BridgeEvent, end: nat)
    requires Block(items, t, log, end)
    ensures Block(items, t, log + [item], end)
  {
    var all := log + [item];
    assert all[t.head..end] == log[t.head..end];
    assert all[t.first..t.head] == log[t.first..t.head];
  }

  lemma TakeKeepsBlock(items: seq<BridgeEvent>, t: Track, log: seq<BridgeEvent>, end: nat)
    requires Block(items, t, log, end) && Numbered(log) && items != []
    ensures Block(items[1..], t.(head := t.head + 1, taken := t.taken + [items[0]]), log, end)
  {
    assert items[1..] == log[t.head + 1..end];
    assert items[0] == log[t.head];
    assert log[t.first..t.head + 1] == log[t.first..t.head] + [log[t.head]];
  }

  /** A replay longer than a queue would leave a hole: once the subscriber's queue is filled with the
      first 256 events of the replay, the next event does not follow them. */
  lemma LongReplayLeavesGap(log: seq<BridgeEvent>, start: nat, item: BridgeEvent)
    requires Numbered(log) && item.sequence == |log| + 1
    requires start + QUEUE_LIMIT < |log|
    ensures var q := Offer(log[start..start + QUEUE_LIMIT], item);
            |q| == QUEUE_LIMIT && q[QUEUE_LIMIT - 1].sequence > q[QUEUE_LIMIT - 2].sequence + 1
  {
    var q := Offer(log[start..start + QUEUE_LIMIT], item);
    assert q[QUEUE_LIMIT - 2] == log[start + QUEUE_LIMIT - 1];
  }

  /** The last `size` elements: what a bounded deque keeps of everything appended to it. */
  function Tail(log: seq<BridgeEvent>, size: nat): seq<BridgeEvent> {
    if |log| <= size then log else log[|log| - size..]
  }

  lemma TailSnoc(log: seq<BridgeEvent>, size: nat, item: BridgeEvent)
    ensures Tail(Tail(log, size) + [item], size) == Tail(log + [item], size)
  {
  }

  lemma NumberedSnoc(log: seq<BridgeEvent>, item: BridgeEvent)
    requires Numbered(log) && item.sequence == |log| + 1
    ensures Numbered(log + [item])
  {
  }

  ghost predicate IsSuffix(items: seq<BridgeEvent>, log: seq<BridgeEvent>) {
    |items| <= |log| && items == log[|log| - |items|..]
  }

  lemma HistoryIsSuffix(log: seq<BridgeEvent>, size: nat)
    ensures IsSuffix(Tail(log, size), log) && IsSuffix([], log)
    ensures |Tail(log, size)| == if |log| < size then |log| else size
  {
  }

  // ----- all queues together -----

  /** Every queue is a block of the log; that of a subscriber ends at the newest event. */
  ghost predicate AllBlocks(queues: map<nat, seq<BridgeEvent>>, tracks: map<nat, Track>, subscribers: set<nat>,
                            log: seq<BridgeEvent>) {
    && tracks.Keys == queues.Keys && subscribers <= queues.Keys
    && (forall q :: q in queues ==> Block(queues[q], tracks[q], log, tracks[q].head + |queues[q]|))
    && (forall q :: q in subscribers ==> tracks[q].head + |queues[q]| == |log|)
  }

  /** The queues after one event went to the subscribers in `to`. */
  function Pushed(queues: map<nat, seq<BridgeEvent>>, to: set<nat>, item: BridgeEvent): map<nat, seq<BridgeEvent>> {
    map q | q in queues :: if q in to then Offer(queues[q], item) else queues[q]
  }

  ghost function PushedTracks(queues: map<nat, seq<BridgeEvent>>, tracks: map<nat, Track>, to: set<nat>)
      : map<nat, Track>
    requires tracks.Keys == queues.Keys
  {
    map q | q in tracks :: if q in to then OfferTrack(queues[q], tracks[q]) else tracks[q]
  }

  lemma PushOne(items: seq<BridgeEvent>, t: Track, log: seq<BridgeEvent>, item: BridgeEvent, live: bool)
    requires Block(items, t, log, t.head + |items|) && (live ==> t.head + |items| == |log|)
    ensures var items' := if live then Offer(items, item) else items;
            var t' := if live then OfferTrack(items, t) else t;
            Block(items', t', log + [item], t'.head + |items'|) && (live ==> t'.head + |items'| == |log| + 1)
  {
    if live {
      OfferKeepsBlock(items, t, log, item);
    } else {
      LogGrows(items, t, log, item, t.head + |items|);
    }
  }

  lemma PushKeepsBlocks(queues: map<nat, seq<BridgeEvent>>, tracks: map<nat, Track>, to: set<nat>,
                        log: seq<BridgeEvent>, item: BridgeEvent)
    requires AllBlocks(queues, tracks, to, log)
    ensures AllBlocks(Pushed(queues, to, item), PushedTracks(queues, tracks, to), to, log + [item])
  {
    forall q | q in queues
      ensures var items, t := Pushed(queues, to, item)[q], PushedTracks(queues, tracks, to)[q];
              Block(items, t, log + [item], t.head + |items|) && (q in to ==> t.head + |items| == |log| + 1)
    {
      PushOne(queues[q], tracks[q], log, item, q in to);
    }
  }

  /** The past of a queue that starts with the newest `n` events of a log of length `end`. */
  function NewTrack(end: nat, n: nat): Track {
    if n <= end then Track(end - n, end - n, [], 0) else Track(0, 0, [], 0)
  }

  lemma NewQueueKeepsBlocks(queues: map<nat, seq<BridgeEvent>>, tracks: map<nat, Track>, subscribers: set<nat>,
                            log: seq<BridgeEvent>, q: nat, items: seq<BridgeEvent>)
    requires AllBlocks(queues, tracks, subscribers, log) && q !in queues
    requires IsSuffix(items, log) && |items| <= QUEUE_LIMIT
    ensures AllBlocks(queues[q := items], tracks[q := NewTrack(|log|, |items|)], subscribers + {q}, log)
  {
    var k := |log| - |items|;
    assert log[k..] == log[k..|log|] && log[k..k] == [];
    assert Block(items, Track(k, k, [], 0), log, |log|);
  }

  lemma TakeOneKeepsBlocks(queues: map<nat, seq<BridgeEvent>>, tracks: map<nat, Track>, subscribers: set<nat>,
                           log: seq<BridgeEvent>, q: nat)
    requires AllBlocks(queues, tracks, subscribers, log) && Numbered(log) && q in queues && queues[q] != []
    ensures var t, items := tracks[q], queues[q];
            AllBlocks(queues[q := items[1..]], tracks[q := t.(head := t.head + 1, taken := t.taken + [items[0]])],
                      subscribers, log)
  {
    TakeKeepsBlock(queues[q], tracks[q], log, tracks[q].head + |queues[q]|);
  }

  ghost predicate Below(names: set<nat>, limit: nat) {
    forall q :: q in names ==> q < limit
  }

  lemma PushedBelow(queues: map<nat, seq<BridgeEvent>>, to: set<nat>, item: BridgeEvent, limit: nat)
    requires Below(queues.Keys, limit)
    ensures Below(Pushed(queues, to, item).Keys, limit)
  {
  }

  lemma NewBelow(queues: map<nat, seq<BridgeEvent>>, q: nat, items: seq<BridgeEvent>)
    requires Below(queues.Keys, q)
    ensures Below(queues[q := items].Keys, q + 1) && q !in queues
  {
  }

  class BridgeEventBus {
    const replaySize: nat
    var sequence: nat
    var replay: seq<BridgeEvent>
    var queues: map<nat, seq<BridgeEvent>>
    var subscribers: set<nat>
    var nextQueue: nat
    ghost var log: seq<BridgeEvent>
    ghost var tracks: map<nat, Track>

    ghost predicate Valid()
      reads this
    {
      && sequence == |log| && Numbered(log) && replay == Tail(log, replaySize)
      && Below(queues.Keys, nextQueue)
      && AllBlocks(queues, tracks, subscribers, log)
    }

    constructor (replaySize: nat := 200)
      ensures Valid() && log == [] && this.replaySize == replaySize && subscribers == {}
    {
      this.replaySize := replaySize;
      sequence, replay, queues, subscribers, nextQueue := 0, [], map[], {}, 0;
      log, tracks := [], map[];
    }

    /** A new event reaches the log, the replay and every subscriber. */
    method Emit(event: string, data: string) returns (item: BridgeEvent)
      requires Valid()
      modifies this
      ensures Valid() && subscribers == old(subscribers)
      ensures log == old(log) + [item] && item == BridgeEvent(|log|, event, data)
      ensures queues == Pushed(old(queues), subscribers, item)
    {
      sequence := sequence + 1;
      item := BridgeEvent(sequence, event, data);
      replay := Tail(replay + [item], replaySize);
      TailSnoc(log, replaySize, item);
      NumberedSnoc(log, item);
      PushKeepsBlocks(queues, tracks, subscribers, log, item);
      PushedBelow(queues, subscribers, item, nextQueue);
      ghost var before := queues;
      Push(item);
      Commit(Pushed(before, subscribers, item), PushedTracks(before, tracks, subscribers), log + [item]);
    }

    /** Brings the ghost record in line with a changed bus. */
    ghost method Commit(newQueues: map<nat, seq<BridgeEvent>>, newTracks: map<nat, Track>, newLog: seq<BridgeEvent>)
      requires newQueues == queues && AllBlocks(newQueues, newTracks, subscribers, newLog)
      requires sequence == |newLog| && Numbered(newLog) && replay == Tail(newLog, replaySize)
      requires Below(newQueues.Keys, nextQueue)
      modifies this`tracks, this`log
      ensures Valid() && tracks == newTracks && log == newLog
    {
      tracks, log := newTracks, newLog;
    }

    /** Hands an event to each subscriber; a full queue loses its oldest event first. */
    method Push(item: BridgeEvent)
      requires subscribers <= queues.Keys
      modifies this`queues
      ensures queues == Pushed(old(queues), subscribers, item)
    {
      ghost var before := queues;
      var todo := subscribers;
      while todo != {}
        invariant todo <= subscribers && queues == Pushed(before, subscribers - todo, item)
        decreases todo
      {
        var q :| q in todo;
        var items := queues[q];
        if |items| >= QUEUE_LIMIT {
          items := items[1..];
        }
        queues := queues[q := items + [item]];
        todo := todo - {q};
      }
      assert subscribers - todo == subscribers;
    }

    /** A new queue, filled with the replay. It raises, leaving the queue subscribed with the oldest
        part of the replay, exactly when the replay does not fit. */
    method Subscribe(withReplay: bool) returns (q: nat, raised: bool)
      requires Valid()
      modifies this`queues, this`subscribers, this`nextQueue, this`tracks, this`log
      ensures log == old(log) && q !in old(queues) && subscribers == old(subscribers) + {q}
      ensures raised <==> withReplay && |replay| > QUEUE_LIMIT
      ensures q in queues && queues == old(queues)[q := queues[q]]
      ensures queues[q] == if raised then replay[..QUEUE_LIMIT] else if withReplay then replay else []
      ensures !raised ==> Valid() && tracks == old(tracks)[q := NewTrack(|log|, |queues[q]|)]
    {
      var items;
      items, raised := Fill(if withReplay then replay else []);
      HistoryIsSuffix(log, replaySize);
      q := AddQueue(items, !raised);
    }

    method AddQueue(items: seq<BridgeEvent>, ghost whole: bool) returns (q: nat)
      requires Valid() && (whole ==> IsSuffix(items, log) && |items| <= QUEUE_LIMIT)
      modifies this`queues, this`subscribers, this`nextQueue, this`tracks, this`log
      ensures log == old(log) && q !in old(queues) && subscribers == old(subscribers) + {q}
      ensures queues == old(queues)[q := items]
      ensures whole ==> Valid() && tracks == old(tracks)[q := NewTrack(|log|, |items|)]
    {
      q := nextQueue;
      NewBelow(queues, q, items);
      ghost var newQueues, newTracks := queues[q := items], tracks;
      if whole {
        newTracks := tracks[q := NewTrack(|log|, |items|)];
        NewQueueKeepsBlocks(queues, tracks, subscribers, log, q, items);
      }
      nextQueue := nextQueue + 1;
      subscribers := subscribers + {q};
      queues := queues[q := items];
      if whole {
        Commit(newQueues, newTracks, log);
      }
    }

    static method Fill(history: seq<BridgeEvent>) returns (items: seq<BridgeEvent>, raised: bool)
      ensures raised <==> |history| > QUEUE_LIMIT
      ensures items == if raised then history[..QUEUE_LIMIT] else history
    {
      items := [];
      for i := 0 to |history|
        invariant items == history[..i] && i <= QUEUE_LIMIT
      {
        if |items| == QUEUE_LIMIT {
          return items, true;
        }
        items := items + [history[i]];
      }
      return items, false;
    }

    method Unsubscribe(q: nat)
      requires Valid()
      modifies this`subscribers
      ensures Valid() && subscribers == old(subscribers) - {q}
    {
      subscribers := subscribers - {q};
    }

    /** The subscriber consumes the oldest event of its queue. */
    method Take(q: nat) returns (item: BridgeEvent)
      requires Valid() && q in queues && queues[q] != []
      modifies this`queues, this`tracks, this`log
      ensures Valid() && log == old(log)
      ensures item == old(queues)[q][0] && queues == old(queues)[q := old(queues)[q][1..]]
      ensures var t := old(tracks)[q];
              tracks == old(tracks)[q := t.(head := t.head + 1, taken := t.taken + [item])]
    {
      var items := queues[q];
      item := items[0];
      ghost var t := tracks[q];
      TakeOneKeepsBlocks(queues, tracks, subscribers, log, q);
      ghost var before := queues;
      queues := queues[q := items[1..]];
      Commit(before[q := items[1..]], tracks[q := t.(head := t.head + 1, taken := t.taken + [item])], log);
    }
  }

  /** A subscriber's queue is a run of consecutive sequence numbers that ends at the newest event. */
  lemma QueueIsConsecutive(bus: BridgeEventBus, q: nat)
    requires bus.Valid() && q in bus.subscribers
    ensures var items := bus.queues[q];
            |items| <= QUEUE_LIMIT
            && forall i :: 0 <= i < |items| ==> items[i].sequence == bus.sequence - |items| + 1 + i
  {
    assert Block(bus.queues[q], bus.tracks[q], bus.log, |bus.log|);
  }

  /** A subscriber whose queue never dropped has seen, or still has before it, every event from the
      first it was offered to the newest. */
  lemma NothingMissed(bus: BridgeEventBus, q: nat)
    requires bus.Valid() && q in bus.subscribers && bus.tracks[q].dropped == 0
    ensures bus.tracks[q].taken + bus.queues[q] == bus.log[bus.tracks[q].first..]
  {
    var t := bus.tracks[q];
    assert Block(bus.queues[q], t, bus.log, |bus.log|);
    assert bus.log[t.first..] == bus.log[t.first..t.head] + bus.log[t.head..|bus.log|];
  }

  /** What any subscriber has consumed is strictly increasing, and older than what it still holds. */
  lemma ConsumedIncreasing(bus: BridgeEventBus, q: nat)
    requires bus.Valid() && q in bus.queues
    ensures Increasing(bus.tracks[q].taken + bus.queues[q])
  {
    var items, t := bus.queues[q], bus.tracks[q];
    assert Block(items, t, bus.log, t.head + |items|);
    var all := t.taken + items;
    forall i, j | 0 <= i < j < |all| ensures all[i].sequence < all[j].sequence {
      if i < |t.taken| && j >= |t.taken| {
        assert t.taken[i].sequence <= t.taken[|t.taken| - 1].sequence;
      }
    }
  }
}
