/**
  One sweep of the revalidation scheduler over the activity tracker, the L1 cache and the queue.
 */
module RevalidateScheduler {
  import opened Records
  import opened Sequences
  import opened Ordering
  import opened Recency
  import opened RecencyTheorems
  import opened ActivityTracker
  import opened L1Cache
  import opened RefreshQueue

  datatype SweepResult = SweepResult(
    candidateKeys: nat, dueKeys: nat, notStaleKeys: nat, workerCount: nat, enqueued: nat, dropped: nat)

  datatype Policy = Policy(revalidateInterval: int, revalidateLookback: int, revalidateWorkers: nat)

  predicate IsDue(items: seq<Item>, key: string, now: int, interval: int) {
    match Find(items, key)
    case Some(record) => IsRevalidationDue(record.lastCheckedAt, now, interval)
    case None => false
  }

  predicate IsNotStale(items: seq<Item>, key: string, now: int, interval: int) {
    Find(items, key).Some? && !IsDue(items, key, now, interval)
  }

  /** The candidates that are cached and were last checked at least an interval ago. */
  function Due(items: seq<Item>, keys: seq<string>, now: int, interval: int): seq<string> {
    if keys == [] then []
    else
      var last := keys[|keys| - 1];
      Due(items, keys[..|keys| - 1], now, interval) + (if IsDue(items, last, now, interval) then [last] else [])
  }

  function NotStale(items: seq<Item>, keys: seq<string>, now: int, interval: int): nat {
    if keys == [] then 0
    else
      NotStale(items, keys[..|keys| - 1], now, interval)
      + (if IsNotStale(items, keys[|keys| - 1], now, interval) then 1 else 0)
  }

  /** What the cache still answers for a key that was not touched yet. */
  lemma {:induction false} TouchAllKeepsRecords(items: seq<Item>, keys: seq<string>, key: string)
    requires Distinct(items)
    ensures Distinct(TouchAll(items, keys)) && Total(TouchAll(items, keys)) == Total(items)
    ensures Find(TouchAll(items, keys), key) == Find(items, key)
  {
    if keys != [] {
      var init, last := keys[..|keys| - 1], keys[|keys| - 1];
      TouchAllKeepsRecords(items, init, key);
      var before := TouchAll(items, init);
      TouchDistinct(before, last);
      TouchTotal(before, last);
      if key != last && Find(before, last).Some? {
        FindWithout(before, last, key);
        assert Touch(before, last)[1..] == Without(before, last);
      }
    }
  }

  lemma TouchMiss(items: seq<Item>, key: string)
    requires Find(items, key) == None
    ensures Touch(items, key) == items
  {
  }

  method Select(cache: Cache, keys: seq<string>, now: int, policy: Policy) returns (dueKeys: seq<string>, notStale: nat)
    requires cache.Valid()
    modifies cache.Repr
    ensures cache.Valid() && cache.Repr == old(cache.Repr) && cache.buffers == old(cache.buffers)
    ensures cache.items == TouchAll(old(cache.items), keys)
    ensures dueKeys == Due(old(cache.items), keys, now, policy.revalidateInterval)
    ensures var items := old(cache.items);
            forall key :: key in dueKeys <==>
              && key in keys && Find(items, key).Some?
              && Find(items, key).value.lastCheckedAt + policy.revalidateInterval <= now
    ensures exists at :: TakenAt(dueKeys, keys, at)
    ensures NoRepeats(keys) ==>
              var items := old(cache.items);
              && NoRepeats(dueKeys)
              && notStale == |Fresh(items, keys, now, policy.revalidateInterval)|
    ensures notStale == NotStale(old(cache.items), keys, now, policy.revalidateInterval)
  {
    hide Cache.Valid, Find, Without, Distinct, Total, Touch, TakenAt, NoRepeats;
    dueKeys, notStale := [], 0;
    cache.ValidFacts();
    ghost var items := cache.items;
    for i := 0 to |keys|
      invariant cache.Valid() && cache.Repr == old(cache.Repr) && cache.buffers == old(cache.buffers)
      invariant cache.items == TouchAll(items, keys[..i])
      invariant dueKeys == Due(items, keys[..i], now, policy.revalidateInterval)
      invariant notStale == NotStale(items, keys[..i], now, policy.revalidateInterval)
    {
      var key := keys[i];
      assert keys[..i + 1][..i] == keys[..i];
      TouchAllKeepsRecords(items, keys[..i], key);
      cache.ValidFacts();
      if key == "" {
        TouchMiss(cache.items, key);
        continue;
      }
      var found := cache.Get(key);
      if found == None {
        continue;
      }
      var record := found.value;
      if !IsRevalidationDue(record.lastCheckedAt, now, policy.revalidateInterval) {
        notStale := notStale + 1;
        continue;
      }
      dueKeys := dueKeys + [key];
    }
    assert keys[..|keys|] == keys;
    DueFacts(items, keys, now, policy.revalidateInterval);
    ghost var at := DueInOrder(items, keys, now, policy.revalidateInterval);
    if NoRepeats(keys) {
      DueOnce(items, keys, now, policy.revalidateInterval);
      NotStaleCounts(items, keys, now, policy.revalidateInterval);
    }
  }

  /** The due keys are the candidates that are cached and were last checked at least an interval ago. */
  lemma {:induction false} DueFacts(items: seq<Item>, keys: seq<string>, now: int, interval: int)
    ensures forall key :: key in Due(items, keys, now, interval) <==>
              key in keys && Find(items, key).Some? && Find(items, key).value.lastCheckedAt + interval <= now
  {
    if keys != [] {
      DueFacts(items, keys[..|keys| - 1], now, interval);
      assert keys == keys[..|keys| - 1] + [keys[|keys| - 1]];
    }
  }

  /** The positions of a key list from which the keys of another one are taken, in order. */
  ghost predicate TakenAt(due: seq<string>, keys: seq<string>, at: seq<nat>) {
    && |at| == |due|
    && (forall i :: 0 <= i < |due| ==> at[i] < |keys| && due[i] == keys[at[i]])
    && (forall i, j :: 0 <= i < j < |due| ==> at[i] < at[j])
  }

  lemma {:induction false} DueInOrder(items: seq<Item>, keys: seq<string>, now: int, interval: int)
    returns (at: seq<nat>)
    ensures TakenAt(Due(items, keys, now, interval), keys, at)
  {
    at := [];
    if keys != [] {
      var init := keys[..|keys| - 1];
      at := DueInOrder(items, init, now, interval);
      if IsDue(items, keys[|keys| - 1], now, interval) {
        at := at + [|init|];
      }
    }
  }

  lemma {:induction false} DueOnce(items: seq<Item>, keys: seq<string>, now: int, interval: int)
    requires NoRepeats(keys)
    ensures NoRepeats(Due(items, keys, now, interval))
  {
    var at := DueInOrder(items, keys, now, interval);
    var due := Due(items, keys, now, interval);
    forall i, j | 0 <= i < j < |due| ensures due[i] != due[j] {
      assert at[i] < at[j] && keys[at[i]] != keys[at[j]];
    }
  }

  /** The cached candidates that were checked less than an interval ago. */
  function Fresh(items: seq<Item>, keys: seq<string>, now: int, interval: int): set<string> {
    set key | key in keys && Find(items, key).Some? && Find(items, key).value.lastCheckedAt + interval > now
  }

  /** Those among the keys hit since a moment. */
  function FreshSince(items: seq<Item>, hits: map<string, int>, since: int, now: int, interval: int): set<string> {
    set key | key in hits && since <= hits[key]
              && Find(items, key).Some? && Find(items, key).value.lastCheckedAt + interval > now
  }

  lemma {:induction false} NotStaleCounts(items: seq<Item>, keys: seq<string>, now: int, interval: int)
    requires NoRepeats(keys)
    ensures NotStale(items, keys, now, interval) == |Fresh(items, keys, now, interval)|
  {
    if keys != [] {
      var init, last := keys[..|keys| - 1], keys[|keys| - 1];
      NotStaleCounts(items, init, now, interval);
      LastElement(keys);
      var before := Fresh(items, init, now, interval);
      assert last !in before;
      assert Fresh(items, keys, now, interval) ==
             if IsNotStale(items, last, now, interval) then before + {last} else before;
    }
  }

  /** How many jobs the queue still takes. */
  function Free(queue: Queue): nat
    reads queue
    requires queue.Valid()
  {
    if queue.closed then 0 else queue.capacity - |queue.jobs|
  }

  function Min(a: nat, b: nat): nat {
    if a < b then a else b
  }

  method EnqueueAll(queue: Queue, dueKeys: seq<string>) returns (enqueued: nat, dropped: nat)
    requires queue.Valid() && "" !in dueKeys
    modifies queue
    ensures queue.Valid() && queue.closed == old(queue.closed) && queue.dequeued == old(queue.dequeued)
    ensures enqueued == Min(|dueKeys|, old(Free(queue))) && enqueued + dropped == |dueKeys|
    ensures queue.jobs == old(queue.jobs) + dueKeys[..enqueued]
    ensures queue.accepted == old(queue.accepted) + dueKeys[..enqueued]
  {
    hide FirstInFirstOut, Offered;
    enqueued, dropped := 0, 0;
    for i := 0 to |dueKeys|
      invariant queue.Valid() && queue.closed == old(queue.closed) && queue.dequeued == old(queue.dequeued)
      invariant enqueued == Min(i, old(Free(queue))) && enqueued + dropped == i
      invariant queue.jobs == old(queue.jobs) + dueKeys[..enqueued]
      invariant queue.accepted == old(queue.accepted) + dueKeys[..enqueued]
    {
      assert dueKeys[..i + 1] == dueKeys[..i] + [dueKeys[i]];
      var ok := queue.Enqueue(dueKeys[i]);
      if ok {
        enqueued := enqueued + 1;
      } else {
        dropped := dropped + 1;
      }
    }
  }

  method Sweep(tracker: Tracker, cache: Cache, queue: Queue, now: int, policy: Policy)
    returns (result: SweepResult, ghost due: seq<string>)
    requires cache.Valid() && queue.Valid()
    requires tracker !in cache.Repr && queue !in cache.Repr
    modifies tracker, cache.Repr, queue
    ensures cache.Valid() && queue.Valid()
    ensures var since := now - policy.revalidateLookback;
            var keys := ActiveKeys(old(tracker.lastHits), since, 0);
            var items := old(cache.items);
            && due == Due(items, keys, now, policy.revalidateInterval)
            && tracker.lastHits == Pruned(old(tracker.lastHits), since)
            && cache.items == Swept(items, keys) + Unswept(items, keys)
            && (forall key :: Find(cache.items, key) == Find(items, key))
            && result.candidateKeys == |keys| && result.dueKeys == |due|
            && result.notStaleKeys == NotStale(items, keys, now, policy.revalidateInterval)
            && result.workerCount == policy.revalidateWorkers
            && result.enqueued == Min(|due|, old(Free(queue))) && result.enqueued + result.dropped == result.dueKeys
            && queue.jobs == old(queue.jobs) + due[..result.enqueued]
    ensures var hits, items, since := old(tracker.lastHits), old(cache.items), now - policy.revalidateLookback;
            && (forall key :: key in tracker.lastHits <==> key in hits && since <= hits[key])
            && (forall key :: key in due <==>
                  && key in hits && since <= hits[key] && Find(items, key).Some?
                  && Find(items, key).value.lastCheckedAt + policy.revalidateInterval <= now)
            && (forall i, j :: 0 <= i < j < |due| ==>
                  hits[due[i]] < hits[due[j]] || (hits[due[i]] == hits[due[j]] && Less(due[i], due[j])))
            && result.notStaleKeys == |FreshSince(items, hits, since, now, policy.revalidateInterval)|
  {
    hide Cache.Valid, Find, Distinct, Total, ActiveKeys, Pruned, Swept, Unswept, Due, NotStale, TouchAll;
    var since := now - policy.revalidateLookback;
    ghost var hits, items := tracker.lastHits, cache.items;
    cache.ValidFacts();
    tracker.PruneActiveKeysBefore(since);
    var keys := tracker.ActiveKeysSince(since, 0);
    SameKeys(hits, since);
    ActiveKeysFacts(hits, since);
    var dueKeys, notStale := Select(cache, keys, now, policy);
    SweepRealigns(items, keys);
    forall key ensures Find(cache.items, key) == Find(items, key) {
      TouchAllKeepsRecords(items, keys, key);
    }
    DueFacts(items, keys, now, policy.revalidateInterval);
    SweptDue(hits, items, keys, dueKeys, since, now, policy.revalidateInterval);
    due := dueKeys;
    var enqueued, dropped := EnqueueAll(queue, dueKeys);
    result := SweepResult(|keys|, |dueKeys|, notStale, policy.revalidateWorkers, enqueued, dropped);
  }

  /** The due keys of a listing come in the order of the listing, and the others are counted by the hits. */
  lemma {:induction false} SweptDue(
    hits: map<string, int>, items: seq<Item>, keys: seq<string>, due: seq<string>, since: int, now: int, interval: int)
    requires keys == ActiveKeys(hits, since, 0) && due == Due(items, keys, now, interval)
    ensures forall key :: key in Pruned(hits, since) <==> key in hits && since <= hits[key]
    ensures forall key :: key in due <==>
              && key in hits && since <= hits[key] && Find(items, key).Some?
              && Find(items, key).value.lastCheckedAt + interval <= now
    ensures forall i, j :: 0 <= i < j < |due| ==>
              hits[due[i]] < hits[due[j]] || (hits[due[i]] == hits[due[j]] && Less(due[i], due[j]))
    ensures NotStale(items, keys, now, interval) == |FreshSince(items, hits, since, now, interval)|
  {
    hide Due, Find, Less, NoRepeats, ActiveKeys;
    ActiveKeysFacts(hits, since);
    DueFacts(items, keys, now, interval);
    var at := DueInOrder(items, keys, now, interval);
    NotStaleCounts(items, keys, now, interval);
    assert Fresh(items, keys, now, interval) == FreshSince(items, hits, since, now, interval);
    forall i, j | 0 <= i < j < |due|
      ensures hits[due[i]] < hits[due[j]] || (hits[due[i]] == hits[due[j]] && Less(due[i], due[j]))
    {
      assert at[i] < at[j];
    }
  }

  lemma SameKeys(hits: map<string, int>, since: int)
    ensures ActiveKeys(Pruned(hits, since), since, 0) == ActiveKeys(hits, since, 0)
  {
    PruneKeepsRecent(hits, since, since);
  }

  // ---------------------------------------------------------------- the order after a sweep

  lemma {:induction false} SweptContents(items: seq<Item>, keys: seq<string>)
    ensures var front := Swept(items, keys);
            && (forall item <- front :: item.key in keys && Find(items, item.key) == Some(item.record))
            && (forall key <- keys :: Find(items, key).Some? ==> Item(key, Find(items, key).value) in front)
  {
    hide Find;
    if keys != [] {
      SweptContents(items, keys[..|keys| - 1]);
      assert keys == keys[..|keys| - 1] + [keys[|keys| - 1]];
    }
  }

  /** The latest (hit, key) comes first. */
  predicate Descending(items: seq<Item>, hits: map<string, int>) {
    forall i, j :: 0 <= i < j < |items| ==>
      items[i].key in hits && items[j].key in hits &&
      Before(ActiveKey(items[j].key, hits[items[j].key]), ActiveKey(items[i].key, hits[items[i].key]))
  }

  lemma {:induction false} DescendingFront(item: Item, rest: seq<Item>, hits: map<string, int>)
    requires item.key in hits && Descending(rest, hits)
    requires forall r <- rest ::
               r.key in hits && Before(ActiveKey(r.key, hits[r.key]), ActiveKey(item.key, hits[item.key]))
    ensures Descending([item] + rest, hits)
  {
    hide Before;
  }

  lemma {:induction false} SweptOrder(items: seq<Item>, keys: seq<string>, hits: map<string, int>)
    requires forall key <- keys :: key in hits
    requires forall i, j :: 0 <= i < j < |keys| ==>
               Before(ActiveKey(keys[i], hits[keys[i]]), ActiveKey(keys[j], hits[keys[j]]))
    ensures Descending(Swept(items, keys), hits)
  {
    hide Before, Find, Descending;
    if keys == [] {
      NoneDescends(hits);
    } else {
      var init, last := keys[..|keys| - 1], keys[|keys| - 1];
      SweptOrder(items, init, hits);
      SweptContents(items, init);
      var rest := Swept(items, init);
      if Find(items, last).Some? {
        forall item | item in rest
          ensures item.key in hits && Before(ActiveKey(item.key, hits[item.key]), ActiveKey(last, hits[last]))
        {
          var k :| 0 <= k < |init| && init[k] == item.key;
          assert keys[k] == init[k];
        }
        DescendingFront(Item(last, Find(items, last).value), rest, hits);
      } else {
        assert Swept(items, keys) == rest;
      }
    }
  }

  lemma NoneDescends(hits: map<string, int>)
    ensures Descending([], hits)
  {
  }

  /** After a sweep the recency order starts with the cached active keys, latest (hit, key) first;
      behind them come the records of all other keys in their old order. */
  lemma SweepOrdersByActivity(items: seq<Item>, hits: map<string, int>, since: int)
    requires Distinct(items)
    ensures var keys := ActiveKeys(hits, since, 0);
            var front, back := Swept(items, keys), Unswept(items, keys);
            && (forall item :: item in front <==> item in items && item.key in hits && hits[item.key] >= since)
            && Descending(front, hits)
            && (forall item :: item in back <==> item in items && !(item.key in hits && hits[item.key] >= since))
  {
    var keys := ActiveKeys(hits, since, 0);
    ActiveKeysFacts(hits, since);
    SweptContents(items, keys);
    SweptOrder(items, keys, hits);
    UnsweptMembers(items, keys);
    forall item: Item ensures item in items <==> Find(items, item.key) == Some(item.record) {
      FindMember(items, item.key);
      assert item == Item(item.key, item.record);
    }
  }

  lemma {:induction false} UnsweptMembers(items: seq<Item>, keys: seq<string>)
    ensures forall item :: item in Unswept(items, keys) <==> item in items && item.key !in keys
  {
    if items != [] {
      UnsweptMembers(items[1..], keys);
      assert items == [items[0]] + items[1..];
    }
  }
}
