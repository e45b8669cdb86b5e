/**
  The activity tracker: the latest hit of every cache key, listed in order of time and pruned.
 */
module ActivityTracker {
  import opened Ordering
  import opened Sequences

  datatype ActiveKey = ActiveKey(key: string, hitAt: int)

  /** The comparison that the listing sorts by. */
  predicate Before(a: ActiveKey, b: ActiveKey) {
    if a.hitAt == b.hitAt then Less(a.key, b.key) else a.hitAt < b.hitAt
  }

  predicate NotAfter(a: ActiveKey, b: ActiveKey) {
    a == b || Before(a, b)
  }

  lemma NotAfterIsTotal()
    ensures TotalOrder(NotAfter)
  {
    forall a: ActiveKey, b: ActiveKey, c: ActiveKey
      ensures NotAfter(a, b) || NotAfter(b, a)
      ensures NotAfter(a, b) && NotAfter(b, a) ==> a == b
      ensures NotAfter(a, b) && NotAfter(b, c) ==> NotAfter(a, c)
    {
      StringOrder(a.key, b.key, c.key);
      assert NotAfter(a, b) <==> a.hitAt < b.hitAt || (a.hitAt == b.hitAt && LessEq(a.key, b.key));
      assert NotAfter(b, c) <==> b.hitAt < c.hitAt || (b.hitAt == c.hitAt && LessEq(b.key, c.key));
      assert NotAfter(b, a) <==> b.hitAt < a.hitAt || (a.hitAt == b.hitAt && LessEq(b.key, a.key));
      assert NotAfter(a, c) <==> a.hitAt < c.hitAt || (a.hitAt == c.hitAt && LessEq(a.key, c.key));
    }
  }

  // ---------------------------------------------------------------- the tracked hits

  function Recorded(hits: map<string, int>, key: string, hitAt: int): map<string, int> {
    if key != "" && (key !in hits || hitAt > hits[key]) then hits[key := hitAt] else hits
  }

  function Pruned(hits: map<string, int>, cutoff: int): map<string, int> {
    map key | key in hits && hits[key] >= cutoff :: hits[key]
  }

  /** The active keys of a listing as a set. */
  function Recent(hits: map<string, int>, since: int): set<ActiveKey> {
    set key | key in hits && hits[key] >= since :: ActiveKey(key, hits[key])
  }

  function Limited<T>(xs: seq<T>, limit: int): seq<T> {
    if limit > 0 && |xs| > limit then xs[..limit] else xs
  }

  function KeysOf(xs: seq<ActiveKey>): seq<string> {
    seq(|xs|, i requires 0 <= i < |xs| => xs[i].key)
  }

  /** The recently hit keys with their hits, sorted. */
  ghost function SortedRecent(hits: map<string, int>, since: int): seq<ActiveKey> {
    Sort(NotAfter, Listed(Recent(hits, since)))
  }

  /** The listing: the keys hit since a moment, sorted by (hit, key) and cut to the limit. */
  ghost function ActiveKeys(hits: map<string, int>, since: int, limit: int): seq<string> {
    KeysOf(Limited(SortedRecent(hits, since), limit))
  }

  lemma {:induction false} SortedRecentFacts(hits: map<string, int>, since: int)
    ensures var sorted := SortedRecent(hits, since);
            && multiset(sorted) == multiset(Recent(hits, since))
            && (forall x :: x in sorted <==> x in Recent(hits, since))
            && (forall i, j :: 0 <= i < j < |sorted| ==> Before(sorted[i], sorted[j]))
  {
    var recent, sorted := Recent(hits, since), SortedRecent(hits, since);
    ListedFacts(recent);
    NotAfterIsTotal();
    SortSorts(NotAfter, Listed(recent));
    OnceEach(sorted, recent);
    assert forall x :: x in sorted <==> x in Elements(sorted);
  }

  /** A listing without limit has exactly the recently hit keys, each once, oldest hit first. */
  lemma {:induction false} ActiveKeysFacts(hits: map<string, int>, since: int)
    ensures var keys := ActiveKeys(hits, since, 0);
            && NoRepeats(keys)
            && (forall key :: key in keys <==> key in hits && hits[key] >= since)
            && (forall i, j :: 0 <= i < j < |keys| ==>
                  Before(ActiveKey(keys[i], hits[keys[i]]), ActiveKey(keys[j], hits[keys[j]])))
            && (forall i, j :: 0 <= i < j < |keys| ==>
                  hits[keys[i]] < hits[keys[j]] || (hits[keys[i]] == hits[keys[j]] && Less(keys[i], keys[j])))
  {
    hide Less, SortedRecent, Recent;
    var sorted, keys := SortedRecent(hits, since), ActiveKeys(hits, since, 0);
    SortedRecentFacts(hits, since);
    forall i | 0 <= i < |sorted|
      ensures keys[i] in hits && hits[keys[i]] >= since && sorted[i] == ActiveKey(keys[i], hits[keys[i]])
    {
      assert sorted[i] in sorted;
      RecentIs(hits, since, sorted[i].key, sorted[i].hitAt);
    }
    forall key | key in hits && hits[key] >= since ensures key in keys {
      RecentIs(hits, since, key, hits[key]);
      var i :| 0 <= i < |sorted| && sorted[i] == ActiveKey(key, hits[key]);
      assert keys[i] == key;
    }
    forall i, j | 0 <= i < j < |keys| ensures keys[i] != keys[j] {
      BeforeIrreflexive(sorted[i]);
    }
  }

  lemma BeforeIrreflexive(a: ActiveKey)
    ensures !Before(a, a)
  {
    LessIrreflexive(a.key);
  }

  /** A limited listing is a beginning of the unlimited one, so every key that it leaves out was
      hit after every key that it has: the limit keeps the keys with the oldest hits. */
  lemma {:induction false} LimitKeepsTheOldest(hits: map<string, int>, since: int, limit: int)
    ensures var keys, all := ActiveKeys(hits, since, limit), ActiveKeys(hits, since, 0);
            && keys <= all
            && |keys| == (if 0 < limit < |all| then limit else |all|)
            && forall kept <- keys, omitted | omitted in all && omitted !in keys ::
                 kept in hits && omitted in hits &&
                 (hits[kept] < hits[omitted] || (hits[kept] == hits[omitted] && Less(kept, omitted)))
  {
    hide Less, SortedRecent;
    var keys, all := ActiveKeys(hits, since, limit), ActiveKeys(hits, since, 0);
    ActiveKeysFacts(hits, since);
    assert keys == all[..|keys|];
    forall kept, omitted | kept in keys && omitted in all && omitted !in keys
      ensures kept in hits && omitted in hits
      ensures hits[kept] < hits[omitted] || (hits[kept] == hits[omitted] && Less(kept, omitted))
    {
      var i :| 0 <= i < |keys| && keys[i] == kept;
      var j :| 0 <= j < |all| && all[j] == omitted;
      assert j >= |keys| && all[i] == kept;
    }
  }

  class Tracker {
    var lastHits: map<string, int>

    constructor ()
      ensures lastHits == map[]
    {
      lastHits := map[];
    }

    /** A zero hit time stands for the current time. */
    method RecordActivity(key: string, hitAt: int, now: int) returns (recorded: bool)
      modifies this
      ensures recorded == (key != "")
      ensures lastHits == Recorded(old(lastHits), key, if hitAt == 0 then now else hitAt)
    {
      if key == "" {
        return false;
      }
      var at := hitAt;
      if at == 0 {
        at := now;
      }
      if key !in lastHits || at > lastHits[key] {
        lastHits := lastHits[key := at];
      }
      return true;
    }

    /** The iteration over the map, in any order. */
    method CollectSince(since: int) returns (active: seq<ActiveKey>)
      ensures NoRepeats(active) && Elements(active) == Recent(lastHits, since)
    {
      active := [];
      var rest := lastHits.Keys;
      while rest != {}
        invariant rest <= lastHits.Keys
        invariant NoRepeats(active)
        invariant forall x :: x in active <==> x in Recent(lastHits, since) && x.key !in rest
        decreases rest
      {
        var key :| key in rest;
        if lastHits[key] >= since {
          active := active + [ActiveKey(key, lastHits[key])];
        }
        rest := rest - {key};
      }
    }

    method ActiveKeysSince(since: int, limit: int) returns (keys: seq<string>)
      ensures keys == ActiveKeys(lastHits, since, limit)
    {
      hide Recent, NoRepeats, TotalOrder, Sorted, Sort;
      var active := CollectSince(since);
      NoRepeatsCounts(active);
      ListedFacts(Recent(lastHits, since));
      NotAfterIsTotal();
      SortSorts(NotAfter, active);
      SortSorts(NotAfter, Listed(Recent(lastHits, since)));
      active := Sort(NotAfter, active);
      SortedUnique(NotAfter, active, SortedRecent(lastHits, since));
      if limit > 0 && |active| > limit {
        active := active[..limit];
      }
      keys := [];
      for i := 0 to |active|
        invariant keys == KeysOf(active[..i])
      {
        keys := keys + [active[i].key];
      }
      assert active[..|active|] == active;
    }

    method PruneActiveKeysBefore(cutoff: int)
      modifies this
      ensures lastHits == Pruned(old(lastHits), cutoff)
      ensures forall key :: key in lastHits <==> key in old(lastHits) && cutoff <= old(lastHits)[key]
      ensures forall key <- lastHits :: lastHits[key] == old(lastHits)[key]
    {
      var rest := lastHits.Keys;
      while rest != {}
        invariant rest <= lastHits.Keys <= old(lastHits).Keys
        invariant forall key <- old(lastHits) :: key !in lastHits ==> old(lastHits)[key] < cutoff
        invariant forall key <- lastHits ::
                  lastHits[key] == old(lastHits)[key] && (key !in rest ==> lastHits[key] >= cutoff)
        decreases rest
      {
        var key :| key in rest;
        rest := rest - {key};
        if lastHits[key] < cutoff {
          lastHits := lastHits - {key};
        }
      }
    }
  }

  // ---------------------------------------------------------------- whole runs

  datatype TrackerOp = Hit(key: string, at: int) | Prune(cutoff: int)

  function Track(ops: seq<TrackerOp>): map<string, int> {
    if ops == [] then map[]
    else
      var hits := Track(ops[..|ops| - 1]);
      match ops[|ops| - 1]
      case Hit(key, at) => Recorded(hits, key, at)
      case Prune(cutoff) => Pruned(hits, cutoff)
  }

  /** The run without its prunes. */
  function HitsOnly(ops: seq<TrackerOp>): seq<TrackerOp> {
    if ops == [] then []
    else
      var last := ops[|ops| - 1];
      HitsOnly(ops[..|ops| - 1]) + (if last.Hit? then [last] else [])
  }

  lemma {:induction false} PruningKeepsRecent(ops: seq<TrackerOp>, since: int)
    requires forall op <- ops :: op.Prune? ==> op.cutoff <= since
    ensures Recent(Track(ops), since) == Recent(Track(HitsOnly(ops)), since)
  {
    if ops != [] {
      var init, last := ops[..|ops| - 1], ops[|ops| - 1];
      PruningKeepsRecent(init, since);
      var pruned, kept := Track(init), Track(HitsOnly(init));
      match last
      case Hit(key, at) =>
        assert HitsOnly(ops)[..|HitsOnly(ops)| - 1] == HitsOnly(init);
        assert Track(HitsOnly(ops)) == Recorded(kept, key, at);
        RecordKeepsRecent(pruned, kept, since, key, at);
      case Prune(cutoff) =>
        assert HitsOnly(ops) == HitsOnly(init);
        PruneKeepsRecent(pruned, since, cutoff);
    }
  }

  lemma PruneKeepsRecent(hits: map<string, int>, since: int, cutoff: int)
    requires cutoff <= since
    ensures Recent(Pruned(hits, cutoff), since) == Recent(hits, since)
  {
    forall x: ActiveKey
      ensures x in Recent(Pruned(hits, cutoff), since) <==> x in Recent(hits, since)
    {
      RecentIs(hits, since, x.key, x.hitAt);
      RecentIs(Pruned(hits, cutoff), since, x.key, x.hitAt);
    }
  }

  lemma RecentIs(hits: map<string, int>, since: int, key: string, at: int)
    ensures ActiveKey(key, at) in Recent(hits, since) <==> key in hits && hits[key] == at && at >= since
  {
  }

  lemma RecordKeepsRecent(pruned: map<string, int>, kept: map<string, int>, since: int, key: string, at: int)
    requires Recent(pruned, since) == Recent(kept, since)
    ensures Recent(Recorded(pruned, key, at), since) == Recent(Recorded(kept, key, at), since)
  {
    forall x: ActiveKey
      ensures x in Recent(Recorded(pruned, key, at), since) <==> x in Recent(Recorded(kept, key, at), since)
    {
      var k, h := x.key, x.hitAt;
      RecentIs(pruned, since, k, h);
      RecentIs(kept, since, k, h);
      RecentIs(Recorded(pruned, key, at), since, k, h);
      RecentIs(Recorded(kept, key, at), since, k, h);
      if key in pruned { RecentIs(pruned, since, key, pruned[key]); RecentIs(kept, since, key, pruned[key]); }
      if key in kept { RecentIs(pruned, since, key, kept[key]); RecentIs(kept, since, key, kept[key]); }
    }
  }

  /** Pruning is invisible: a listing that starts no earlier than any prune of the run is the
      listing of a tracker that never prunes. */
  lemma PruningIsInvisible(ops: seq<TrackerOp>, since: int, limit: int)
    requires forall op <- ops :: op.Prune? ==> op.cutoff <= since
    ensures ActiveKeys(Track(ops), since, limit) == ActiveKeys(Track(HitsOnly(ops)), since, limit)
  {
    PruningKeepsRecent(ops, since);
  }

  /** After hits alone, the tracked time of a key is its latest hit. */
  lemma {:induction false} TracksLatest(ops: seq<TrackerOp>)
    requires forall op <- ops :: op.Hit?
    ensures forall key :: key in Track(ops) <==> key != "" && exists at :: Hit(key, at) in ops
    ensures forall key <- Track(ops) ::
              Hit(key, Track(ops)[key]) in ops && forall at :: Hit(key, at) in ops ==> at <= Track(ops)[key]
  {
    if ops != [] {
      var init, last := ops[..|ops| - 1], ops[|ops| - 1];
      TracksLatest(init);
      assert ops == init + [last];
    }
  }

  /** The order in which activities are recorded, and their repetitions, do not matter. */
  lemma RecordingOrderIrrelevant(ops: seq<TrackerOp>, other: seq<TrackerOp>)
    requires forall op <- ops :: op.Hit?
    requires forall op :: op in ops <==> op in other
    ensures Track(ops) == Track(other)
  {
    TracksLatest(ops);
    TracksLatest(other);
    assert Track(ops).Keys == Track(other).Keys;
  }
}
