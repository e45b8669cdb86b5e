/**
  Runs of the service that show what can happen: a newer record is lost, a forced refresh is
  answered from the cache.
 */
module Scenarios {
  import opened Records
  import opened VersionService
  import opened Runs
  import opened Provenance
  import opened Freshness
  import opened Newest
  import opened Outdated

  const OLD := Version(200, "200 OK", "old", Some([1]))
  const NEW := Version(200, "200 OK", "new", Some([2]))

  /** One resource that changes between moment 1 and moment 2, behind a conforming upstream. */
  function Example(): Env {
    Env(raw => Prepared("u", "k"), (url, m) => if m <= 1 then OLD else NEW, true,
        payload => true, payload => None, body => [], 10, 1, 10)
  }

  lemma ExampleConforms()
    ensures Conforming(Example()) && SameResource(Example())
  {
  }

  function Start(): State {
    State(1, 0, map[], map[], map[], map[], map[], {}, Counters(0, 0, 0, 0, 0, 0, 0, 0, 0, 0, 0), [])
  }

  function Stored(v: Version, at: int): Record
    requires v.body.Some?
  {
    Record(v.body.value, v.etag, "u", at, at, at, at + 10, 200)
  }

  /** The upstream's current version is fetched by a call that began without a usable record. */
  lemma {:induction false} FetchCurrent(run: seq<Step>, s: State, call: nat) returns (run': seq<Step>, s': State)
    requires Execute(Example(), Start(), run) == Some(s)
    requires call in s.calls && s.calls[call].url == "u" && s.calls[call].key == "k" && s.calls[call].phase.Begun?
    requires FastPath(Example(), "k", s.calls[call].force, Lookup(s, "k"), s.clock).None?
    ensures Execute(Example(), Start(), run') == Some(s') && run <= run'
    ensures var c := s.calls[call];
            var v := if s.clock <= 1 then OLD else NEW;
            var response := Response(200, Raw(v.body.value), if c.force then BYPASS else MISS, "k", 200, s.clock);
            && s'.calls == s.calls[call := c.(phase := Storing(Stored(v, s.clock), response))]
            && s' == s.(calls := s'.calls, counters := s'.counters, activity := s'.activity, steps := s.steps + 4)
  {
    hide Execute, FastPath, IfNoneMatch;
    var env := Example();
    run', s' := CallDecides(env, Start(), run, s, call);
    var v := if s.clock <= 1 then OLD else NEW;
    run', s' := CallFetches(env, Start(), run', s', call, Replied(v));
  }

  /** Fill the cache from an empty one: a caller leads a call that fetches and stores. */
  lemma {:induction false} Fill(run: seq<Step>, s: State, caller: nat, call: nat) returns (run': seq<Step>, s': State)
    requires Execute(Example(), Start(), run) == Some(s)
    requires caller !in s.callers && call !in s.calls && s.inFlight == map[] && s.store == map[] && s.clock == 1
    ensures Execute(Example(), Start(), run') == Some(s') && run <= run'
    ensures s'.store == map["k" := Stored(OLD, 1)] && s'.inFlight == map[] && s'.clock == 1
    ensures s'.refreshers == s.refreshers && s'.refreshing == s.refreshing
    ensures s'.callers.Keys == s.callers.Keys + {caller} && s'.calls.Keys == s.calls.Keys + {call}
    ensures s'.calls[call].phase.Closed?
    ensures forall id <- s.callers :: s'.callers[id] == s.callers[id]
  {
    hide Execute;
    var env := Example();
    run', s' := CallerMisses(env, Start(), run, s, caller, "", false);
    run', s' := CallerLeads(env, Start(), run', s', caller, call);
    run', s' := FetchCurrent(run', s', call);
    run', s' := CallStores(env, Start(), run', s', call);
    run', s' := CallCloses(env, Start(), run', s', call);
  }

  // ---------------------------------------------------------------- the newest record is lost

  /** A refresh by key has got its answer, the unchanged version. */
  lemma {:induction false} RefreshWaits(run: seq<Step>, s: State) returns (run': seq<Step>, s': State)
    requires Execute(Example(), Start(), run) == Some(s)
    requires s.store == map["k" := Stored(OLD, 1)] && s.clock == 1 && s.refreshers == map[] && s.refreshing == {}
    ensures Execute(Example(), Start(), run') == Some(s') && run <= run'
    ensures s'.refreshers == map[0 := Refresher("k", None, Saving(Updated(Stored(OLD, 1))))]
    ensures s' == s.(refreshers := s'.refreshers, refreshing := {"k"}, counters := s'.counters, steps := s.steps + 4)
  {
    hide Execute, Possible;
    var env := Example();
    NotBlank();
    run', s' := RefresherLoads(env, Start(), run, s, 0, "k");
    OldIsPossible();
    run', s' := RefresherAsks(env, Start(), run', s', 0, Replied(OLD));
  }

  lemma NotBlank()
    ensures !Blank("u")
  {
    assert "u"[0] == 'u';
  }

  lemma OldIsPossible()
    ensures Possible(Example(), "u", "old", 1, Replied(OLD))
  {
  }

  /** The forced fetch of the newer version, up to its write. */
  lemma {:induction false} NewerIsFetched(run: seq<Step>, s: State) returns (run': seq<Step>, s': State)
    requires Execute(Example(), Start(), run) == Some(s)
    requires s.store == map["k" := Stored(OLD, 1)] && s.clock == 1
    requires s.inFlight == map[] && 2 !in s.callers && 1 !in s.calls
    ensures Execute(Example(), Start(), run') == Some(s') && run <= run'
    ensures s'.store == s.store && s'.refreshers == s.refreshers && s'.clock == 2
    ensures 1 in s'.calls && s'.calls[1].key == "k" && s'.calls[1].phase.Storing?
    ensures s'.calls[1].phase.record == Stored(NEW, 2)
  {
    hide Execute, CallerEffect, CallEffect, RefreshEffect, StartEffect;
    var env, tick := Example(), Tick(1);
    Append(env, Start(), run, s, tick);
    run', s' := run + [tick], Next(env, s, tick);
    run', s' := CallerMisses(env, Start(), run', s', 2, "", true);
    run', s' := CallerLeads(env, Start(), run', s', 2, 1);
    run', s' := FetchCurrent(run', s', 1);
  }

  /** The newest payload does not always win, not even behind a conforming upstream: a refresh by
      key that asked at moment 1 is still to be saved when a forced request stores the version of
      moment 2; one step later the older record is back, checked earlier and no longer current. */
  lemma {:induction false} NewestCanBeLost() returns (run: seq<Step>, before: State, s: State, t: State)
    ensures Conforming(Example()) && SameResource(Example())
    ensures Reaches(Example(), Start(), run, before)
    ensures Execute(Example(), before, [OfCall(1, Store)]) == Some(s)
    ensures Execute(Example(), before, [OfCall(1, Store), OfRefresher(0, Save)]) == Some(t)
    ensures "k" in s.store && "k" in t.store && t.store["k"].lastCheckedAt < s.store["k"].lastCheckedAt
    ensures Example().upstream("u", t.clock).body == Some(s.store["k"].payload) != Some(t.store["k"].payload)
  {
    hide Execute, Conforming, SameResource, FastPath, Receive, RefreshReceive, Possible, CallerEffect, StartEffect;
    ExampleConforms();
    var env := Example();
    Nothing(env, Start());
    run, before := Fill([], Start(), 1, 0);
    run, before := RefreshWaits(run, before);
    run, before := NewerIsFetched(run, before);
    s := Next(env, before, OfCall(1, Store));
    OneStep(env, before, OfCall(1, Store));
    Append(env, before, [OfCall(1, Store)], s, OfRefresher(0, Save));
    t := Next(env, s, OfRefresher(0, Save));
    assert [OfCall(1, Store)] + [OfRefresher(0, Save)] == [OfCall(1, Store), OfRefresher(0, Save)];
  }

  /** A forced call has read the clock at moment 1 and is about to ask. */
  lemma {:induction false} ForcedIsReady(run: seq<Step>, s: State) returns (run': seq<Step>, s': State)
    requires Execute(Example(), Start(), run) == Some(s)
    requires s.store == map["k" := Stored(OLD, 1)] && s.clock == 1 && s.inFlight == map[]
    requires 2 !in s.callers && 1 !in s.calls && s.calls.Keys == {0} && s.calls[0].phase.Closed?
    ensures Execute(Example(), Start(), run') == Some(s') && run <= run'
    ensures s'.store == s.store && s'.clock == 1 && s'.refreshers == s.refreshers && s'.refreshing == s.refreshing
    ensures s'.calls == s.calls[1 := Call("u", "k", true, Ready(Some(Stored(OLD, 1)), 1))]
  {
    hide Execute, FastPath;
    CachedAnswers();
    run', s' := CallerMisses(Example(), Start(), run, s, 2, "", true);
    run', s' := CallerLeads(Example(), Start(), run', s', 2, 1);
    run', s' := CallDecides(Example(), Start(), run', s', 1);
  }

  /** A forced request for a cached record can be answered with a 304, which leaves the record with a later
      check and serves its payload as revalidated. */
  lemma {:induction false} RevalidationHappens() returns (run: seq<Step>, s: State)
    ensures Conforming(Example()) && SameResource(Example()) && Reaches(Example(), Start(), run, s)
    ensures s.store == map["k" := Stored(OLD, 1)] && 1 in s.calls && s.calls[1].phase.Returning?
    ensures s.calls[1].phase.response == Response(200, Raw([1]), REVALIDATED, "k", 304, 1)
  {
    hide Execute, Conforming, SameResource, FastPath, RefreshReceive, CallerEffect, StartEffect, CallEffect,
         RefreshEffect;
    ExampleConforms();
    var env := Example();
    Nothing(env, Start());
    run, s := Fill([], Start(), 1, 0);
    run, s := ForcedIsReady(run, s);
    run, s := CallFetches(env, Start(), run, s, 1, Replied(Version(304, "304 Not Modified", "", None)));
    run, s := CallStores(env, Start(), run, s, 1);
  }

  /** The forced call and a refresh by key both read the clock at moment 1; the refresh is answered before
      the change, the call after it, and the call has stored the new version. */
  lemma {:induction false} EqualReadings() returns (run: seq<Step>, s: State)
    ensures Execute(Example(), Start(), run) == Some(s)
    ensures s.store == map["k" := Stored(NEW, 1)] && s.clock == 2
    ensures s.refreshers == map[0 := Refresher("k", None, Saving(Updated(Stored(OLD, 1))))]
    ensures s.calls.Keys == {0, 1} && s.calls[0].phase.Closed? && s.calls[1].phase.Returning?
  {
    hide Execute, FastPath, RefreshReceive, CallerEffect, StartEffect, CallEffect, RefreshEffect;
    var env := Example();
    Nothing(env, Start());
    run, s := Fill([], Start(), 1, 0);
    run, s := ForcedIsReady(run, s);
    run, s := RefreshWaits(run, s);
    run, s := AfterTick(run, s);
    run, s := CallFetches(env, Start(), run, s, 1, Replied(NEW));
    run, s := CallStores(env, Start(), run, s, 1);
  }

  lemma {:induction false} AfterTick(run: seq<Step>, s: State) returns (run': seq<Step>, s': State)
    requires Execute(Example(), Start(), run) == Some(s)
    ensures Execute(Example(), Start(), run') == Some(s') && s' == s.(clock := s.clock + 1, steps := s.steps + 1)
  {
    hide Execute;
    var tick := Tick(1);
    Append(Example(), Start(), run, s, tick);
    run', s' := run + [tick], Next(Example(), s, tick);
  }

  /** Readings of the clock do not tell: in this state nobody of the key is under way with an older reading
      than that of the cached record, which is current, and yet the next step brings back the version that
      the upstream has left behind. */
  lemma {:induction false} EqualReadingsCanLose() returns (run: seq<Step>, s: State)
    ensures Conforming(Example()) && SameResource(Example()) && Reaches(Example(), Start(), run, s)
    ensures "k" in s.store && Example().upstream("u", s.clock).body == Some(s.store["k"].payload)
    ensures !SomeoneIsBehind(Example(), s, "k", s.store["k"].lastCheckedAt)
    ensures LeadsToOutdated(Example(), s, [OfRefresher(0, Save)], "k")
  {
    hide Execute, Conforming, SameResource, LeadsToOutdated, RecordWithin;
    ExampleConforms();
    run, s := EqualReadings();
    OldIsOutdated();
    SavesOutdated(Example(), s, 0);
  }

  lemma OldIsOutdated()
    ensures !RecordWithin(Example(), "k", Stored(OLD, 1), 2, 2)
  {
  }

  // ---------------------------------------------------------------- a forced refresh gets a hit

  /** A caller has looked before the key was cached, another one has filled the cache since. */
  lemma {:induction false} LooksTooEarly() returns (run: seq<Step>, s: State)
    ensures Execute(Example(), Start(), run) == Some(s)
    ensures s.store == map["k" := Stored(OLD, 1)] && s.inFlight == map[] && s.clock == 1
    ensures s.callers.Keys == {1, 3} && s.calls.Keys == {0}
    ensures s.callers[1] == Caller("", false, "u", "k", Joining)
  {
    hide Execute, FastPath;
    Nothing(Example(), Start());
    NothingCached(false);
    run, s := CallerMisses(Example(), Start(), [], Start(), 1, "", false);
    run, s := Fill(run, s, 3, 0);
  }

  lemma NothingCached(force: bool)
    ensures FastPath(Example(), "k", force, None, 1).None?
  {
  }

  lemma CachedAnswers()
    ensures FastPath(Example(), "k", false, Some(Stored(OLD, 1)), 1) == Some(Response(200, Raw([1]), HIT, "k", 0, 1))
    ensures FastPath(Example(), "k", true, Some(Stored(OLD, 1)), 1) == None
  {
  }

  /** A forced refresh joins the call that the early caller leads. */
  lemma {:induction false} ForcedJoins(run: seq<Step>, s: State) returns (run': seq<Step>, s': State)
    requires Execute(Example(), Start(), run) == Some(s)
    requires s.store == map["k" := Stored(OLD, 1)] && s.inFlight == map[] && s.clock == 1
    requires s.callers.Keys == {1, 3} && s.calls.Keys == {0}
    requires s.callers[1] == Caller("", false, "u", "k", Joining)
    ensures Execute(Example(), Start(), run') == Some(s') && s'.store == s.store && s'.clock == 1
    ensures 2 in s'.callers && s'.callers[2].force && s'.callers[2].phase.Waiting? && s'.callers[2].phase.call == 1
    ensures 1 in s'.calls && s'.calls[1] == Call("u", "k", false, Begun)
  {
    hide Execute, FastPath, CallEffect, RefreshEffect, StartEffect;
    CachedAnswers();
    run', s' := CallerLeads(Example(), Start(), run, s, 1, 1);
    run', s' := CallerMisses(Example(), Start(), run', s', 2, "", true);
    var step := OfCaller(2, JoinCall(2));
    Append(Example(), Start(), run', s', step);
    run', s' := run' + [step], Next(Example(), s', step);
  }

  /** A forced refresh can be answered from the cache: a caller that looked before the key was cached
      leads a call, the forced refresh joins it, and the call finds the record that came in between. */
  lemma {:induction false} ForcedRefreshCanHit() returns (run: seq<Step>, s: State)
    ensures Conforming(Example()) && SameResource(Example()) && Reaches(Example(), Start(), run, s)
    ensures 2 in s.callers && s.callers[2].force && s.callers[2].phase.Received?
    ensures s.callers[2].phase.response.cacheStatus == HIT
  {
    hide Execute, Conforming, SameResource, FastPath, CallEffect, RefreshEffect, StartEffect;
    ExampleConforms();
    CachedAnswers();
    run, s := LooksTooEarly();
    run, s := ForcedJoins(run, s);
    run, s := CallDecides(Example(), Start(), run, s, 1);
    run, s := CallCloses(Example(), Start(), run, s, 1);
    var step := OfCaller(2, ReceiveResponse);
    Append(Example(), Start(), run, s, step);
    run, s := run + [step], Next(Example(), s, step);
  }

  lemma Nothing(env: Env, s: State)
    ensures Execute(env, s, []) == Some(s)
  {
  }
}
