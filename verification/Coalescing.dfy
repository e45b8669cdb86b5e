/**
  The two per-key deduplication protocols of the version service, over every interleaving.
 */
module Coalescing {
  import opened VersionService

  predicate Unfinished(phase: CallPhase) {
    !phase.Closed?
  }

  predicate Running(phase: RefreshPhase) {
    !phase.Ended?
  }

  /** A key is in flight exactly while one unfinished call serves it. */
  ghost predicate InFlightIsUnfinished(calls: map<nat, Call>, inFlight: map<string, nat>, steps: nat) {
    && (forall k <- inFlight ::
          inFlight[k] in calls && calls[inFlight[k]].key == k && Unfinished(calls[inFlight[k]].phase))
    && (forall id <- calls :: Unfinished(calls[id].phase) ==>
          calls[id].key in inFlight && inFlight[calls[id].key] == id)
    && (forall id <- calls :: calls[id].phase.Closed? ==> calls[id].phase.closedAt < steps)
  }

  /** A waiter's call serves the waiter's key; what a caller received is what its call published
      after the caller joined it. */
  ghost predicate IsServed(c: Caller, calls: map<nat, Call>, steps: nat) {
    match c.phase
    case Waiting(call, joinedAt) =>
      && call in calls && calls[call].key == c.key
      && joinedAt < steps
      && (calls[call].phase.Closed? ==> joinedAt < calls[call].phase.closedAt)
    case Received(response, call, joinedAt) =>
      && call in calls && calls[call].key == c.key
      && calls[call].phase.Closed?
      && calls[call].phase.response == response
      && joinedAt < calls[call].phase.closedAt
    case _ => true
  }

  ghost predicate WaitersAreServed(callers: map<nat, Caller>, calls: map<nat, Call>, steps: nat) {
    forall id <- callers :: IsServed(callers[id], calls, steps)
  }

  predicate RunsFor(refreshers: map<nat, Refresher>, id: nat, key: string) {
    id in refreshers && refreshers[id].key == key && Running(refreshers[id].phase)
  }

  /** The refreshing keys are exactly the keys of the running refreshers, one refresher each. */
  ghost predicate RefreshingIsRunning(refreshers: map<nat, Refresher>, refreshing: set<string>) {
    && (forall k <- refreshing :: exists id :: RunsFor(refreshers, id, k))
    && (forall id <- refreshers :: Running(refreshers[id].phase) ==> refreshers[id].key in refreshing)
    && (forall a <- refreshers, b <- refreshers ::
          Running(refreshers[a].phase) && Running(refreshers[b].phase) ==>
            refreshers[a].key == refreshers[b].key ==> a == b)
    && (forall id <- refreshers :: refreshers[id].phase.Saving? ==> !refreshers[id].phase.outcome.Failed?)
  }

  ghost predicate Protocol(s: State) {
    && InFlightIsUnfinished(s.calls, s.inFlight, s.steps)
    && WaitersAreServed(s.callers, s.calls, s.steps)
    && RefreshingIsRunning(s.refreshers, s.refreshing)
  }

  // ---------------------------------------------------------------- preservation

  lemma ForegroundOtherwise(env: Env, s: State, id: nat, raw: string, force: bool)
    requires InFlightIsUnfinished(s.calls, s.inFlight, s.steps) && WaitersAreServed(s.callers, s.calls, s.steps)
    ensures InFlightIsUnfinished(s.calls, s.inFlight, s.steps + 1) && WaitersAreServed(s.callers, s.calls, s.steps + 1)
    ensures WaitersAreServed(s.callers[id := ArriveNext(env, s.clock, raw, force)], s.calls, s.steps + 1)
  {
  }

  lemma InFlightByCaller(env: Env, s: State, id: nat, op: CallerOp)
    requires id in s.callers && CallerEnabled(s, s.callers[id], op)
    requires InFlightIsUnfinished(s.calls, s.inFlight, s.steps)
    ensures var s' := CallerEffect(env, s, id, op);
            InFlightIsUnfinished(s'.calls, s'.inFlight, s.steps + 1)
  {
  }

  lemma WaitersByCaller(env: Env, s: State, id: nat, op: CallerOp)
    requires id in s.callers && CallerEnabled(s, s.callers[id], op)
    requires InFlightIsUnfinished(s.calls, s.inFlight, s.steps) && WaitersAreServed(s.callers, s.calls, s.steps)
    ensures var s' := CallerEffect(env, s, id, op);
            WaitersAreServed(s'.callers, s'.calls, s.steps + 1)
  {
    assert IsServed(s.callers[id], s.calls, s.steps);
  }

  lemma ForegroundByCall(env: Env, s: State, id: nat, op: CallOp)
    requires id in s.calls && CallEnabled(env, s, s.calls[id], op)
    requires InFlightIsUnfinished(s.calls, s.inFlight, s.steps) && WaitersAreServed(s.callers, s.calls, s.steps)
    ensures var s' := CallEffect(env, s, id, op);
            InFlightIsUnfinished(s'.calls, s'.inFlight, s.steps + 1) &&
            WaitersAreServed(s.callers, s'.calls, s.steps + 1)
  {
    hide FastPath, Receive, Possible, CallCount, CallActivity;
  }

  lemma RefresherAdvances(refreshers: map<nat, Refresher>, refreshing: set<string>, id: nat, phase: RefreshPhase)
    requires RefreshingIsRunning(refreshers, refreshing)
    requires id in refreshers && Running(refreshers[id].phase)
    requires phase.Saving? ==> !phase.outcome.Failed?
    ensures var r := refreshers[id];
            RefreshingIsRunning(refreshers[id := r.(phase := phase)],
                                if phase.Ended? then refreshing - {r.key} else refreshing)
  {
    var r := refreshers[id];
    var refreshers' := refreshers[id := r.(phase := phase)];
    forall k | k in refreshing && (phase.Ended? ==> k != r.key)
      ensures exists other :: RunsFor(refreshers', other, k)
    {
      var other :| RunsFor(refreshers, other, k);
      assert RunsFor(refreshers', other, k);
    }
  }

  lemma RefresherStarts(refreshers: map<nat, Refresher>, refreshing: set<string>, id: nat, r: Refresher)
    requires RefreshingIsRunning(refreshers, refreshing)
    requires id !in refreshers && r.key !in refreshing && r.phase.Started?
    ensures RefreshingIsRunning(refreshers[id := r], refreshing + {r.key})
  {
    var refreshers' := refreshers[id := r];
    assert RunsFor(refreshers', id, r.key);
    forall k | k in refreshing
      ensures exists other :: RunsFor(refreshers', other, k)
    {
      var other :| RunsFor(refreshers, other, k);
      assert RunsFor(refreshers', other, k);
    }
  }

  lemma ProtocolStep(env: Env, s: State, step: Step)
    requires Enabled(env, s, step) && Protocol(s)
    ensures Protocol(Next(env, s, step))
  {
    hide InFlightIsUnfinished, WaitersAreServed, RefreshingIsRunning;
    ForegroundOtherwise(env, s, 0, "", false);
    match step
    case OfCaller(id, op) =>
      InFlightByCaller(env, s, id, op);
      WaitersByCaller(env, s, id, op);
    case OfCall(id, op) =>
      ForegroundByCall(env, s, id, op);
    case OfRefresher(id, op) =>
      RefresherAdvances(s.refreshers, s.refreshing, id, RefreshNext(env, s, s.refreshers[id], op));
    case StartRefresh(id, origin) =>
      var (key, url) := Target(env, origin);
      if key != "" && key !in s.refreshing {
        RefresherStarts(s.refreshers, s.refreshing, id, Refresher(key, url, Started));
      }
    case Arrive(id, raw, force) =>
      ForegroundOtherwise(env, s, id, raw, force);
    case _ =>
  }

  /** The protocol invariant holds in every reachable state of every interleaving. */
  lemma {:induction false} ProtocolHolds(env: Env, init: State, run: seq<Step>, s: State)
    requires Reaches(env, init, run, s)
    ensures Protocol(s)
  {
    if run != [] {
      var before := Execute(env, init, run[..|run| - 1]).value;
      ProtocolHolds(env, init, run[..|run| - 1], before);
      ProtocolStep(env, before, run[|run| - 1]);
    }
  }
}
