/**
  Consequences of the coalescing protocol over whole runs: nobody waits for a lost call, calls
  run and close once, cancelling a caller is invisible to everybody else, and at most two
  upstream exchanges run per key.
 */
module Cooperation {
  import opened Records
  import opened VersionService
  import opened Coalescing
  import opened Runs

  /** A waiter is never lost: either its call is still in flight under its key and can go on,
      or the response is published and the waiter can take it. */
  lemma NoLostWakeup(env: Env, init: State, run: seq<Step>, s: State, id: nat)
    requires Reaches(env, init, run, s)
    requires id in s.callers && s.callers[id].phase.Waiting?
    ensures var c := s.callers[id];
            || (&& c.key in s.inFlight && s.inFlight[c.key] == c.phase.call && c.phase.call in s.calls
                && exists op :: CallEnabled(env, s, s.calls[c.phase.call], op))
            || CallerEnabled(s, c, ReceiveResponse)
  {
    ProtocolHolds(env, init, run, s);
    var c := s.callers[id];
    assert IsServed(c, s.calls, s.steps);
    var call := s.calls[c.phase.call];
    match call.phase
    case Begun => assert CallEnabled(env, s, call, LookupRecord);
    case Read(_) => assert CallEnabled(env, s, call, DecideFetch);
    case Ready(_, _) => assert CallEnabled(env, s, call, Send);
    case Fetching(_, _) => assert CallEnabled(env, s, call, Finish(TransportError(true)));
    case Storing(_, _) => assert CallEnabled(env, s, call, Store);
    case Returning(_) => assert CallEnabled(env, s, call, Close);
    case Closed(_, _) =>
  }

  /** A caller that was not cancelled got the response of a call of its own key that was still
      open when the caller joined it and that closed, with this response, afterwards. */
  lemma ReceivedFromJoinedCall(env: Env, init: State, run: seq<Step>, s: State, id: nat)
    requires Reaches(env, init, run, s)
    requires id in s.callers && s.callers[id].phase.Received?
    ensures var c := s.callers[id];
            && c.phase.from in s.calls && s.calls[c.phase.from].key == c.key
            && s.calls[c.phase.from].phase.Closed?
            && s.calls[c.phase.from].phase.response == c.phase.response
            && c.phase.joinedAt < s.calls[c.phase.from].phase.closedAt
  {
    ProtocolHolds(env, init, run, s);
    assert IsServed(s.callers[id], s.calls, s.steps);
  }

  // ---------------------------------------------------------------- calls run once

  function Rank(phase: CallPhase): nat {
    match phase
    case Begun => 0
    case Read(_) => 1
    case Ready(_, _) => 2
    case Fetching(_, _) => 3
    case Storing(_, _) => 4
    case Returning(_) => 5
    case Closed(_, _) => 6
  }

  /** The call has moved on, or not moved at all; once closed it is what it was. */
  predicate MovedOn(before: Call, after: Call) {
    && after.url == before.url && after.key == before.key && after.force == before.force
    && (after == before || Rank(before.phase) < Rank(after.phase))
  }

  lemma CallsMoveOnStep(env: Env, s: State, step: Step, id: nat)
    requires Enabled(env, s, step) && id in s.calls
    ensures var s' := Next(env, s, step);
            id in s'.calls && MovedOn(s.calls[id], s'.calls[id])
  {
    hide Receive, FastPath, CallerNext, RefreshNext, RefreshCount, CallCount, Possible;
  }

  /** Over any run a call goes through each of its phases at most once and in order, so it runs
      its function once and closes once, and a closed call never changes again. */
  lemma {:induction false} CallsMoveOn(env: Env, s: State, run: seq<Step>, s': State, id: nat)
    requires Execute(env, s, run) == Some(s') && id in s.calls
    ensures id in s'.calls && MovedOn(s.calls[id], s'.calls[id])
  {
    if run != [] {
      var before := Execute(env, s, run[..|run| - 1]).value;
      CallsMoveOn(env, s, run[..|run| - 1], before, id);
      CallsMoveOnStep(env, before, run[|run| - 1], id);
    }
  }

  // ---------------------------------------------------------------- waiting ends

  /** What an open call can do next, whatever everybody else does. */
  function NextOp(c: Call): CallOp
    requires !c.phase.Closed?
  {
    match c.phase
    case Begun => LookupRecord
    case Read(_) => DecideFetch
    case Ready(_, _) => Send
    case Fetching(_, _) => Finish(TransportError(true))
    case Storing(_, _) => Store
    case Returning(_) => CallOp.Close
  }

  lemma NextOpRuns(env: Env, s: State, id: nat)
    requires id in s.calls && !s.calls[id].phase.Closed?
    ensures var step := OfCall(id, NextOp(s.calls[id]));
            && Enabled(env, s, step)
            && var t := Next(env, s, step);
               t.callers == s.callers && id in t.calls && Rank(t.calls[id].phase) > Rank(s.calls[id].phase)
  {
    hide FastPath, Receive, CallerEffect, RefreshEffect, StartEffect;
  }

  lemma {:induction false} CallRunsToItsEnd(env: Env, s: State, id: nat) returns (more: seq<Step>, t: State)
    requires id in s.calls
    ensures Execute(env, s, more) == Some(t) && |more| <= 6 - Rank(s.calls[id].phase)
    ensures forall step <- more :: step.OfCall? && step.id == id
    ensures t.callers == s.callers && id in t.calls && t.calls[id].phase.Closed?
    decreases 6 - Rank(s.calls[id].phase)
  {
    hide Next, Enabled;
    if s.calls[id].phase.Closed? {
      more, t := [], s;
    } else {
      var step := OfCall(id, NextOp(s.calls[id]));
      NextOpRuns(env, s, id);
      OneStep(env, s, step);
      more, t := CallRunsToItsEnd(env, Next(env, s, step), id);
      Compose(env, s, [step], Next(env, s, step), more, t);
      more := [step] + more;
    }
  }

  /** Nobody waits for ever: from any reachable state at most six steps of the joined call and one of
      the caller lead a waiting caller to its response, and nobody else is needed for that. */
  lemma {:induction false} WaitingEnds(env: Env, init: State, run: seq<Step>, s: State, id: nat)
    returns (more: seq<Step>, t: State)
    requires Reaches(env, init, run, s)
    requires id in s.callers && s.callers[id].phase.Waiting?
    ensures Execute(env, s, more) == Some(t) && |more| <= 7
    ensures forall step <- more ::
              step == OfCaller(id, ReceiveResponse) || (step.OfCall? && step.id == s.callers[id].phase.call)
    ensures id in t.callers && t.callers[id].phase.Received? && t.callers[id].phase.from == s.callers[id].phase.call
  {
    hide Execute, InFlightIsUnfinished, RefreshingIsRunning, CallEffect, RefreshEffect, StartEffect;
    ProtocolHolds(env, init, run, s);
    assert IsServed(s.callers[id], s.calls, s.steps);
    more, t := CallRunsToItsEnd(env, s, s.callers[id].phase.call);
    var step := OfCaller(id, ReceiveResponse);
    Append(env, s, more, t, step);
    more, t := more + [step], Next(env, t, step);
  }

  // ---------------------------------------------------------------- every run

  /** The caller waits for the call, or has waited for it. */
  predicate JoinedTo(c: Caller, call: nat) {
    match c.phase
    case Waiting(joined, _) => joined == call
    case Received(_, from, _) => from == call
    case Canceled(_) => true
    case _ => false
  }

  lemma {:induction false} StaysJoined(env: Env, s: State, more: seq<Step>, t: State, id: nat, call: nat)
    requires Execute(env, s, more) == Some(t) && id in s.callers && JoinedTo(s.callers[id], call)
    ensures id in t.callers && JoinedTo(t.callers[id], call)
  {
    hide Next, Enabled, JoinedTo;
    if more != [] {
      var before := Before(env, s, more, t);
      StaysJoined(env, s, more[..|more| - 1], before, id, call);
      StaysJoinedStep(env, before, more[|more| - 1], id, call);
    }
  }

  lemma StaysJoinedStep(env: Env, s: State, step: Step, id: nat, call: nat)
    requires Enabled(env, s, step) && id in s.callers && JoinedTo(s.callers[id], call)
    ensures var s' := Next(env, s, step); id in s'.callers && JoinedTo(s'.callers[id], call)
  {
    hide FastPath, CallNext, CallCount, CallActivity, RefreshNext, RefreshCount, Target, ArriveNext, Possible;
  }

  /** How many steps of the call a run holds. */
  function StepsOf(run: seq<Step>, id: nat): nat {
    if run == [] then 0
    else StepsOf(run[..|run| - 1], id) + (if run[|run| - 1].OfCall? && run[|run| - 1].id == id then 1 else 0)
  }

  lemma OwnStepAdvances(env: Env, s: State, step: Step, id: nat)
    requires Enabled(env, s, step) && id in s.calls && step.OfCall? && step.id == id
    ensures var t := Next(env, s, step); id in t.calls && Rank(t.calls[id].phase) > Rank(s.calls[id].phase)
  {
    hide Receive, FastPath, CallCount, CallActivity, Possible;
  }

  /** Every step of a call brings it nearer to its end, and nothing sets it back. */
  lemma {:induction false} StepsAreProgress(env: Env, s: State, run: seq<Step>, t: State, id: nat)
    requires Execute(env, s, run) == Some(t) && id in s.calls
    ensures id in t.calls && Rank(t.calls[id].phase) >= Rank(s.calls[id].phase) + StepsOf(run, id)
  {
    hide Next, Enabled, Rank;
    if run != [] {
      var step := run[|run| - 1];
      var before := Before(env, s, run, t);
      StepsAreProgress(env, s, run[..|run| - 1], before, id);
      CallsMoveOnStep(env, before, step, id);
      if step.OfCall? && step.id == id {
        OwnStepAdvances(env, before, step, id);
      }
    }
  }

  /** Nobody waits for ever: in every run in which the joined call takes as many steps as it has left, at
      most six, the call is closed in the end, and a caller that has neither its response nor left can take
      the response. */
  lemma {:induction false} EveryFairRunEndsWaiting(
    env: Env, init: State, run: seq<Step>, s: State, id: nat, more: seq<Step>, t: State)
    requires Reaches(env, init, run, s) && id in s.callers && s.callers[id].phase.Waiting?
    requires Execute(env, s, more) == Some(t)
    ensures var call := s.callers[id].phase.call;
            && call in s.calls && call in t.calls && id in t.callers && JoinedTo(t.callers[id], call)
            && StepsOf(more, call) <= 6 - Rank(s.calls[call].phase)
            && (StepsOf(more, call) == 6 - Rank(s.calls[call].phase) ==>
                  && t.calls[call].phase.Closed?
                  && (t.callers[id].phase.Waiting? ==> CallerEnabled(t, t.callers[id], ReceiveResponse)))
  {
    hide Execute, InFlightIsUnfinished, RefreshingIsRunning;
    ProtocolHolds(env, init, run, s);
    var call := s.callers[id].phase.call;
    assert IsServed(s.callers[id], s.calls, s.steps);
    StepsAreProgress(env, s, more, t, call);
    StaysJoined(env, s, more, t, id, call);
  }

  // ---------------------------------------------------------------- cancellation

  /** The run in which the caller keeps waiting wherever it was cancelled. */
  function Patient(run: seq<Step>, id: nat): seq<Step> {
    seq(|run|, i requires 0 <= i < |run| => if run[i] == OfCaller(id, Cancel) then Tick(0) else run[i])
  }

  /** The states agree on everything but the named caller, who is cancelled in `s` and waits in `t`. */
  ghost predicate AgreeButFor(s: State, t: State, id: nat) {
    || s == t
    || (&& id in s.callers && s.callers[id].phase.Canceled?
        && id in t.callers && t.callers[id].phase.Waiting?
        && t.callers == s.callers[id := t.callers[id]]
        && t == s.(callers := t.callers))
  }

  lemma AgreeByCaller(env: Env, s: State, t: State, other: nat, op: CallerOp, id: nat)
    requires AgreeButFor(s, t, id) && s != t
    requires other in s.callers && CallerEnabled(s, s.callers[other], op)
    ensures other in t.callers && CallerEnabled(t, t.callers[other], op)
    ensures AgreeButFor(CallerEffect(env, s, other, op), CallerEffect(env, t, other, op), id)
  {
    hide FastPath;
    assert other != id;
    var s', t' := CallerEffect(env, s, other, op), CallerEffect(env, t, other, op);
    assert t'.callers == s'.callers[id := t.callers[id]];
  }

  lemma AgreeByCall(env: Env, s: State, t: State, call: nat, op: CallOp, id: nat)
    requires AgreeButFor(s, t, id) && s != t
    requires call in s.calls && CallEnabled(env, s, s.calls[call], op)
    ensures call in t.calls && CallEnabled(env, t, t.calls[call], op)
    ensures AgreeButFor(CallEffect(env, s, call, op), CallEffect(env, t, call, op), id)
  {
    hide Receive, FastPath, Possible;
  }

  lemma AgreeByRefresher(env: Env, s: State, t: State, refresher: nat, op: RefreshOp, id: nat)
    requires AgreeButFor(s, t, id) && s != t
    requires refresher in s.refreshers && RefreshEnabled(env, s, s.refreshers[refresher], op)
    ensures refresher in t.refreshers && RefreshEnabled(env, t, t.refreshers[refresher], op)
    ensures AgreeButFor(RefreshEffect(env, s, refresher, op), RefreshEffect(env, t, refresher, op), id)
  {
    hide RefreshReceive, Possible, Blank;
  }

  lemma AgreeByArrival(env: Env, s: State, t: State, other: nat, raw: string, force: bool, id: nat)
    requires AgreeButFor(s, t, id) && s != t && other !in s.callers
    ensures other !in t.callers
    ensures var c := ArriveNext(env, s.clock, raw, force);
            s.clock == t.clock &&
            AgreeButFor(s.(callers := s.callers[other := c]), t.(callers := t.callers[other := c]), id)
  {
    hide ArriveNext;
    var c := ArriveNext(env, s.clock, raw, force);
    assert t.callers[other := c] == s.callers[other := c][id := t.callers[id]];
  }

  lemma AgreeByStart(env: Env, s: State, t: State, refresher: nat, origin: Origin, id: nat)
    requires AgreeButFor(s, t, id) && s != t && refresher !in s.refreshers
    ensures refresher !in t.refreshers
    ensures AgreeButFor(StartEffect(env, s, refresher, origin), StartEffect(env, t, refresher, origin), id)
  {
    hide Target;
  }

  lemma AgreeOtherwise(env: Env, s: State, t: State, step: Step, id: nat)
    requires AgreeButFor(s, t, id) && s != t && Enabled(env, s, step)
    requires step.Tick? || step.Evict?
    ensures Enabled(env, t, step) && AgreeButFor(Effect(env, s, step), Effect(env, t, step), id)
  {
  }

  lemma AgreeAfterCancel(env: Env, s: State, id: nat)
    requires id in s.callers && CallerEnabled(s, s.callers[id], Cancel)
    ensures AgreeButFor(CallerEffect(env, s, id, Cancel), s, id)
  {
    var s' := CallerEffect(env, s, id, Cancel);
    assert s.callers == s'.callers[id := s.callers[id]];
  }

  lemma AgreeLater(s: State, t: State, id: nat, steps: nat)
    requires AgreeButFor(s, t, id)
    ensures AgreeButFor(s.(steps := steps), t.(steps := steps), id)
  {
  }

  lemma PatientStep(env: Env, s: State, t: State, step: Step, id: nat)
    requires AgreeButFor(s, t, id) && Enabled(env, s, step)
    ensures var step' := if step == OfCaller(id, Cancel) then Tick(0) else step;
            Enabled(env, t, step') && AgreeButFor(Next(env, s, step), Next(env, t, step'), id)
  {
    var step' := if step == OfCaller(id, Cancel) then Tick(0) else step;
    assert s.steps == t.steps;
    if step == OfCaller(id, Cancel) {
      assert s == t && Effect(env, t, step') == t;
      AgreeAfterCancel(env, s, id);
      AgreeLater(Effect(env, s, step), t, id, s.steps + 1);
    } else if s != t {
      hide AgreeButFor, CallerEffect, CallEffect, RefreshEffect, StartEffect;
      match step {
        case OfCaller(other, op) => AgreeByCaller(env, s, t, other, op, id);
        case OfCall(call, op) => AgreeByCall(env, s, t, call, op, id);
        case OfRefresher(refresher, op) => AgreeByRefresher(env, s, t, refresher, op, id);
        case Arrive(other, raw, force) => AgreeByArrival(env, s, t, other, raw, force, id);
        case StartRefresh(refresher, origin) => AgreeByStart(env, s, t, refresher, origin, id);
        case _ => AgreeOtherwise(env, s, t, step, id);
      }
      AgreeLater(Effect(env, s, step), Effect(env, t, step), id, s.steps + 1);
    }
  }

  /** Cancelling a caller, the leader of a call included, is invisible to everybody else: had the
      caller kept waiting, the same run would have led to the same store, calls, groups, counters
      and other callers. */
  lemma {:induction false} CancellationIsInvisible(env: Env, init: State, run: seq<Step>, s: State, id: nat)
    requires Execute(env, init, run) == Some(s)
    ensures Execute(env, init, Patient(run, id)).Some?
    ensures AgreeButFor(s, Execute(env, init, Patient(run, id)).value, id)
  {
    if run != [] {
      var last := |run| - 1;
      var before := Execute(env, init, run[..last]).value;
      CancellationIsInvisible(env, init, run[..last], before, id);
      assert Patient(run, id)[..last] == Patient(run[..last], id);
      PatientStep(env, before, Execute(env, init, Patient(run[..last], id)).value, run[last], id);
    }
  }

  // ---------------------------------------------------------------- upstream concurrency

  /** The calls and the refreshers with an upstream exchange under way for a key. */
  function ForegroundExchanges(s: State, key: string): set<nat> {
    set id | id in s.calls && s.calls[id].key == key && s.calls[id].phase.Fetching?
  }

  function BackgroundExchanges(s: State, key: string): set<nat> {
    set id | id in s.refreshers && s.refreshers[id].key == key && s.refreshers[id].phase.Requesting?
  }

  lemma AtMostOne(ids: set<nat>)
    requires forall a, b :: a in ids && b in ids ==> a == b
    ensures |ids| <= 1
  {
    if ids != {} {
      var a :| a in ids;
      assert ids == {a};
    }
  }

  /** In every interleaving at most one foreground and one background exchange run per key. */
  lemma UpstreamConcurrencyBound(env: Env, init: State, run: seq<Step>, s: State, key: string)
    requires Reaches(env, init, run, s)
    ensures |ForegroundExchanges(s, key)| <= 1 && |BackgroundExchanges(s, key)| <= 1
    ensures |ForegroundExchanges(s, key)| + |BackgroundExchanges(s, key)| <= 2
    ensures s.refreshing == set id | id in s.refreshers && Running(s.refreshers[id].phase) :: s.refreshers[id].key
  {
    ProtocolHolds(env, init, run, s);
    AtMostOne(ForegroundExchanges(s, key));
    AtMostOne(BackgroundExchanges(s, key));
    forall k | k in s.refreshing
      ensures k in set id | id in s.refreshers && Running(s.refreshers[id].phase) :: s.refreshers[id].key
    {
      var id :| RunsFor(s.refreshers, id, k);
    }
  }
}
