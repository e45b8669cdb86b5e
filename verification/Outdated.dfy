/**
  When a cached record can be replaced by one that the upstream has left behind.
 */
module Outdated {
  import opened Records
  import opened VersionService
  import opened Runs
  import opened Provenance

  /** The record is the one that was cached, or the upstream had it at some moment since. */
  ghost predicate CurrentSince(env: Env, key: string, cached: Option<Record>, r: Record, since: int, clock: int) {
    Some(r) == cached || RecordWithin(env, key, r, since, clock)
  }

  ghost predicate CallHoldsCurrent(env: Env, c: Call, key: string, cached: Option<Record>, since: int, clock: int) {
    c.key == key && c.phase.Storing? ==> CurrentSince(env, key, cached, c.phase.record, since, clock)
  }

  ghost predicate RefresherHoldsCurrent(
    env: Env, r: Refresher, key: string, cached: Option<Record>, since: int, clock: int)
  {
    r.key == key && r.phase.Saving? && !r.phase.outcome.Failed? ==>
      CurrentSince(env, key, cached, r.phase.outcome.record, since, clock)
  }

  /** Every record of the key that is stored, or held to be stored, is the one that was cached or was
      current since. */
  ghost predicate AllCurrent(env: Env, s: State, key: string, cached: Option<Record>, since: int) {
    && since <= s.clock
    && (key in s.store ==> CurrentSince(env, key, cached, s.store[key], since, s.clock))
    && (forall id <- s.calls :: CallHoldsCurrent(env, s.calls[id], key, cached, since, s.clock))
    && (forall id <- s.refreshers :: RefresherHoldsCurrent(env, s.refreshers[id], key, cached, since, s.clock))
  }

  // ---------------------------------------------------------------- preservation

  lemma CallFetchesCurrent(
    env: Env, s: State, id: nat, op: CallOp, key: string, cached: Option<Record>, since: int)
    requires Conforming(env) && Provenanced(env, s) && since <= s.clock
    requires id in s.calls && CallEnabled(env, s, s.calls[id], op)
    requires CallHoldsCurrent(env, s.calls[id], key, cached, since, s.clock)
    ensures CallHoldsCurrent(env, s.calls[id].(phase := CallNext(env, s, s.calls[id], op)), key, cached, since, s.clock)
    ensures op.Store? && s.calls[id].key == key ==>
              CurrentSince(env, key, cached, s.calls[id].phase.record, since, s.clock)
  {
    hide FastPath, Receive, Possible, RecordOk, ResponseOk, ShowsRecord, Conforming;
    var c := s.calls[id];
    assert CallOk(env, c, s.clock);
    if op.Finish? {
      ReceiveOk(env, c.key, c.url, c.force, c.phase.hit, c.phase.now, s.clock, op.answer);
    }
  }

  lemma RefresherFetchesCurrent(
    env: Env, s: State, id: nat, op: RefreshOp, key: string, cached: Option<Record>, since: int)
    requires Conforming(env) && Provenanced(env, s) && since <= s.clock
    requires id in s.refreshers && RefreshEnabled(env, s, s.refreshers[id], op)
    requires RefresherHoldsCurrent(env, s.refreshers[id], key, cached, since, s.clock)
    ensures var r := s.refreshers[id].(phase := RefreshNext(env, s, s.refreshers[id], op));
            RefresherHoldsCurrent(env, r, key, cached, since, s.clock)
    ensures op.Save? && s.refreshers[id].key == key ==>
              CurrentSince(env, key, cached, s.refreshers[id].phase.outcome.record, since, s.clock)
  {
    hide RefreshReceive, Possible, RecordOk, ShowsRecord, Conforming, Blank;
    var r := s.refreshers[id];
    assert RefresherOk(env, r, s.clock);
    if op.FinishRefresh? {
      RefreshReceiveOk(env, r.key, r.phase.record, r.phase.url, r.phase.now, s.clock, op.reply);
    }
  }

  lemma CurrentByCall(env: Env, s: State, id: nat, op: CallOp, key: string, cached: Option<Record>, since: int)
    requires Conforming(env) && Provenanced(env, s) && AllCurrent(env, s, key, cached, since)
    requires id in s.calls && CallEnabled(env, s, s.calls[id], op)
    ensures AllCurrent(env, CallEffect(env, s, id, op), key, cached, since)
  {
    hide CurrentSince, CallHoldsCurrent, RefresherHoldsCurrent, Provenanced, Conforming, CallNext, CallCount,
         CallActivity, Possible;
    CallFetchesCurrent(env, s, id, op, key, cached, since);
  }

  lemma CurrentByRefresher(
    env: Env, s: State, id: nat, op: RefreshOp, key: string, cached: Option<Record>, since: int)
    requires Conforming(env) && Provenanced(env, s) && AllCurrent(env, s, key, cached, since)
    requires id in s.refreshers && RefreshEnabled(env, s, s.refreshers[id], op)
    ensures AllCurrent(env, RefreshEffect(env, s, id, op), key, cached, since)
  {
    hide CurrentSince, CallHoldsCurrent, RefresherHoldsCurrent, Provenanced, Conforming, RefreshNext, RefreshCount,
         Possible;
    RefresherFetchesCurrent(env, s, id, op, key, cached, since);
  }

  lemma CurrentByCaller(env: Env, s: State, id: nat, op: CallerOp, key: string, cached: Option<Record>, since: int)
    requires AllCurrent(env, s, key, cached, since) && id in s.callers && CallerEnabled(s, s.callers[id], op)
    ensures AllCurrent(env, CallerEffect(env, s, id, op), key, cached, since)
  {
    hide CurrentSince, CallerNext;
  }

  lemma CurrentByStart(env: Env, s: State, id: nat, origin: Origin, key: string, cached: Option<Record>, since: int)
    requires AllCurrent(env, s, key, cached, since) && id !in s.refreshers
    ensures AllCurrent(env, StartEffect(env, s, id, origin), key, cached, since)
  {
    hide CurrentSince, Target;
  }

  lemma CurrentLater(env: Env, key: string, cached: Option<Record>, r: Record, since: int, clock: int, later: int)
    requires CurrentSince(env, key, cached, r, since, clock) && clock <= later
    ensures CurrentSince(env, key, cached, r, since, later)
  {
  }

  lemma CurrentByTick(env: Env, s: State, elapsed: nat, key: string, cached: Option<Record>, since: int)
    requires AllCurrent(env, s, key, cached, since)
    ensures AllCurrent(env, s.(clock := s.clock + elapsed), key, cached, since)
  {
    hide CurrentSince;
    forall r | CurrentSince(env, key, cached, r, since, s.clock)
      ensures CurrentSince(env, key, cached, r, since, s.clock + elapsed)
    {
      CurrentLater(env, key, cached, r, since, s.clock, s.clock + elapsed);
    }
  }

  lemma CurrentAside(
    env: Env, s: State, store: map<string, Record>, callers: map<nat, Caller>, steps: nat, key: string,
    cached: Option<Record>, since: int)
    requires AllCurrent(env, s, key, cached, since)
    requires key in store ==> key in s.store && store[key] == s.store[key]
    ensures AllCurrent(env, s.(store := store, callers := callers, steps := steps), key, cached, since)
  {
    hide CurrentSince, CallHoldsCurrent, RefresherHoldsCurrent;
  }

  lemma CurrentStep(env: Env, s: State, step: Step, key: string, cached: Option<Record>, since: int)
    requires Conforming(env) && Provenanced(env, s) && AllCurrent(env, s, key, cached, since) && Enabled(env, s, step)
    ensures AllCurrent(env, Next(env, s, step), key, cached, since)
  {
    hide AllCurrent, Provenanced, Conforming, CallEffect, RefreshEffect, CallerEffect, StartEffect, ArriveNext;
    match step {
      case OfCaller(id, op) => CurrentByCaller(env, s, id, op, key, cached, since);
      case OfCall(id, op) => CurrentByCall(env, s, id, op, key, cached, since);
      case OfRefresher(id, op) => CurrentByRefresher(env, s, id, op, key, cached, since);
      case StartRefresh(id, origin) => CurrentByStart(env, s, id, origin, key, cached, since);
      case Tick(elapsed) => CurrentByTick(env, s, elapsed, key, cached, since);
      case Evict(keys) => CurrentAside(env, s, s.store - keys, s.callers, s.steps, key, cached, since);
      case Arrive(id, raw, force) =>
        var callers := s.callers[id := ArriveNext(env, s.clock, raw, force)];
        CurrentAside(env, s, s.store, callers, s.steps, key, cached, since);
    }
    var t := Effect(env, s, step);
    CurrentAside(env, t, t.store, t.callers, s.steps + 1, key, cached, since);
  }

  lemma {:induction false} CurrentRun(
    env: Env, init: State, run: seq<Step>, s: State, more: seq<Step>, t: State, key: string, cached: Option<Record>,
    since: int)
    requires Conforming(env) && Reaches(env, init, run, s) && Execute(env, s, more) == Some(t)
    requires AllCurrent(env, s, key, cached, since)
    ensures AllCurrent(env, t, key, cached, since)
  {
    hide AllCurrent, Provenanced, Conforming, Next, Enabled;
    if more != [] {
      var init', step := more[..|more| - 1], more[|more| - 1];
      var before := Before(env, s, more, t);
      CurrentRun(env, init, run, s, init', before, key, cached, since);
      Compose(env, init, run, s, init', before);
      ProvenanceHolds(env, init, run + init', before);
      CurrentStep(env, before, step, key, cached, since);
    }
  }

  // ---------------------------------------------------------------- the theorem

  /** The record is not the cached one and not what the upstream has now for any URL of the key. */
  ghost predicate IsOutdated(env: Env, s: State, key: string, r: Record) {
    Lookup(s, key) != Some(r) && !RecordWithin(env, key, r, s.clock, s.clock)
  }

  /** A call or a refresher of the key is about to store an outdated record. */
  ghost predicate SomeoneHoldsOutdated(env: Env, s: State, key: string) {
    || (exists id :: id in s.calls && s.calls[id].key == key && s.calls[id].phase.Storing?
                     && IsOutdated(env, s, key, s.calls[id].phase.record))
    || (exists id :: id in s.refreshers && s.refreshers[id].key == key && s.refreshers[id].phase.Saving?
                     && !s.refreshers[id].phase.outcome.Failed?
                     && IsOutdated(env, s, key, s.refreshers[id].phase.outcome.record))
  }

  /** The continuation leads to another record of the key that the upstream had at no moment of it. */
  ghost predicate LeadsToOutdated(env: Env, s: State, more: seq<Step>, key: string) {
    && Execute(env, s, more).Some?
    && var t := Execute(env, s, more).value;
       && key in t.store && Lookup(s, key) != Some(t.store[key])
       && !RecordWithin(env, key, t.store[key], s.clock, t.clock)
  }

  lemma StoresOutdated(env: Env, s: State, id: nat)
    requires id in s.calls && s.calls[id].phase.Storing?
    requires IsOutdated(env, s, s.calls[id].key, s.calls[id].phase.record)
    ensures LeadsToOutdated(env, s, [OfCall(id, Store)], s.calls[id].key)
  {
    hide RecordWithin;
    OneStep(env, s, OfCall(id, Store));
  }

  lemma SavesOutdated(env: Env, s: State, id: nat)
    requires id in s.refreshers && s.refreshers[id].phase.Saving? && !s.refreshers[id].phase.outcome.Failed?
    requires IsOutdated(env, s, s.refreshers[id].key, s.refreshers[id].phase.outcome.record)
    ensures LeadsToOutdated(env, s, [OfRefresher(id, Save)], s.refreshers[id].key)
  {
    hide RecordWithin;
    OneStep(env, s, OfRefresher(id, Save));
  }

  lemma HoldsCurrentNow(env: Env, s: State, key: string)
    requires !SomeoneHoldsOutdated(env, s, key)
    ensures AllCurrent(env, s, key, Lookup(s, key), s.clock)
  {
    hide RecordWithin;
  }

  /** Behind a conforming upstream, a cached record, or none, can give way to a record that the upstream
      has at no moment from now on exactly when a call or a refresh of the key holds such a record now,
      ready to be stored.  Whatever is still being asked for, the answer will be current. */
  lemma {:induction false} OutdatedCanFollowIff(env: Env, init: State, run: seq<Step>, s: State, key: string)
    requires Conforming(env) && Reaches(env, init, run, s)
    ensures (exists more :: LeadsToOutdated(env, s, more, key)) <==> SomeoneHoldsOutdated(env, s, key)
  {
    hide Execute, Conforming, IsOutdated, RecordWithin;
    if SomeoneHoldsOutdated(env, s, key) {
      if id :| id in s.calls && s.calls[id].key == key && s.calls[id].phase.Storing?
               && IsOutdated(env, s, key, s.calls[id].phase.record) {
        StoresOutdated(env, s, id);
      } else {
        var id :| id in s.refreshers && s.refreshers[id].key == key && s.refreshers[id].phase.Saving?
                  && !s.refreshers[id].phase.outcome.Failed?
                  && IsOutdated(env, s, key, s.refreshers[id].phase.outcome.record);
        SavesOutdated(env, s, id);
      }
    } else {
      HoldsCurrentNow(env, s, key);
      forall more ensures !LeadsToOutdated(env, s, more, key) {
        if Execute(env, s, more).Some? {
          CurrentRun(env, init, run, s, more, Execute(env, s, more).value, key, Lookup(s, key), s.clock);
        }
      }
    }
  }
}
