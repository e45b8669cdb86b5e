/**
  When a cached record stays the newest: what can still be written over it.
 */
module Newest {
  import opened Records
  import opened VersionService
  import opened Runs
  import opened Coalescing
  import opened Provenance

  // ---------------------------------------------------------------- who can write an older record

  /** The upstream may yet answer the call with something that is stored. */
  ghost predicate MayStore(env: Env, key: string, url: string, force: bool, hit: Option<Record>, now: int, clock: int) {
    exists moment, answer ::
      clock <= moment && Possible(env, url, IfNoneMatch(hit), moment, answer)
      && Receive(env, key, url, force, hit, now, answer).write.Some?
  }

  ghost predicate MaySave(env: Env, record: Record, url: string, now: int, clock: int) {
    exists moment, answer ::
      clock <= moment && Possible(env, url, record.etag, moment, answer)
      && !RefreshReceive(env, record, url, now, answer).Failed?
  }

  /** The call read the clock before `since` and has its record, or may still get one. */
  ghost predicate CallIsBehind(env: Env, c: Call, key: string, since: int, clock: int) {
    && c.key == key
    && match c.phase
       case Ready(hit, now) => now < since && MayStore(env, c.key, c.url, c.force, hit, now, clock)
       case Fetching(hit, now) => now < since && MayStore(env, c.key, c.url, c.force, hit, now, clock)
       case Storing(record, _) => record.lastCheckedAt < since
       case _ => false
  }

  ghost predicate RefresherIsBehind(env: Env, r: Refresher, key: string, since: int, clock: int) {
    && r.key == key
    && match r.phase
       case Requesting(record, url, now) => now < since && MaySave(env, record, url, now, clock)
       case Saving(outcome) => !outcome.Failed? && outcome.record.lastCheckedAt < since
       case _ => false
  }

  /** Some process under way may still write a record that was checked before `since`. */
  ghost predicate SomeoneIsBehind(env: Env, s: State, key: string, since: int) {
    || (exists id :: id in s.calls && CallIsBehind(env, s.calls[id], key, since, s.clock))
    || (exists id :: id in s.refreshers && RefresherIsBehind(env, s.refreshers[id], key, since, s.clock))
  }

  /** Whatever is stored for the key, now or by a process under way, is the given record or was
      checked later. */
  ghost predicate NothingOlder(env: Env, s: State, key: string, record: Record, since: int) {
    && s.clock >= since
    && (key in s.store ==> s.store[key] == record || s.store[key].lastCheckedAt >= since)
    && (forall id <- s.calls :: !CallIsBehind(env, s.calls[id], key, since, s.clock))
    && (forall id <- s.refreshers :: !RefresherIsBehind(env, s.refreshers[id], key, since, s.clock))
  }

  // ---------------------------------------------------------------- nobody falls behind

  lemma WritesWhatWasChecked(
    env: Env, key: string, url: string, force: bool, hit: Option<Record>, now: int, answer: Answer)
    ensures var write := Receive(env, key, url, force, hit, now, answer).write;
            write.Some? ==> write.value.lastCheckedAt == now
  {
  }

  lemma SavesWhatWasChecked(env: Env, record: Record, url: string, now: int, answer: Answer)
    ensures var outcome := RefreshReceive(env, record, url, now, answer);
            !outcome.Failed? ==> outcome.record.lastCheckedAt == now
  {
  }

  lemma CallStaysAhead(env: Env, s: State, c: Call, op: CallOp, key: string, since: int)
    requires CallEnabled(env, s, c, op) && s.clock >= since && !CallIsBehind(env, c, key, since, s.clock)
    ensures !CallIsBehind(env, c.(phase := CallNext(env, s, c, op)), key, since, s.clock)
    ensures op.Store? && c.key == key ==> c.phase.record.lastCheckedAt >= since
  {
    hide FastPath, Possible, IfNoneMatch, Receive;
    match op
    case Finish(answer) =>
      WritesWhatWasChecked(env, c.key, c.url, c.force, c.phase.hit, c.phase.now, answer);
      assert Possible(env, c.url, IfNoneMatch(c.phase.hit), s.clock, answer);
    case _ =>
  }

  lemma RefresherStaysAhead(env: Env, s: State, r: Refresher, op: RefreshOp, key: string, since: int)
    requires RefreshEnabled(env, s, r, op) && s.clock >= since && !RefresherIsBehind(env, r, key, since, s.clock)
    ensures !RefresherIsBehind(env, r.(phase := RefreshNext(env, s, r, op)), key, since, s.clock)
    ensures op.Save? && r.key == key ==> r.phase.outcome.record.lastCheckedAt >= since
  {
    hide Possible, RefreshReceive, Blank;
    match op
    case FinishRefresh(answer) =>
      SavesWhatWasChecked(env, r.phase.record, r.phase.url, r.phase.now, answer);
      assert Possible(env, r.phase.url, r.phase.record.etag, s.clock, answer);
    case _ =>
  }

  lemma NothingOlderByCall(env: Env, s: State, id: nat, op: CallOp, key: string, record: Record, since: int)
    requires NothingOlder(env, s, key, record, since)
    requires id in s.calls && CallEnabled(env, s, s.calls[id], op)
    ensures NothingOlder(env, CallEffect(env, s, id, op), key, record, since)
  {
    hide CallIsBehind, RefresherIsBehind, CallNext, CallCount, CallActivity, Possible;
    CallStaysAhead(env, s, s.calls[id], op, key, since);
  }

  lemma NothingOlderByRefresher(env: Env, s: State, id: nat, op: RefreshOp, key: string, record: Record, since: int)
    requires NothingOlder(env, s, key, record, since)
    requires id in s.refreshers && RefreshEnabled(env, s, s.refreshers[id], op)
    ensures NothingOlder(env, RefreshEffect(env, s, id, op), key, record, since)
  {
    hide CallIsBehind, RefresherIsBehind, RefreshNext, RefreshCount, Possible;
    RefresherStaysAhead(env, s, s.refreshers[id], op, key, since);
  }

  lemma CallLaterAhead(env: Env, c: Call, key: string, since: int, clock: int, later: int)
    requires CallIsBehind(env, c, key, since, later) && clock <= later
    ensures CallIsBehind(env, c, key, since, clock)
  {
    hide Possible, IfNoneMatch, Receive;
  }

  lemma RefresherLaterAhead(env: Env, r: Refresher, key: string, since: int, clock: int, later: int)
    requires RefresherIsBehind(env, r, key, since, later) && clock <= later
    ensures RefresherIsBehind(env, r, key, since, clock)
  {
    hide Possible, RefreshReceive;
  }

  lemma NothingOlderLater(env: Env, s: State, elapsed: nat, key: string, record: Record, since: int)
    requires NothingOlder(env, s, key, record, since)
    ensures NothingOlder(env, s.(clock := s.clock + elapsed), key, record, since)
  {
    hide CallIsBehind, RefresherIsBehind;
    var later := s.clock + elapsed;
    forall id | id in s.calls ensures !CallIsBehind(env, s.calls[id], key, since, later) {
      if CallIsBehind(env, s.calls[id], key, since, later) {
        CallLaterAhead(env, s.calls[id], key, since, s.clock, later);
      }
    }
    forall id | id in s.refreshers ensures !RefresherIsBehind(env, s.refreshers[id], key, since, later) {
      if RefresherIsBehind(env, s.refreshers[id], key, since, later) {
        RefresherLaterAhead(env, s.refreshers[id], key, since, s.clock, later);
      }
    }
  }

  lemma BegunIsAhead(env: Env, c: Call, r: Refresher, key: string, since: int, clock: int)
    ensures c.phase.Begun? ==> !CallIsBehind(env, c, key, since, clock)
    ensures r.phase.Started? ==> !RefresherIsBehind(env, r, key, since, clock)
  {
  }

  lemma NothingOlderByCaller(env: Env, s: State, id: nat, op: CallerOp, key: string, record: Record, since: int)
    requires NothingOlder(env, s, key, record, since) && id in s.callers && CallerEnabled(s, s.callers[id], op)
    ensures NothingOlder(env, CallerEffect(env, s, id, op), key, record, since)
  {
    hide CallIsBehind, RefresherIsBehind, CallerNext;
    var c := s.callers[id];
    BegunIsAhead(env, Call(c.url, c.key, c.force, Begun), Refresher("", None, Started), key, since, s.clock);
  }

  lemma NothingOlderByStart(env: Env, s: State, id: nat, origin: Origin, key: string, record: Record, since: int)
    requires NothingOlder(env, s, key, record, since) && id !in s.refreshers
    ensures NothingOlder(env, StartEffect(env, s, id, origin), key, record, since)
  {
    hide CallIsBehind, RefresherIsBehind, Target;
    var (k, url) := Target(env, origin);
    BegunIsAhead(env, Call("", "", false, Begun), Refresher(k, url, Started), key, since, s.clock);
  }

  lemma NothingOlderStep(env: Env, s: State, step: Step, key: string, record: Record, since: int)
    requires NothingOlder(env, s, key, record, since) && Enabled(env, s, step)
    ensures NothingOlder(env, Next(env, s, step), key, record, since)
  {
    hide NothingOlder, CallEffect, RefreshEffect, CallerEffect, StartEffect;
    match step {
      case OfCaller(id, op) => NothingOlderByCaller(env, s, id, op, key, record, since);
      case OfCall(id, op) => NothingOlderByCall(env, s, id, op, key, record, since);
      case OfRefresher(id, op) => NothingOlderByRefresher(env, s, id, op, key, record, since);
      case StartRefresh(id, origin) => NothingOlderByStart(env, s, id, origin, key, record, since);
      case Tick(elapsed) => NothingOlderLater(env, s, elapsed, key, record, since);
      case Evict(keys) => EvictionKeepsNothingOlder(env, s, keys, key, record, since);
      case Arrive(id, raw, force) =>
        CallersAside(env, s, s.callers[id := ArriveNext(env, s.clock, raw, force)], key, record, since);
    }
    StepsAside(env, Effect(env, s, step), s.steps + 1, key, record, since);
  }

  lemma EvictionKeepsNothingOlder(env: Env, s: State, keys: set<string>, key: string, record: Record, since: int)
    requires NothingOlder(env, s, key, record, since)
    ensures NothingOlder(env, s.(store := s.store - keys), key, record, since)
  {
    hide CallIsBehind, RefresherIsBehind;
  }

  lemma CallersAside(env: Env, s: State, callers: map<nat, Caller>, key: string, record: Record, since: int)
    requires NothingOlder(env, s, key, record, since)
    ensures NothingOlder(env, s.(callers := callers), key, record, since)
  {
    hide CallIsBehind, RefresherIsBehind;
  }

  lemma StepsAside(env: Env, s: State, steps: nat, key: string, record: Record, since: int)
    requires NothingOlder(env, s, key, record, since)
    ensures NothingOlder(env, s.(steps := steps), key, record, since)
  {
    hide CallIsBehind, RefresherIsBehind;
  }

  lemma {:induction false} NothingOlderRun(
    env: Env, s: State, more: seq<Step>, t: State, key: string, record: Record, since: int)
    requires NothingOlder(env, s, key, record, since) && Execute(env, s, more) == Some(t)
    ensures NothingOlder(env, t, key, record, since)
  {
    hide NothingOlder, Next, Enabled;
    if more != [] {
      var before := Execute(env, s, more[..|more| - 1]).value;
      NothingOlderRun(env, s, more[..|more| - 1], before, key, record, since);
      NothingOlderStep(env, before, more[|more| - 1], key, record, since);
    }
  }

  // ---------------------------------------------------------------- somebody behind writes

  /** The continuation leads to a record of the key that was checked before `since`. */
  ghost predicate LeadsToOlder(env: Env, s: State, more: seq<Step>, key: string, since: int) {
    && Execute(env, s, more).Some?
    && var t := Execute(env, s, more).value; key in t.store && t.store[key].lastCheckedAt < since
  }

  lemma {:induction false} StoringWrites(env: Env, init: State, run: seq<Step>, s: State, id: nat, since: int)
    requires Execute(env, init, run) == Some(s) && id in s.calls && s.calls[id].phase.Storing?
    requires s.calls[id].phase.record.lastCheckedAt < since
    ensures exists more :: LeadsToOlder(env, init, more, s.calls[id].key, since)
  {
    hide Execute;
    var run', t := CallStores(env, init, run, s, id);
    assert LeadsToOlder(env, init, run', s.calls[id].key, since);
  }

  lemma {:induction false} FetchingWrites(env: Env, init: State, run: seq<Step>, s: State, id: nat, since: int)
    requires Execute(env, init, run) == Some(s) && id in s.calls && s.calls[id].phase.Fetching?
    requires CallIsBehind(env, s.calls[id], s.calls[id].key, since, s.clock)
    ensures exists more :: LeadsToOlder(env, init, more, s.calls[id].key, since)
  {
    hide Execute, Possible, Receive, IfNoneMatch, CallerEffect, RefreshEffect, StartEffect, CountsAsError,
         ReportsActivity;
    var c := s.calls[id];
    var moment, answer :|
      s.clock <= moment && Possible(env, c.url, IfNoneMatch(c.phase.hit), moment, answer)
      && Receive(env, c.key, c.url, c.force, c.phase.hit, c.phase.now, answer).write.Some?;
    WritesWhatWasChecked(env, c.key, c.url, c.force, c.phase.hit, c.phase.now, answer);
    var tick, finish := Tick(moment - s.clock), OfCall(id, Finish(answer));
    Append(env, init, run, s, tick);
    var s1 := Next(env, s, tick);
    Append(env, init, run + [tick], s1, finish);
    StoringWrites(env, init, run + [tick] + [finish], Next(env, s1, finish), id, since);
  }

  lemma {:induction false} CallBehindWrites(env: Env, s: State, id: nat, key: string, since: int)
    requires id in s.calls && CallIsBehind(env, s.calls[id], key, since, s.clock)
    ensures exists more :: LeadsToOlder(env, s, more, key, since)
  {
    hide MayStore, CallerEffect, RefreshEffect, StartEffect;
    var c := s.calls[id];
    match c.phase
    case Ready(hit, now) =>
      OneStep(env, s, OfCall(id, Send));
      FetchingWrites(env, s, [OfCall(id, Send)], Next(env, s, OfCall(id, Send)), id, since);
    case Fetching(hit, now) => FetchingWrites(env, s, [], s, id, since);
    case Storing(record, _) => StoringWrites(env, s, [], s, id, since);
  }

  lemma {:induction false} SavingWrites(env: Env, init: State, run: seq<Step>, s: State, id: nat, since: int)
    requires Execute(env, init, run) == Some(s) && id in s.refreshers && s.refreshers[id].phase.Saving?
    requires !s.refreshers[id].phase.outcome.Failed? && s.refreshers[id].phase.outcome.record.lastCheckedAt < since
    ensures exists more :: LeadsToOlder(env, init, more, s.refreshers[id].key, since)
  {
    hide Execute, CallerEffect, CallEffect, StartEffect;
    Append(env, init, run, s, OfRefresher(id, Save));
    assert LeadsToOlder(env, init, run + [OfRefresher(id, Save)], s.refreshers[id].key, since);
  }

  lemma {:induction false} RefresherBehindWrites(env: Env, s: State, id: nat, key: string, since: int)
    requires id in s.refreshers && RefresherIsBehind(env, s.refreshers[id], key, since, s.clock)
    ensures exists more :: LeadsToOlder(env, s, more, key, since)
  {
    hide Possible, RefreshReceive, CountsAsError, CallerEffect, CallEffect, StartEffect;
    var r := s.refreshers[id];
    if r.phase.Saving? {
      SavingWrites(env, s, [], s, id, since);
    } else {
      var moment, answer :|
        s.clock <= moment && Possible(env, r.phase.url, r.phase.record.etag, moment, answer)
        && !RefreshReceive(env, r.phase.record, r.phase.url, r.phase.now, answer).Failed?;
      SavesWhatWasChecked(env, r.phase.record, r.phase.url, r.phase.now, answer);
      var tick, finish := Tick(moment - s.clock), OfRefresher(id, FinishRefresh(answer));
      OneStep(env, s, tick);
      var s1 := Next(env, s, tick);
      Append(env, s, [tick], s1, finish);
      SavingWrites(env, s, [tick] + [finish], Next(env, s1, finish), id, since);
    }
  }

  // ---------------------------------------------------------------- the theorems

  /** A cached record can be replaced by one that was checked earlier exactly when a call or a refresh
      of its key is under way that read the clock before this record was checked, and that has its
      record already or may still be answered with one. */
  lemma {:induction false} OlderCanFollowIff(env: Env, init: State, run: seq<Step>, s: State, key: string)
    requires Reaches(env, init, run, s) && key in s.store
    ensures (exists more :: LeadsToOlder(env, s, more, key, s.store[key].lastCheckedAt)) <==>
            SomeoneIsBehind(env, s, key, s.store[key].lastCheckedAt)
  {
    hide CallIsBehind, RefresherIsBehind, Execute;
    var since := s.store[key].lastCheckedAt;
    if SomeoneIsBehind(env, s, key, since) {
      if id :| id in s.calls && CallIsBehind(env, s.calls[id], key, since, s.clock) {
        CallBehindWrites(env, s, id, key, since);
      } else {
        var id :| id in s.refreshers && RefresherIsBehind(env, s.refreshers[id], key, since, s.clock);
        RefresherBehindWrites(env, s, id, key, since);
      }
    } else {
      ProvenanceHolds(env, init, run, s);
      assert RecordOk(env, key, s.store[key], s.clock);
      forall more ensures !LeadsToOlder(env, s, more, key, since) {
        if Execute(env, s, more).Some? {
          NothingOlderRun(env, s, more, Execute(env, s, more).value, key, s.store[key], since);
        }
      }
    }
  }

  /** No background exchange of the key is under way or waits to be stored. */
  ghost predicate BackgroundIdle(s: State, key: string) {
    forall id <- s.refreshers :: s.refreshers[id].key == key ==>
      !s.refreshers[id].phase.Requesting? && !s.refreshers[id].phase.Saving?
  }

  /** No foreground exchange of the key is about to begin, under way or waits to be stored. */
  ghost predicate ForegroundIdle(s: State, key: string) {
    forall id <- s.calls :: s.calls[id].key == key ==>
      !s.calls[id].phase.Ready? && !s.calls[id].phase.Fetching? && !s.calls[id].phase.Storing?
  }

  /** A step that stores the record of a foreground call or saves that of a background refresh while
      the other side is idle. */
  ghost predicate WritesAlone(env: Env, before: State, step: Step, key: string) {
    && Enabled(env, before, step)
    && match step
       case OfCall(id, Store) => before.calls[id].key == key && BackgroundIdle(before, key)
       case OfRefresher(id, Save) => before.refreshers[id].key == key && ForegroundIdle(before, key)
       case _ => false
  }

  /** Right after such a step nobody of the key is under way with an older reading of the clock. */
  lemma StoredByTheOnlyCall(env: Env, before: State, id: nat, key: string)
    requires Protocol(before) && WritesAlone(env, before, OfCall(id, Store), key)
    ensures var s := Next(env, before, OfCall(id, Store));
            key in s.store && NothingOlder(env, s, key, s.store[key], s.clock)
  {
    hide WaitersAreServed, RefreshingIsRunning, MayStore, MaySave;
    var s := Next(env, before, OfCall(id, Store));
    forall other | other in s.calls ensures !CallIsBehind(env, s.calls[other], key, s.clock, s.clock) {
      if other != id && s.calls[other].key == key {
        assert s.calls[other] == before.calls[other];
        assert before.inFlight[key] == id;
      }
    }
  }

  lemma SavedByTheOnlyRefresher(env: Env, before: State, id: nat, key: string)
    requires Protocol(before) && WritesAlone(env, before, OfRefresher(id, Save), key)
    ensures var s := Next(env, before, OfRefresher(id, Save));
            key in s.store && NothingOlder(env, s, key, s.store[key], s.clock)
  {
    hide WaitersAreServed, InFlightIsUnfinished, MayStore, MaySave;
    var s := Next(env, before, OfRefresher(id, Save));
    forall other | other in s.refreshers ensures !RefresherIsBehind(env, s.refreshers[other], key, s.clock, s.clock) {
      if other != id && s.refreshers[other].key == key {
        assert s.refreshers[other] == before.refreshers[other];
        assert Running(before.refreshers[id].phase);
      }
    }
  }

  /** The newest record wins: after a record was stored while no exchange of the other kind was under
      way for its key, in every continuation the key is without a record, has this one, or has one
      that was checked later and, for a conforming upstream, was current later. */
  lemma {:induction false} NewestRecordWins(
    env: Env, init: State, run: seq<Step>, before: State, step: Step, key: string, more: seq<Step>, t: State)
    requires Reaches(env, init, run, before) && WritesAlone(env, before, step, key)
    requires Execute(env, Next(env, before, step), more) == Some(t)
    ensures var s := Next(env, before, step);
            key in s.store &&
            (key in t.store && t.store[key] != s.store[key] ==>
              && t.store[key].lastCheckedAt >= s.clock
              && (Conforming(env) ==> RecordWithin(env, key, t.store[key], s.clock, t.clock)))
  {
    hide Next, CallEnabled, RefreshEnabled, Conforming, Protocol, Execute;
    var s := Next(env, before, step);
    ProtocolHolds(env, init, run, before);
    match step {
      case OfCall(id, _) => StoredByTheOnlyCall(env, before, id, key);
      case OfRefresher(id, _) => SavedByTheOnlyRefresher(env, before, id, key);
    }
    NothingOlderRun(env, s, more, t, key, s.store[key], s.clock);
    Append(env, init, run, before, step);
    Compose(env, init, run + [step], s, more, t);
    ProvenanceHolds(env, init, run + [step] + more, t);
    if key in t.store {
      assert RecordOk(env, key, t.store[key], t.clock);
    }
  }

  /** The condition is needed: in any reachable state, a background refresh that has an outcome with
      an older check when a foreground call stores its record brings the older record back. */
  lemma {:induction false} OverlapLosesTheNewest(
    env: Env, init: State, run: seq<Step>, before: State, id: nat, refresher: nat)
    requires Reaches(env, init, run, before) && Enabled(env, before, OfCall(id, Store))
    requires refresher in before.refreshers && before.refreshers[refresher].key == before.calls[id].key
    requires before.refreshers[refresher].phase.Saving? && !before.refreshers[refresher].phase.outcome.Failed?
    requires before.refreshers[refresher].phase.outcome.record.lastCheckedAt <
             before.calls[id].phase.record.lastCheckedAt
    ensures var s, key := Next(env, before, OfCall(id, Store)), before.calls[id].key;
            && key in s.store && LeadsToOlder(env, s, [OfRefresher(refresher, Save)], key, s.store[key].lastCheckedAt)
            && SomeoneIsBehind(env, s, key, s.store[key].lastCheckedAt)
  {
    hide Execute, CallerEffect, StartEffect, MayStore, MaySave;
    var s, key := Next(env, before, OfCall(id, Store)), before.calls[id].key;
    OneStep(env, s, OfRefresher(refresher, Save));
    assert RefresherIsBehind(env, s.refreshers[refresher], key, s.store[key].lastCheckedAt, s.clock);
  }
}
