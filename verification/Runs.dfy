/**
  Putting runs of the service's state machine together.
 */
module Runs {
  import opened Records
  import opened VersionService

  lemma {:induction false} Append(env: Env, init: State, run: seq<Step>, s: State, step: Step)
    requires Execute(env, init, run) == Some(s) && Enabled(env, s, step)
    ensures Execute(env, init, run + [step]) == Some(Next(env, s, step))
  {
    assert (run + [step])[..|run|] == run;
  }

  lemma {:induction false} Compose(env: Env, init: State, run: seq<Step>, s: State, more: seq<Step>, t: State)
    requires Execute(env, init, run) == Some(s) && Execute(env, s, more) == Some(t)
    ensures Execute(env, init, run + more) == Some(t)
  {
    if more == [] {
      assert run + more == run;
    } else {
      var init', last := more[..|more| - 1], |run + more| - 1;
      Compose(env, init, run, s, init', Execute(env, s, init').value);
      assert (run + more)[..last] == run + init' && (run + more)[last] == more[|more| - 1];
    }
  }

  /** The run without its last step leads to the state before it. */
  lemma {:induction false} Before(env: Env, init: State, run: seq<Step>, s: State) returns (before: State)
    requires Execute(env, init, run) == Some(s) && run != []
    ensures Execute(env, init, run[..|run| - 1]) == Some(before)
    ensures Enabled(env, before, run[|run| - 1]) && s == Next(env, before, run[|run| - 1])
  {
    before := Execute(env, init, run[..|run| - 1]).value;
  }

  lemma {:induction false} OneStep(env: Env, s: State, step: Step)
    requires Enabled(env, s, step)
    ensures Execute(env, s, [step]) == Some(Next(env, s, step))
  {
    assert [step][..0] == [];
    assert Execute(env, s, []) == Some(s);
  }

  // ---------------------------------------------------------------- stretches of one process

  /** A caller arrives, looks into the cache and does not find an answer there. */
  lemma {:induction false} CallerMisses(
    env: Env, init: State, run: seq<Step>, s: State, caller: nat, raw: string, force: bool)
    returns (run': seq<Step>, s': State)
    requires Execute(env, init, run) == Some(s) && caller !in s.callers && env.prepare(raw).Prepared?
    requires FastPath(env, env.prepare(raw).key, force, Lookup(s, env.prepare(raw).key), s.clock).None?
    ensures Execute(env, init, run') == Some(s') && run <= run'
    ensures var c := Caller(raw, force, env.prepare(raw).url, env.prepare(raw).key, Joining);
            s' == s.(callers := s.callers[caller := c], steps := s.steps + 3)
  {
    hide Execute, FastPath, CallEffect, RefreshEffect, StartEffect, CallEnabled, RefreshEnabled;
    run', s' := run, s;
    var step := Arrive(caller, raw, force);
    Append(env, init, run', s', step);
    run', s' := run' + [step], Next(env, s', step);
    step := OfCaller(caller, CacheLookup);
    Append(env, init, run', s', step);
    run', s' := run' + [step], Next(env, s', step);
    step := OfCaller(caller, Decide);
    Append(env, init, run', s', step);
    run', s' := run' + [step], Next(env, s', step);
  }

  /** A caller leads a call of its own. */
  lemma {:induction false} CallerLeads(env: Env, init: State, run: seq<Step>, s: State, caller: nat, call: nat)
    returns (run': seq<Step>, s': State)
    requires Execute(env, init, run) == Some(s)
    requires caller in s.callers && s.callers[caller].phase.Joining? && call !in s.calls
    requires s.callers[caller].key !in s.inFlight
    ensures Execute(env, init, run') == Some(s') && run <= run'
    ensures var c := s.callers[caller];
            s' == s.(callers := s.callers[caller := c.(phase := Waiting(call, s.steps))],
                     calls := s.calls[call := Call(c.url, c.key, c.force, Begun)],
                     inFlight := s.inFlight[c.key := call], steps := s.steps + 1)
  {
    hide Execute, FastPath, CallEffect, RefreshEffect, StartEffect, CallEnabled, RefreshEnabled;
    var step := OfCaller(caller, JoinCall(call));
    Append(env, init, run, s, step);
    run', s' := run + [step], Next(env, s, step);
  }

  /** A call reads the cache and decides. */
  lemma {:induction false} CallDecides(env: Env, init: State, run: seq<Step>, s: State, call: nat)
    returns (run': seq<Step>, s': State)
    requires Execute(env, init, run) == Some(s) && call in s.calls && s.calls[call].phase.Begun?
    ensures Execute(env, init, run') == Some(s') && run <= run'
    ensures var c := s.calls[call];
            var hit := Lookup(s, c.key);
            var served := FastPath(env, c.key, c.force, hit, s.clock);
            var phase := if served.Some? then Returning(served.value) else Ready(hit, s.clock);
            && s'.calls == s.calls[call := c.(phase := phase)]
            && s' == s.(calls := s'.calls, counters := s'.counters, activity := s'.activity, steps := s.steps + 2)
  {
    hide Execute, FastPath, CallerEffect, RefreshEffect, StartEffect, CallerEnabled, RefreshEnabled;
    var step := OfCall(call, LookupRecord);
    Append(env, init, run, s, step);
    run', s' := run + [step], Next(env, s, step);
    step := OfCall(call, DecideFetch);
    Append(env, init, run', s', step);
    run', s' := run' + [step], Next(env, s', step);
  }

  /** A call gets an answer from the upstream. */
  lemma {:induction false} CallFetches(env: Env, init: State, run: seq<Step>, s: State, call: nat, answer: Answer)
    returns (run': seq<Step>, s': State)
    requires Execute(env, init, run) == Some(s) && call in s.calls && s.calls[call].phase.Ready?
    requires Possible(env, s.calls[call].url, IfNoneMatch(s.calls[call].phase.hit), s.clock, answer)
    ensures Execute(env, init, run') == Some(s') && run <= run'
    ensures var c := s.calls[call];
            var outcome := Receive(env, c.key, c.url, c.force, c.phase.hit, c.phase.now, answer);
            var phase := if outcome.write.Some? then Storing(outcome.write.value, outcome.response)
                         else Returning(outcome.response);
            && s'.calls == s.calls[call := c.(phase := phase)]
            && s' == s.(calls := s'.calls, counters := s'.counters, activity := s'.activity, steps := s.steps + 2)
  {
    hide Execute, CallerEnabled, RefreshEnabled, FastPath, Receive, Possible, IfNoneMatch, CountsAsError,
         ReportsActivity, CallerEffect, RefreshEffect, StartEffect;
    var step := OfCall(call, Send);
    Append(env, init, run, s, step);
    run', s' := run + [step], Next(env, s, step);
    step := OfCall(call, Finish(answer));
    Append(env, init, run', s', step);
    run', s' := run' + [step], Next(env, s', step);
  }

  /** A call stores its record. */
  lemma {:induction false} CallStores(env: Env, init: State, run: seq<Step>, s: State, call: nat)
    returns (run': seq<Step>, s': State)
    requires Execute(env, init, run) == Some(s) && call in s.calls && s.calls[call].phase.Storing?
    ensures Execute(env, init, run') == Some(s') && run' == run + [OfCall(call, Store)]
    ensures s' == Next(env, s, OfCall(call, Store))
    ensures var c := s.calls[call];
            s' == s.(calls := s.calls[call := c.(phase := Returning(c.phase.response))],
                     store := s.store[c.key := c.phase.record], steps := s.steps + 1)
  {
    hide Execute, FastPath, Receive, CallerEffect, RefreshEffect, StartEffect;
    var step := OfCall(call, Store);
    Append(env, init, run, s, step);
    run', s' := run + [step], Next(env, s, step);
  }

  /** A call publishes its response. */
  lemma {:induction false} CallCloses(env: Env, init: State, run: seq<Step>, s: State, call: nat)
    returns (run': seq<Step>, s': State)
    requires Execute(env, init, run) == Some(s) && call in s.calls && s.calls[call].phase.Returning?
    ensures Execute(env, init, run') == Some(s') && run <= run'
    ensures var c := s.calls[call];
            s' == s.(calls := s.calls[call := c.(phase := Closed(c.phase.response, s.steps))],
                     inFlight := s.inFlight - {c.key}, steps := s.steps + 1)
  {
    hide Execute, FastPath, Receive, CallerEffect, RefreshEffect, StartEffect;
    var step := OfCall(call, CallOp.Close);
    Append(env, init, run, s, step);
    run', s' := run + [step], Next(env, s, step);
  }

  /** A refresh by key begins and finds a record to ask about. */
  lemma {:induction false} RefresherLoads(env: Env, init: State, run: seq<Step>, s: State, id: nat, key: string)
    returns (run': seq<Step>, s': State)
    requires Execute(env, init, run) == Some(s) && id !in s.refreshers && key != "" && key !in s.refreshing
    requires key in s.store && !Blank(s.store[key].url) && !IsNegativeCacheableStatus(s.store[key].sourceStatus)
    ensures Execute(env, init, run') == Some(s') && run <= run'
    ensures s' == s.(refreshers := s.refreshers[id := Refresher(key, None, Loaded(s.store[key], s.store[key].url))],
                     refreshing := s.refreshing + {key}, steps := s.steps + 2)
  {
    hide Execute, Blank, CallerEffect, CallEffect, CallerEnabled, CallEnabled;
    var step := StartRefresh(id, ByKey(key));
    Append(env, init, run, s, step);
    run', s' := run + [step], Next(env, s, step);
    step := OfRefresher(id, LoadRecord);
    Append(env, init, run', s', step);
    run', s' := run' + [step], Next(env, s', step);
  }

  /** A refresher gets an answer from the upstream. */
  lemma {:induction false} RefresherAsks(env: Env, init: State, run: seq<Step>, s: State, id: nat, answer: Answer)
    returns (run': seq<Step>, s': State)
    requires Execute(env, init, run) == Some(s) && id in s.refreshers && s.refreshers[id].phase.Loaded?
    requires Possible(env, s.refreshers[id].phase.url, s.refreshers[id].phase.record.etag, s.clock, answer)
    ensures Execute(env, init, run') == Some(s') && run <= run'
    ensures var r := s.refreshers[id];
            var outcome := RefreshReceive(env, r.phase.record, r.phase.url, s.clock, answer);
            && s'.refreshers == s.refreshers[id := r.(phase := if outcome.Failed? then Ending else Saving(outcome))]
            && s' == s.(refreshers := s'.refreshers, counters := s'.counters, steps := s.steps + 2)
  {
    hide Execute, Blank, RefreshReceive, Possible, CountsAsError, CallerEffect, CallEffect, StartEffect,
         CallerEnabled, CallEnabled;
    var step := OfRefresher(id, SendConditional);
    Append(env, init, run, s, step);
    run', s' := run + [step], Next(env, s, step);
    step := OfRefresher(id, FinishRefresh(answer));
    Append(env, init, run', s', step);
    run', s' := run' + [step], Next(env, s', step);
  }
}
