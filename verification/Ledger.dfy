/**
  What every counter has counted: the steps of the run and the answers that they carry.
 */
module Ledger {
  import opened Records
  import opened VersionService
  import opened Exchanges
  import opened Accounting

  /** How many steps of the run are of a kind. */
  function StepsThat(run: seq<Step>, kind: Step -> bool): nat {
    if run == [] then 0
    else StepsThat(run[..|run| - 1], kind) + (if kind(run[|run| - 1]) then 1 else 0)
  }

  predicate IsForegroundRequest(step: Step) { step.OfCall? && step.callOp.Send? }
  predicate IsBackgroundRequest(step: Step) { step.OfRefresher? && step.refreshOp.SendConditional? }
  predicate IsLoad(step: Step) { step.OfRefresher? && step.refreshOp.LoadRecord? }

  /** The end of an exchange in a transport failure or with a status from 400 on. */
  predicate EndsInError(step: Step) {
    || (step.OfCall? && step.callOp.Finish? && IsError(step.callOp.answer))
    || (step.OfRefresher? && step.refreshOp.FinishRefresh? && IsError(step.refreshOp.reply))
  }

  /** The end of a background exchange with a 304. */
  predicate EndsNotModified(step: Step) {
    && step.OfRefresher? && step.refreshOp.FinishRefresh?
    && step.refreshOp.reply.Replied? && step.refreshOp.reply.reply.status == 304
  }

  /** The end of a background exchange with a 200 whose body is valid JSON within the limit. */
  predicate EndsUpdated(env: Env, step: Step) {
    && step.OfRefresher? && step.refreshOp.FinishRefresh?
    && step.refreshOp.reply.Replied? && step.refreshOp.reply.reply.status == 200
    && var body := step.refreshOp.reply.reply.body;
       body.Some? && |body.value| <= env.maxBytes && env.jsonValid(body.value)
  }

  predicate EndsRefresh(step: Step) { step.OfRefresher? && step.refreshOp.FinishRefresh? }

  predicate HoldsNotModified(r: Refresher) { r.phase.Saving? && r.phase.outcome.NotModified? }
  predicate HoldsUpdated(r: Refresher) { r.phase.Saving? && r.phase.outcome.Updated? }
  predicate IsLoaded(r: Refresher) { r.phase.Loaded? }

  /** The caller was answered from the cache by itself. */
  predicate WasHit(c: Caller) { c.phase.Served? && c.phase.response.cacheStatus == HIT }

  /** The call answered from the cache. */
  predicate AnsweredHit(c: Call) {
    match c.phase
    case Storing(_, response) => response.cacheStatus == HIT
    case Returning(response) => response.cacheStatus == HIT
    case Closed(response, _) => response.cacheStatus == HIT
    case _ => false
  }

  /** What the counters say of the run so far. */
  ghost predicate Counted(env: Env, run: seq<Step>, s: State) {
    var n := s.counters;
    && n.misses == StepsThat(run, IsForegroundRequest)
    && n.requests == StepsThat(run, IsForegroundRequest) + StepsThat(run, IsBackgroundRequest)
    && n.errors == StepsThat(run, EndsInError)
    && n.notMod + Count(s.refreshers, HoldsNotModified) == StepsThat(run, EndsNotModified)
    && n.updated + Count(s.refreshers, HoldsUpdated) == StepsThat(run, step => EndsUpdated(env, step))
    && n.notMod + n.updated + n.failed + Count(s.refreshers, HoldsNotModified) + Count(s.refreshers, HoldsUpdated) ==
       StepsThat(run, EndsRefresh)
    && n.skipped + StepsThat(run, IsBackgroundRequest) + Count(s.refreshers, IsLoaded) == StepsThat(run, IsLoad)
    && n.hits == Count(s.callers, WasHit) + Count(s.calls, AnsweredHit)
  }

  /** The same, for the counts before and after one step. */
  ghost predicate CountsBy(env: Env, s: State, step: Step, t: State) {
    var n, m := s.counters, t.counters;
    var one := (b: bool) => if b then 1 else 0;
    && m.misses == n.misses + one(IsForegroundRequest(step))
    && m.requests == n.requests + one(IsForegroundRequest(step)) + one(IsBackgroundRequest(step))
    && m.errors == n.errors + one(EndsInError(step))
    && m.notMod + Count(t.refreshers, HoldsNotModified) ==
       n.notMod + Count(s.refreshers, HoldsNotModified) + one(EndsNotModified(step))
    && m.updated + Count(t.refreshers, HoldsUpdated) ==
       n.updated + Count(s.refreshers, HoldsUpdated) + one(EndsUpdated(env, step))
    && m.notMod + m.updated + m.failed + Count(t.refreshers, HoldsNotModified) + Count(t.refreshers, HoldsUpdated) ==
       n.notMod + n.updated + n.failed + Count(s.refreshers, HoldsNotModified) + Count(s.refreshers, HoldsUpdated)
       + one(EndsRefresh(step))
    && m.skipped + Count(t.refreshers, IsLoaded) + one(IsBackgroundRequest(step)) ==
       n.skipped + Count(s.refreshers, IsLoaded) + one(IsLoad(step))
    && m.hits - Count(t.callers, WasHit) - Count(t.calls, AnsweredHit) ==
       n.hits - Count(s.callers, WasHit) - Count(s.calls, AnsweredHit)
  }

  lemma CountsByCaller(env: Env, s: State, id: nat, op: CallerOp)
    requires id in s.callers && CallerEnabled(s, s.callers[id], op)
    ensures CountsBy(env, s, OfCaller(id, op), CallerEffect(env, s, id, op))
  {
    hide FastPath, Ids;
    var c := s.callers[id];
    FastPathServes(env, c.key, c.force, if c.phase.Looked? then c.phase.hit else None, s.clock);
    CountUpdate(s.callers, id, c.(phase := CallerNext(env, s, c, op)), WasHit);
    if Leads(s, c, op) {
      CountUpdate(s.calls, op.newCall, Call(c.url, c.key, c.force, Begun), AnsweredHit);
    }
  }

  lemma CountsByCall(env: Env, s: State, id: nat, op: CallOp)
    requires id in s.calls && CallEnabled(env, s, s.calls[id], op)
    ensures CountsBy(env, s, OfCall(id, op), CallEffect(env, s, id, op))
  {
    hide FastPath, Receive, Possible, Ids, CallActivity, MayServe;
    var c := s.calls[id];
    FastPathServes(env, c.key, c.force, if c.phase.Read? then c.phase.hit else None, s.clock);
    if op.Finish? {
      ReceiveEnds(env, c.key, c.url, c.force, c.phase.hit, c.phase.now, op.answer);
    }
    CountUpdate(s.calls, id, c.(phase := CallNext(env, s, c, op)), AnsweredHit);
  }

  lemma CountsByRefresher(env: Env, s: State, id: nat, op: RefreshOp)
    requires id in s.refreshers && RefreshEnabled(env, s, s.refreshers[id], op)
    ensures CountsBy(env, s, OfRefresher(id, op), RefreshEffect(env, s, id, op))
  {
    hide RefreshReceive, Possible, Blank, Ids;
    var r := s.refreshers[id];
    if op.FinishRefresh? {
      RefreshReceiveEnds(env, r.phase.record, r.phase.url, r.phase.now, op.reply);
    }
    var r' := r.(phase := RefreshNext(env, s, r, op));
    CountUpdate(s.refreshers, id, r', HoldsNotModified);
    CountUpdate(s.refreshers, id, r', HoldsUpdated);
    CountUpdate(s.refreshers, id, r', IsLoaded);
  }

  lemma CountsByStart(env: Env, s: State, id: nat, origin: Origin)
    requires id !in s.refreshers
    ensures CountsBy(env, s, StartRefresh(id, origin), StartEffect(env, s, id, origin))
  {
    hide Ids, Target;
    var (key, url) := Target(env, origin);
    CountUpdate(s.refreshers, id, Refresher(key, url, Started), HoldsNotModified);
    CountUpdate(s.refreshers, id, Refresher(key, url, Started), HoldsUpdated);
    CountUpdate(s.refreshers, id, Refresher(key, url, Started), IsLoaded);
  }

  lemma CountsByArrival(env: Env, s: State, id: nat, raw: string, force: bool)
    requires id !in s.callers
    ensures var c := ArriveNext(env, s.clock, raw, force);
            CountsBy(env, s, Arrive(id, raw, force), s.(callers := s.callers[id := c]))
  {
    hide Ids;
    CountUpdate(s.callers, id, ArriveNext(env, s.clock, raw, force), WasHit);
  }

  lemma CountsByStep(env: Env, s: State, step: Step)
    requires Enabled(env, s, step)
    ensures CountsBy(env, s, step, Next(env, s, step))
  {
    hide CountsBy, CallerEffect, CallEffect, RefreshEffect, StartEffect, ArriveNext;
    match step {
      case OfCaller(id, op) => CountsByCaller(env, s, id, op);
      case OfCall(id, op) => CountsByCall(env, s, id, op);
      case OfRefresher(id, op) => CountsByRefresher(env, s, id, op);
      case StartRefresh(id, origin) => CountsByStart(env, s, id, origin);
      case Arrive(id, raw, force) => CountsByArrival(env, s, id, raw, force);
      case _ => CountsByOther(env, s, step);
    }
    StepsAreNotCounted(env, s, step, Effect(env, s, step), s.steps + 1);
  }

  lemma CountsByOther(env: Env, s: State, step: Step)
    requires (step.Tick? || step.Evict?) && Enabled(env, s, step)
    ensures CountsBy(env, s, step, Effect(env, s, step))
  {
    hide Ids;
  }

  lemma StepsAreNotCounted(env: Env, s: State, step: Step, t: State, steps: nat)
    requires CountsBy(env, s, step, t)
    ensures CountsBy(env, s, step, t.(steps := steps))
  {
    hide Ids;
  }

  /** In every reachable state each counter is exactly what the run has done: misses and requests are the
      requests sent, errors the exchanges that ended in a transport failure or with a status from 400 on, a
      refresh is not modified by a 304 and updated by a usable 200 and failed by anything else, skipped are
      the loads that asked for nothing, and hits the answers from the cache. */
  lemma {:induction false} CountersTellTheRun(env: Env, init: State, run: seq<Step>, s: State)
    requires Reaches(env, init, run, s)
    ensures Counted(env, run, s)
  {
    hide Next, Enabled, Ids, EndsUpdated, EndsNotModified, EndsInError, EndsRefresh;
    if run == [] {
      CountNone(HoldsNotModified);
      CountNone(HoldsUpdated);
      CountNone(IsLoaded);
      CountNone(WasHit);
      CountNone(AnsweredHit);
    } else {
      var before := Execute(env, init, run[..|run| - 1]).value;
      CountersTellTheRun(env, init, run[..|run| - 1], before);
      CountsByStep(env, before, run[|run| - 1]);
    }
  }
}
