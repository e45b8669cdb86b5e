/**
  Conservation of the metrics counters over every interleaving.
 */
module Accounting {
  import opened VersionService

  /** The processes in a phase of interest. */
  function Ids<T>(processes: map<nat, T>, p: T -> bool): set<nat> {
    set id | id in processes.Keys && p(processes[id])
  }

  function Count<T>(processes: map<nat, T>, p: T -> bool): nat {
    |Ids(processes, p)|
  }

  lemma CountUpdate<T>(processes: map<nat, T>, id: nat, t: T, p: T -> bool)
    ensures Count(processes[id := t], p) ==
            Count(processes, p) + (if p(t) then 1 else 0) - (if id in processes && p(processes[id]) then 1 else 0)
  {
    var processes' := processes[id := t];
    forall other: nat | other != id
      ensures other in Ids(processes', p) <==> other in Ids(processes, p)
    {
      assert other in processes' <==> other in processes;
    }
    SizeAfter(Ids(processes, p), Ids(processes', p), id);
  }

  lemma SizeAfter(before: set<nat>, after: set<nat>, id: nat)
    requires forall other: nat | other != id :: other in after <==> other in before
    ensures |after| == |before| + (if id in after then 1 else 0) - (if id in before then 1 else 0)
  {
    var others := before - {id};
    assert before == if id in before then others + {id} else others;
    assert after == if id in after then others + {id} else others;
  }

  lemma CountNone<T>(p: T -> bool)
    ensures Count(map[], p) == 0
  {
    assert Ids(map[], p) == {};
  }

  predicate CallFetching(c: Call) { c.phase.Fetching? }
  predicate RefreshRequesting(r: Refresher) { r.phase.Requesting? }
  predicate RefreshUnresolved(r: Refresher) { r.phase.Requesting? || r.phase.Saving? }
  predicate RefreshResolved(r: Refresher) { r.phase.Ending? || r.phase.Ended? }
  predicate RefreshEnded(r: Refresher) { r.phase.Ended? }

  /** Every upstream request is a cache miss or a refresh that is unresolved or has been counted
      once; errors never outnumber the finished requests; every body bumps exactly one of the
      four refresh counters; every return is a finished body or a deduplicated call. */
  ghost predicate Balanced(s: State) {
    var n := s.counters;
    && n.requests == n.misses + n.updated + n.notMod + n.failed + Count(s.refreshers, RefreshUnresolved)
    && n.errors + Count(s.calls, CallFetching) + Count(s.refreshers, RefreshRequesting) <= n.requests
    && n.updated + n.notMod + n.skipped + n.failed == Count(s.refreshers, RefreshResolved)
    && n.processed + n.detached == n.deduplicated + Count(s.refreshers, RefreshEnded)
  }

  lemma BalancedByCaller(env: Env, s: State, id: nat, op: CallerOp)
    requires Balanced(s) && id in s.callers && CallerEnabled(s, s.callers[id], op)
    ensures Balanced(CallerEffect(env, s, id, op))
  {
    hide CallerNext;
    var c := s.callers[id];
    if Leads(s, c, op) {
      CountUpdate(s.calls, op.newCall, Call(c.url, c.key, c.force, Begun), CallFetching);
    }
  }

  lemma BalancedByCall(env: Env, s: State, id: nat, op: CallOp)
    requires Balanced(s) && id in s.calls && CallEnabled(env, s, s.calls[id], op)
    ensures Balanced(CallEffect(env, s, id, op))
  {
    hide Receive, FastPath, Possible;
    var c := s.calls[id];
    CountUpdate(s.calls, id, c.(phase := CallNext(env, s, c, op)), CallFetching);
  }

  lemma BalancedByRefresher(env: Env, s: State, id: nat, op: RefreshOp)
    requires Balanced(s) && id in s.refreshers && RefreshEnabled(env, s, s.refreshers[id], op)
    ensures Balanced(RefreshEffect(env, s, id, op))
  {
    hide RefreshReceive, Possible, Blank, Ids;
    var r := s.refreshers[id];
    var r' := r.(phase := RefreshNext(env, s, r, op));
    CountUpdate(s.refreshers, id, r', RefreshRequesting);
    CountUpdate(s.refreshers, id, r', RefreshUnresolved);
    CountUpdate(s.refreshers, id, r', RefreshResolved);
    CountUpdate(s.refreshers, id, r', RefreshEnded);
  }

  lemma BalancedByStart(env: Env, s: State, id: nat, origin: Origin)
    requires Balanced(s) && id !in s.refreshers
    ensures Balanced(StartEffect(env, s, id, origin))
  {
    hide Ids;
    var (key, url) := Target(env, origin);
    var r := Refresher(key, url, Started);
    CountUpdate(s.refreshers, id, r, RefreshRequesting);
    CountUpdate(s.refreshers, id, r, RefreshUnresolved);
    CountUpdate(s.refreshers, id, r, RefreshResolved);
    CountUpdate(s.refreshers, id, r, RefreshEnded);
  }

  lemma BalancedStep(env: Env, s: State, step: Step)
    requires Enabled(env, s, step) && Balanced(s)
    ensures Balanced(Next(env, s, step))
  {
    hide CallerEffect, CallEffect, RefreshEffect, StartEffect, Ids;
    match step {
      case OfCaller(id, op) => BalancedByCaller(env, s, id, op);
      case OfCall(id, op) => BalancedByCall(env, s, id, op);
      case OfRefresher(id, op) => BalancedByRefresher(env, s, id, op);
      case StartRefresh(id, origin) => BalancedByStart(env, s, id, origin);
      case _ =>
    }
  }

  lemma {:induction false} BalancedAlways(env: Env, init: State, run: seq<Step>, s: State)
    requires Reaches(env, init, run, s)
    ensures Balanced(s)
  {
    if run == [] {
      CountNone(CallFetching);
      CountNone(RefreshRequesting);
      CountNone(RefreshUnresolved);
      CountNone(RefreshResolved);
      CountNone(RefreshEnded);
    } else {
      var before := Execute(env, init, run[..|run| - 1]).value;
      BalancedAlways(env, init, run[..|run| - 1], before);
      BalancedStep(env, before, run[|run| - 1]);
    }
  }

  /** No refresh body and no call is under way. */
  predicate Quiescent(s: State) {
    && (forall id <- s.calls :: s.calls[id].phase.Closed?)
    && (forall id <- s.refreshers :: s.refreshers[id].phase.Ended?)
  }

  /** At quiescence the counters balance exactly. */
  lemma ConservationAtQuiescence(env: Env, init: State, run: seq<Step>, s: State)
    requires Reaches(env, init, run, s) && Quiescent(s)
    ensures var n := s.counters;
            && n.requests == n.misses + n.updated + n.notMod + n.failed
            && n.errors <= n.requests
            && n.updated + n.notMod + n.skipped + n.failed == |s.refreshers|
            && n.processed + n.detached == n.updated + n.notMod + n.skipped + n.failed + n.deduplicated
  {
    BalancedAlways(env, init, run, s);
    assert Ids(s.refreshers, RefreshUnresolved) == {};
    assert Ids(s.refreshers, RefreshEnded) == s.refreshers.Keys;
    assert Ids(s.refreshers, RefreshResolved) == s.refreshers.Keys;
  }

  /** Nobody asks for a refresh by request. */
  predicate ByKeyOnly(run: seq<Step>) {
    forall step <- run :: step.StartRefresh? ==> step.origin.ByKey?
  }

  ghost predicate NoneDetached(s: State) {
    s.counters.detached == 0 && forall id <- s.refreshers :: s.refreshers[id].url.None?
  }

  lemma NoneDetachedStep(env: Env, s: State, step: Step)
    requires NoneDetached(s) && Enabled(env, s, step) && (step.StartRefresh? ==> step.origin.ByKey?)
    ensures NoneDetached(Next(env, s, step))
  {
    hide Receive, RefreshReceive, FastPath, CallNext, CallActivity, CallerNext, RefreshNext, Possible, Blank,
         ArriveNext;
  }

  lemma {:induction false} NoneDetachedRun(env: Env, init: State, run: seq<Step>, s: State)
    requires Reaches(env, init, run, s) && ByKeyOnly(run)
    ensures NoneDetached(s)
  {
    hide Next, Enabled;
    if run != [] {
      var before := Execute(env, init, run[..|run| - 1]).value;
      NoneDetachedRun(env, init, run[..|run| - 1], before);
      NoneDetachedStep(env, before, run[|run| - 1]);
    }
  }

  /** When only workers refresh, the processed refreshes are those of the four outcomes and the duplicates. */
  lemma {:induction false} WorkersConserve(env: Env, init: State, run: seq<Step>, s: State)
    requires Reaches(env, init, run, s) && Quiescent(s) && ByKeyOnly(run)
    ensures var n := s.counters; n.processed == n.updated + n.notMod + n.skipped + n.failed + n.deduplicated
  {
    hide Execute;
    ConservationAtQuiescence(env, init, run, s);
    NoneDetachedRun(env, init, run, s);
  }
}
