/**
  The code of the version service: an object whose methods update the store, the in-flight maps,
  the counters and the activity in place, while other goroutines do the same.  Every method is a
  stretch of a run of the state machine, so what holds of all runs holds of the code.
 */
module Service {
  import opened Records
  import opened VersionService
  import opened Exchanges
  import opened Runs
  import opened Coalescing

  /** What every exchange ends with, given URL, ETag and the moment of its end. */
  type Upstream = (string, string, int) -> Answer

  ghost predicate CanHappen(env: Env, upstream: Upstream) {
    forall url, etag, moment :: Possible(env, url, etag, moment, upstream(url, etag, moment))
  }

  /** The processes that a goroutine does not leave to others. */
  datatype Mine = Mine(callers: set<nat>, calls: set<nat>, refreshers: set<nat>)

  ghost predicate Kept(s: State, t: State, mine: Mine) {
    && (forall id <- mine.callers :: id in s.callers ==> id in t.callers && t.callers[id] == s.callers[id])
    && (forall id <- mine.calls :: id in s.calls ==> id in t.calls && t.calls[id] == s.calls[id])
    && (forall id <- mine.refreshers ::
          id in s.refreshers ==> id in t.refreshers && t.refreshers[id] == s.refreshers[id])
  }

  /** A goroutine of a call has moved the call and nothing else of its own. */
  ghost predicate CallMoved(s: State, t: State, id: nat, c: Call, mine: Mine) {
    && id in t.calls && t.calls[id] == c
    && Kept(s, t, mine.(calls := mine.calls - {id}))
  }

  /** Others have run, and then the call has moved. */
  lemma CallMovesAfterOthers(s: State, t: State, u: State, id: nat, c: Call, mine: Mine)
    requires Kept(s, t, mine) && id in t.calls
    requires u.calls == t.calls[id := c] && u.callers == t.callers && u.refreshers == t.refreshers
    ensures CallMoved(s, u, id, c, mine)
  {
  }

  lemma CallMovesOn(s: State, t: State, u: State, id: nat, c: Call, d: Call, mine: Mine)
    requires CallMoved(s, t, id, c, mine) && CallMoved(t, u, id, d, mine)
    ensures CallMoved(s, u, id, d, mine)
  {
  }

  /** A goroutine has moved a refresher and nothing else of its own. */
  ghost predicate RefresherMoved(s: State, t: State, id: nat, r: Refresher, mine: Mine) {
    && id in t.refreshers && t.refreshers[id] == r
    && Kept(s, t, mine.(refreshers := mine.refreshers - {id}))
  }

  lemma RefresherMovesAfterOthers(s: State, t: State, u: State, id: nat, r: Refresher, mine: Mine)
    requires Kept(s, t, mine)
    requires u.calls == t.calls && u.callers == t.callers && u.refreshers == t.refreshers[id := r]
    ensures RefresherMoved(s, u, id, r, mine)
  {
  }

  lemma RefresherMovesOn(s: State, t: State, u: State, id: nat, r: Refresher, q: Refresher, mine: Mine)
    requires RefresherMoved(s, t, id, r, mine) && RefresherMoved(t, u, id, q, mine)
    ensures RefresherMoved(s, u, id, q, mine)
  {
  }

  /** The processes that a step is a step of. */
  function Movers(step: Step): Mine {
    match step
    case Arrive(id, _, _) => Mine({id}, {}, {})
    case OfCaller(id, JoinCall(newCall)) => Mine({id}, {newCall}, {})
    case OfCaller(id, _) => Mine({id}, {}, {})
    case OfCall(id, _) => Mine({}, {id}, {})
    case StartRefresh(id, _) => Mine({}, {}, {id})
    case OfRefresher(id, _) => Mine({}, {}, {id})
    case _ => Mine({}, {}, {})
  }

  lemma CallerStays(env: Env, s: State, step: Step, id: nat)
    requires Enabled(env, s, step) && id in s.callers && id !in Movers(step).callers
    ensures var t := Next(env, s, step); id in t.callers && t.callers[id] == s.callers[id]
  {
    hide CallerNext, CallNext, CallCount, CallActivity, RefreshNext, RefreshCount, Possible, Target, ArriveNext;
  }

  lemma CallStays(env: Env, s: State, step: Step, id: nat)
    requires Enabled(env, s, step) && id in s.calls && id !in Movers(step).calls
    ensures var t := Next(env, s, step); id in t.calls && t.calls[id] == s.calls[id]
  {
    hide CallerNext, CallNext, CallCount, CallActivity, RefreshNext, RefreshCount, Possible, Target, ArriveNext;
  }

  lemma RefresherStays(env: Env, s: State, step: Step, id: nat)
    requires Enabled(env, s, step) && id in s.refreshers && id !in Movers(step).refreshers
    ensures var t := Next(env, s, step); id in t.refreshers && t.refreshers[id] == s.refreshers[id]
  {
    hide CallerNext, CallNext, CallCount, CallActivity, RefreshNext, RefreshCount, Possible, Target, ArriveNext;
  }

  /** Nobody moves but the process whose step it is: whatever others do, a goroutine finds its own
      processes as it left them. */
  lemma OthersKeepMine(env: Env, s: State, step: Step, mine: Mine)
    requires Enabled(env, s, step)
    requires Movers(step).callers !! mine.callers && Movers(step).calls !! mine.calls
    requires Movers(step).refreshers !! mine.refreshers
    ensures Kept(s, Next(env, s, step), mine)
  {
    hide Next, Enabled, Movers;
    var t := Next(env, s, step);
    forall id | id in mine.callers && id in s.callers ensures id in t.callers && t.callers[id] == s.callers[id] {
      CallerStays(env, s, step, id);
    }
    forall id | id in mine.calls && id in s.calls ensures id in t.calls && t.calls[id] == s.calls[id] {
      CallStays(env, s, step, id);
    }
    forall id | id in mine.refreshers && id in s.refreshers
      ensures id in t.refreshers && t.refreshers[id] == s.refreshers[id]
    {
      RefresherStays(env, s, step, id);
    }
  }

  /** The responses of the closed calls, and the identity of the next call. */
  ghost predicate Publishes(calls: map<nat, Call>, published: map<nat, Response>, nextCall: nat) {
    && (forall id <- calls :: id < nextCall)
    && (forall id <- published :: id in calls && calls[id].phase.Closed? && calls[id].phase.response == published[id])
    && (forall id <- calls :: calls[id].phase.Closed? ==> id in published)
  }

  lemma PublishesOpen(calls: map<nat, Call>, published: map<nat, Response>, nextCall: nat, id: nat, c: Call)
    requires Publishes(calls, published, nextCall)
    requires id in calls && !calls[id].phase.Closed? && !c.phase.Closed?
    ensures Publishes(calls[id := c], published, nextCall)
  {
  }

  lemma PublishesNew(calls: map<nat, Call>, published: map<nat, Response>, nextCall: nat, c: Call)
    requires Publishes(calls, published, nextCall) && !c.phase.Closed?
    ensures nextCall !in calls && Publishes(calls[nextCall := c], published, nextCall + 1)
  {
  }

  lemma PublishesClosed(calls: map<nat, Call>, published: map<nat, Response>, nextCall: nat, id: nat, c: Call)
    requires Publishes(calls, published, nextCall)
    requires id in calls && !calls[id].phase.Closed? && c.phase.Closed?
    ensures Publishes(calls[id := c], published[id := c.phase.response], nextCall)
  {
  }

  /** The step was taken after `before`. */
  ghost predicate Gained(before: seq<Step>, after: seq<Step>, step: Step) {
    before <= after && step in after[|before|..]
  }

  lemma {:induction false} GainedThere(before: seq<Step>, there: seq<Step>, after: seq<Step>, step: Step)
    requires before <= there && there + [step] <= after
    ensures Gained(before, after, step)
  {
    assert after[|before|..][|there| - |before|] == step;
  }

  /** At some moment after `before` this was cached for the key, a record or none. */
  ghost predicate WasCached(
    env: Env, init: State, before: seq<Step>, after: seq<Step>, key: string, cached: Option<Record>)
  {
    exists k: nat :: |before| <= k <= |after| && CachedAfter(env, init, after[..k], key, cached)
  }

  ghost predicate CachedAfter(env: Env, init: State, run: seq<Step>, key: string, cached: Option<Record>) {
    Execute(env, init, run).Some? && Lookup(Execute(env, init, run).value, key) == cached
  }

  lemma {:induction false} CachedThere(
    env: Env, init: State, before: seq<Step>, there: seq<Step>, s: State, after: seq<Step>, key: string)
    requires before <= there <= after && Execute(env, init, there) == Some(s)
    ensures WasCached(env, init, before, after, key, Lookup(s, key))
  {
    assert after[..|there|] == there;
    assert CachedAfter(env, init, after[..|there|], key, Lookup(s, key));
  }

  lemma CachedLater(env: Env, init: State, first: seq<Step>, before: seq<Step>, there: seq<Step>, after: seq<Step>,
                    key: string, cached: Option<Record>)
    requires WasCached(env, init, before, there, key, cached) && first <= before && there <= after
    ensures WasCached(env, init, first, after, key, cached)
  {
    var k: nat :| |before| <= k <= |there| && CachedAfter(env, init, there[..k], key, cached);
    assert after[..k] == there[..k];
  }

  /** The ETag that a conditional request for a cached record carries, or none. */
  function ETagFor(hit: Option<Record>): string {
    if hit.Some? && hit.value.sourceStatus != 404 && hit.value.sourceStatus != 410 then hit.value.etag else ""
  }

  /** What a call found in the cache, when it decided, and how its exchange ended, if it had one. */
  datatype Handling = Handling(hit: Option<Record>, now: int, moment: int, stored: Option<Record>)

  /** The call has answered from what was cached, if that may be served, or else from its exchange. */
  ghost predicate IsHandled(
    env: Env, init: State, before: seq<Step>, after: seq<Step>, id: nat, url: string, key: string, force: bool,
    upstream: Upstream, from: int, to: int, how: Handling, response: Response)
  {
    && WasCached(env, init, before, after, key, how.hit) && from <= how.now <= how.moment <= to
    && if !force && how.hit.Some? && MayServe(how.hit.value, how.now, env.hardTTL) then
         ServedFrom(how.hit.value, key, how.now, response)
       else
         var answer := upstream(url, ETagFor(how.hit), how.moment);
         && Gained(before, after, OfCall(id, Finish(answer)))
         && ForegroundEnds(env, url, key, force, how.hit, how.now, answer, response, how.stored)
  }

  /** What a refresh asks the upstream about, and when it is answered. */
  datatype Asked = Asked(record: Record, url: string, moment: int)

  /** A refresh that found this in the cache has asked for this, or had nothing to ask for. */
  ghost predicate AsksFor(cached: Option<Record>, given: Option<string>, asked: Option<Asked>) {
    match asked
    case Some(Asked(record, url, _)) =>
      && cached == Some(record) && record.sourceStatus != 404 && record.sourceStatus != 410
      && url == (if given.Some? then given.value else record.url)
    case None =>
      cached.None? || cached.value.sourceStatus == 404 || cached.value.sourceStatus == 410
      || (given.None? && OnlySpace(cached.value.url))
  }

  /** The refresh of the key has ended; if it asked, the request carried the ETag of the record that it had
      found, and the answer came in between. */
  ghost predicate Revalidated(env: Env, init: State, before: seq<Step>, after: seq<Step>, id: nat, key: string,
                              given: Option<string>, upstream: Upstream, from: int, to: int, asked: Option<Asked>)
  {
    && (exists cached :: WasCached(env, init, before, after, key, cached) && AsksFor(cached, given, asked))
    && (asked.Some? ==>
          var Asked(record, url, moment) := asked.value;
          && from <= moment <= to
          && Gained(before, after, OfRefresher(id, FinishRefresh(upstream(url, record.etag, moment)))))
  }

  lemma {:induction false} GainedLater(
    first: seq<Step>, before: seq<Step>, after: seq<Step>, last: seq<Step>, step: Step)
    requires Gained(before, after, step) && first <= before && after <= last
    ensures Gained(first, last, step)
  {
    var i :| |before| <= i < |after| && after[i] == step;
    assert last[|first|..][i - |first|] == step;
  }

  lemma RevalidatedSince(
    env: Env, init: State, first: seq<Step>, before: seq<Step>, after: seq<Step>, id: nat, key: string,
    given: Option<string>, upstream: Upstream, from: int, to: int, asked: Option<Asked>)
    requires first <= before
    requires Revalidated(env, init, before, after, id, key, given, upstream, from, to, asked)
    ensures Revalidated(env, init, first, after, id, key, given, upstream, from, to, asked)
  {
    hide AsksFor, CachedAfter;
    var cached :| WasCached(env, init, before, after, key, cached) && AsksFor(cached, given, asked);
    assert WasCached(env, init, first, after, key, cached);
    if asked.Some? {
      var Asked(record, url, moment) := asked.value;
      GainedLater(first, before, after, after, OfRefresher(id, FinishRefresh(upstream(url, record.etag, moment))));
    }
  }

  lemma WantedIsAsked(
    cached: Option<Record>, given: Option<string>, wanted: Option<(Record, string)>, asked: Option<Asked>)
    requires wanted.None? <==>
             cached.None? || (given.None? && Blank(cached.value.url))
             || IsNegativeCacheableStatus(cached.value.sourceStatus)
    requires wanted.Some? ==>
               wanted.value == (cached.value, if given.Some? then given.value else cached.value.url)
    requires if wanted.Some? then asked.Some? && (asked.value.record, asked.value.url) == wanted.value else asked.None?
    ensures AsksFor(cached, given, asked)
  {
    hide Blank, OnlySpace;
    if cached.Some? {
      BlankIff(cached.value.url);
    }
  }

  class Service {
    const env: Env
    var clock: int
    var store: map<string, Record>
    var inFlight: map<string, nat>
    var published: map<nat, Response>
    var nextCall: nat
    var refreshing: set<string>
    var counters: Counters
    var activity: seq<(string, int)>

    ghost const init: State
    ghost var history: seq<Step>
    ghost var machine: State

    constructor (env: Env, clock: int)
      requires clock > 0
      ensures Valid() && this.env == env && store == map[] && history == []
    {
      this.env := env;
      this.clock := clock;
      store, inFlight, published, nextCall, refreshing := map[], map[], map[], 0, {};
      counters := Counters(0, 0, 0, 0, 0, 0, 0, 0, 0, 0, 0);
      activity := [];
      var none := Counters(0, 0, 0, 0, 0, 0, 0, 0, 0, 0, 0);
      var start := State(clock, 0, map[], map[], map[], map[], map[], {}, none, []);
      init, history, machine := start, [], start;
    }

    /** The fields are those of a reachable state of the machine. */
    ghost predicate Valid()
      reads this
    {
      && Reaches(env, init, history, machine)
      && machine.clock == clock
      && machine.store == store
      && machine.inFlight == inFlight
      && machine.refreshing == refreshing
      && machine.counters == counters
      && machine.activity == activity
      && Publishes(machine.calls, published, nextCall)
    }

    ghost method Advance(step: Step)
      requires Reaches(env, init, history, machine) && Enabled(env, machine, step)
      modifies this`history, this`machine
      ensures machine == Next(env, old(machine), step) && history == old(history) + [step]
      ensures Reaches(env, init, history, machine)
    {
      hide Next, Enabled, Execute;
      Append(env, init, history, machine, step);
      history, machine := history + [step], Next(env, machine, step);
    }

    ghost method AdvanceCaller(id: nat, op: CallerOp)
      requires Reaches(env, init, history, machine)
      requires id in machine.callers && CallerEnabled(machine, machine.callers[id], op)
      modifies this`history, this`machine
      ensures history == old(history) + [OfCaller(id, op)] && Reaches(env, init, history, machine)
      ensures machine == CallerEffect(env, old(machine), id, op).(steps := old(machine.steps) + 1)
    {
      hide Reaches, CallEffect, RefreshEffect, StartEffect, CallEnabled, RefreshEnabled;
      Advance(OfCaller(id, op));
    }

    ghost method AdvanceCall(id: nat, op: CallOp)
      requires Reaches(env, init, history, machine)
      requires id in machine.calls && CallEnabled(env, machine, machine.calls[id], op)
      modifies this`history, this`machine
      ensures history == old(history) + [OfCall(id, op)] && Reaches(env, init, history, machine)
      ensures machine == CallEffect(env, old(machine), id, op).(steps := old(machine.steps) + 1)
    {
      hide Reaches, CallerEffect, RefreshEffect, StartEffect, CallerEnabled, RefreshEnabled;
      Advance(OfCall(id, op));
    }

    ghost method AdvanceRefresher(id: nat, op: RefreshOp)
      requires Reaches(env, init, history, machine)
      requires id in machine.refreshers && RefreshEnabled(env, machine, machine.refreshers[id], op)
      modifies this`history, this`machine
      ensures history == old(history) + [OfRefresher(id, op)] && Reaches(env, init, history, machine)
      ensures machine == RefreshEffect(env, old(machine), id, op).(steps := old(machine.steps) + 1)
    {
      hide Reaches, CallerEffect, CallEffect, StartEffect, CallerEnabled, CallEnabled;
      Advance(OfRefresher(id, op));
    }

    /** Between two steps of a goroutine, others run and time passes.  Its callers may rely on no more
        than this: the object stays valid, their own processes stay as they are and the clock does not go back. */
    method Others(ghost mine: Mine)
      requires Valid()
      modifies this
      ensures Valid() && old(history) <= history && Kept(old(machine), machine, mine)
      ensures old(clock) <= clock
    {
      hide Reaches, Publishes, CallerEffect, CallEffect, RefreshEffect, StartEffect;
      var elapsed: nat, evicted: set<string> := *, *;
      clock := clock + elapsed;
      Advance(Tick(elapsed));
      store := store - evicted;
      Advance(Evict(evicted));
    }

    // ---------------------------------------------------------------- handle, the cache

    /** The part of `handle` that may answer from the cache. */
    method AnswerFromCache(key: string, force: bool, hit: Option<Record>) returns (now: int, served: Option<Response>)
      modifies this`counters, this`activity
      ensures now == clock && served == FastPath(env, key, force, hit, now)
      ensures served.Some? <==> !force && hit.Some? && MayServe(hit.value, now, env.hardTTL)
      ensures served.Some? ==> ServedFrom(hit.value, key, now, served.value)
      ensures counters == if served.Some? then old(counters).(hits := old(counters.hits) + 1) else old(counters)
      ensures activity == if served.Some? then old(activity) + [(key, now)] else old(activity)
    {
      now := clock;
      var validCacheHit := hit.Some?;
      if hit.Some? && !IsNegativeCacheableStatus(hit.value.sourceStatus) && IsHardExpired(hit.value, now, env.hardTTL) {
        validCacheHit := false;
      }
      if validCacheHit && !force {
        if ShouldServeNegativeCachedRecord(hit.value, now) {
          activity := activity + [(key, now)];
          counters := counters.(hits := counters.hits + 1);
          return now, Some(Response(hit.value.sourceStatus, Raw(hit.value.payload), HIT, key, 0, now));
        }
        if !IsNegativeCacheableStatus(hit.value.sourceStatus) {
          activity := activity + [(key, now)];
          counters := counters.(hits := counters.hits + 1);
          return now, Some(Response(200, Raw(hit.value.payload), HIT, key, 0, now));
        }
      }
      served := None;
    }

    method LookForCall(ghost id: nat, key: string) returns (hit: Option<Record>)
      requires Valid()
      requires id in machine.calls && machine.calls[id].key == key && machine.calls[id].phase.Begun?
      modifies this`history, this`machine
      ensures Valid() && old(history) <= history
      ensures hit == if key in store then Some(store[key]) else None
      ensures machine.calls == old(machine.calls)[id := old(machine).calls[id].(phase := Read(hit))]
      ensures machine.callers == old(machine.callers) && machine.refreshers == old(machine.refreshers)
    {
      hide Reaches, Publishes, FastPath, Receive, Possible;
      hit := if key in store then Some(store[key]) else None;
      PublishesOpen(machine.calls, published, nextCall, id, machine.calls[id].(phase := Read(hit)));
      AdvanceCall(id, LookupRecord);
    }

    method DecideForCall(ghost id: nat, key: string, force: bool, hit: Option<Record>)
      returns (now: int, served: Option<Response>)
      requires Valid()
      requires id in machine.calls && machine.calls[id].key == key && machine.calls[id].force == force
      requires machine.calls[id].phase == Read(hit)
      modifies this`counters, this`activity, this`history, this`machine
      ensures Valid() && old(history) <= history
      ensures served.Some? <==> !force && hit.Some? && MayServe(hit.value, now, env.hardTTL)
      ensures served.Some? ==> ServedFrom(hit.value, key, now, served.value)
      ensures now == clock
      ensures var phase := if served.Some? then Returning(served.value) else Ready(hit, now);
              machine.calls == old(machine.calls)[id := old(machine).calls[id].(phase := phase)]
      ensures machine.callers == old(machine.callers) && machine.refreshers == old(machine.refreshers)
    {
      hide Reaches, Publishes, FastPath, MayServe, ServedFrom, Receive, Possible;
      now, served := AnswerFromCache(key, force, hit);
      var phase := if served.Some? then Returning(served.value) else Ready(hit, now);
      PublishesOpen(machine.calls, published, nextCall, id, machine.calls[id].(phase := phase));
      AdvanceCall(id, DecideFetch);
    }

    method LookForCaller(ghost id: nat, key: string) returns (hit: Option<Record>)
      requires Valid()
      requires id in machine.callers && machine.callers[id].key == key && machine.callers[id].phase.Arrived?
      modifies this`history, this`machine
      ensures Valid() && old(history) <= history
      ensures hit == if key in store then Some(store[key]) else None
      ensures machine.callers == old(machine.callers)[id := old(machine).callers[id].(phase := Looked(hit))]
    {
      hide Reaches, Publishes, FastPath;
      hit := if key in store then Some(store[key]) else None;
      AdvanceCaller(id, CacheLookup);
    }

    method DecideForCaller(ghost id: nat, key: string, force: bool, hit: Option<Record>)
      returns (now: int, served: Option<Response>)
      requires Valid()
      requires id in machine.callers && machine.callers[id].key == key && machine.callers[id].force == force
      requires machine.callers[id].phase == Looked(hit)
      modifies this`counters, this`activity, this`history, this`machine
      ensures Valid() && old(history) <= history
      ensures served.Some? <==> !force && hit.Some? && MayServe(hit.value, now, env.hardTTL)
      ensures served.Some? ==> ServedFrom(hit.value, key, now, served.value)
      ensures now == clock
      ensures var phase := if served.Some? then Served(served.value) else Joining;
              machine.callers == old(machine.callers)[id := old(machine).callers[id].(phase := phase)]
    {
      hide Reaches, Publishes, FastPath, MayServe, ServedFrom;
      now, served := AnswerFromCache(key, force, hit);
      AdvanceCaller(id, Decide);
    }

    // ---------------------------------------------------------------- handle, the upstream

    method SendForCall(ghost id: nat)
      requires Valid()
      requires id in machine.calls && machine.calls[id].phase.Ready?
      modifies this`counters, this`history, this`machine
      ensures Valid() && old(history) <= history
      ensures var c := old(machine).calls[id];
              machine.calls == old(machine.calls)[id := c.(phase := Fetching(c.phase.hit, c.phase.now))]
      ensures machine.callers == old(machine.callers) && machine.refreshers == old(machine.refreshers)
      ensures counters == old(counters).(misses := old(counters.misses) + 1, requests := old(counters.requests) + 1)
    {
      hide Reaches, Publishes, FastPath, Receive, Possible;
      ghost var c := machine.calls[id];
      PublishesOpen(machine.calls, published, nextCall, id, c.(phase := Fetching(c.phase.hit, c.phase.now)));
      counters := counters.(misses := counters.misses + 1);
      counters := counters.(requests := counters.requests + 1);
      AdvanceCall(id, Send);
    }

    /** What `handle` does with the end of the exchange: the response, and the record that is to be
        stored. */
    method Settle(url: string, key: string, force: bool, hit: Option<Record>, now: int,
                  hasConditionalCandidate: bool, resultCacheStatus: CacheStatus, answer: Answer)
      returns (response: Response, write: Option<Record>)
      requires hasConditionalCandidate == HasConditionalCandidate(hit)
      requires resultCacheStatus == if force then BYPASS else MISS
      modifies this`counters, this`activity
      ensures Outcome(write, response) == Receive(env, key, url, force, hit, now, answer)
      ensures ForegroundEnds(env, url, key, force, hit, now, answer, response, write)
      ensures answer.Replied? && response.body.UpstreamError? ==>
                var body := answer.reply.body;
                response.body.message ==
                if body.Some? && 0 < |body.value| <= env.maxBytes && env.decode(body.value).Some?
                then Decoded(env.decode(body.value).value) else StatusLine(answer.reply.statusLine)
      ensures activity == old(activity) +
                          if response.cacheStatus == REVALIDATED || (hit.None? && write.Some?) then [(key, now)] else []
      ensures counters == old(counters).(errors := old(counters.errors) + if IsError(answer) then 1 else 0)
    {
      hide ErrorMessage, ReadBoundedBody, HardExpiresAt, ForegroundEnds, IsMessageOf;
      ReceiveEnds(env, key, url, force, hit, now, answer);
      MessageOfOutcome(env, url, key, force, hit, now, answer);
      write := None;
      if answer.TransportError? {
        counters := counters.(errors := counters.errors + 1);
        return Response(if answer.timedOut then 504 else 502, RequestFailed, BYPASS, key, 0, now), None;
      }
      var reply := answer.reply;
      if reply.status == 304 {
        if hasConditionalCandidate {
          activity := activity + [(key, now)];
          var cachedRecord := hit.value;
          cachedRecord := cachedRecord.(lastCheckedAt := now);
          cachedRecord := cachedRecord.(expiresAt := HardExpiresAt(now, env.hardTTL));
          cachedRecord := cachedRecord.(url := url);
          return Response(200, Raw(cachedRecord.payload), REVALIDATED, key, 304, now), Some(cachedRecord);
        }
      } else if reply.status == 200 {
        response, write := Accept(url, key, hit, now, reply, resultCacheStatus);
        return;
      }
      if reply.status >= 400 {
        counters := counters.(errors := counters.errors + 1);
      }
      response, write := Refuse(url, key, hit, now, reply, resultCacheStatus);
    }

    /** The branch of `handle` for a reply with status 200. */
    method Accept(
      url: string, key: string, hit: Option<Record>, now: int, reply: Version, resultCacheStatus: CacheStatus)
      returns (response: Response, write: Option<Record>)
      requires reply.status == 200
      modifies this`activity
      ensures var read := ReadBoundedBody(env, reply.body);
              if read.None? || !env.jsonValid(read.value) then
                var body := if read.None? then InvalidUpstream else FailedToParse;
                && response == Response(502, body, resultCacheStatus, key, 200, now)
                && write == None && activity == old(activity)
              else
                && response == Response(200, Raw(read.value), resultCacheStatus, key, 200, now)
                && write == Some(Accepted(env, reply, read.value, url, now))
                && activity == old(activity) + if hit.None? then [(key, now)] else []
    {
      var payload := ReadBoundedBody(env, reply.body);
      if payload.None? {
        return Response(502, InvalidUpstream, resultCacheStatus, key, 200, now), None;
      }
      if !env.jsonValid(payload.value) {
        return Response(502, FailedToParse, resultCacheStatus, key, 200, now), None;
      }
      write := Some(Record(payload.value, reply.etag, url, now, now, now, HardExpiresAt(now, env.hardTTL), 200));
      if hit.None? {
        activity := activity + [(key, now)];
      }
      response := Response(200, Raw(payload.value), resultCacheStatus, key, 200, now);
    }

    /** The end of `handle`, for a reply that is no success. */
    method Refuse(
      url: string, key: string, hit: Option<Record>, now: int, reply: Version, resultCacheStatus: CacheStatus)
      returns (response: Response, write: Option<Record>)
      modifies this`activity
      ensures response ==
              Response(reply.status, UpstreamError(ErrorMessage(env, reply)), resultCacheStatus, key, reply.status, now)
      ensures var body := reply.body;
              response.body == UpstreamError(
                if body.Some? && 0 < |body.value| <= env.maxBytes && env.decode(body.value).Some?
                then Decoded(env.decode(body.value).value) else StatusLine(reply.statusLine))
      ensures IsNegativeCacheableStatus(reply.status) ==>
                && write == Some(Refused(env, reply, url, now))
                && activity == old(activity) + if hit.None? then [(key, now)] else []
      ensures write.Some? <==> reply.status == 404 || reply.status == 410
      ensures write.Some? ==> IsRefusal(env, reply, response.body.message, url, now, write.value)
      ensures !IsNegativeCacheableStatus(reply.status) ==> write == None && activity == old(activity)
    {
      var body := ReadBoundedBody(env, reply.body);
      var message := StatusLine(reply.statusLine);
      if body.Some? && |body.value| > 0 && env.decode(body.value).Some? {
        message := Decoded(env.decode(body.value).value);
      }
      write := None;
      response := Response(reply.status, UpstreamError(message), resultCacheStatus, key, reply.status, now);
      if ShouldBypassCacheWrite(reply.status) {
        return;
      }
      if IsNegativeCacheableStatus(reply.status) {
        write := Some(Record(env.render(UpstreamError(message)), "", url, now, now, now,
                             now + env.negativeTTL, reply.status));
        if hit.None? {
          activity := activity + [(key, now)];
        }
      }
    }

    method FinishForCall(ghost id: nat, url: string, key: string, force: bool, hit: Option<Record>, now: int,
                         hasConditionalCandidate: bool, resultCacheStatus: CacheStatus, answer: Answer)
      returns (response: Response, write: Option<Record>)
      requires Valid()
      requires hasConditionalCandidate == HasConditionalCandidate(hit)
      requires resultCacheStatus == if force then BYPASS else MISS
      requires id in machine.calls && machine.calls[id] == Call(url, key, force, Fetching(hit, now))
      requires Possible(env, url, IfNoneMatch(hit), clock, answer)
      modifies this`counters, this`activity, this`history, this`machine
      ensures Valid() && history == old(history) + [OfCall(id, Finish(answer))]
      ensures ForegroundEnds(env, url, key, force, hit, now, answer, response, write)
      ensures Outcome(write, response) == Receive(env, key, url, force, hit, now, answer)
      ensures var phase := if write.Some? then Storing(write.value, response) else Returning(response);
              machine.calls == old(machine.calls)[id := Call(url, key, force, phase)]
      ensures machine.callers == old(machine.callers) && machine.refreshers == old(machine.refreshers)
    {
      hide Reaches, Publishes, FastPath, Receive, Possible, CountsAsError, ReportsActivity, ForegroundEnds, IfNoneMatch,
           HasConditionalCandidate;
      ghost var outcome := Receive(env, key, url, force, hit, now, answer);
      response, write := Settle(url, key, force, hit, now, hasConditionalCandidate, resultCacheStatus, answer);
      var phase := if write.Some? then Storing(write.value, response) else Returning(response);
      CountsAsErrorIff(answer);
      ReportsIff(hit, Outcome(write, response));
      PublishesOpen(machine.calls, published, nextCall, id, Call(url, key, force, phase));
      AdvanceCall(id, Finish(answer));
    }

    method StoreForCall(ghost id: nat, key: string, record: Record, ghost response: Response)
      requires Valid()
      requires id in machine.calls && machine.calls[id].key == key
      requires machine.calls[id].phase == Storing(record, response)
      modifies this`store, this`history, this`machine
      ensures Valid() && history == old(history) + [OfCall(id, Store)]
      ensures store == old(store)[key := record]
      ensures machine.calls == old(machine.calls)[id := old(machine).calls[id].(phase := Returning(response))]
      ensures machine.callers == old(machine.callers) && machine.refreshers == old(machine.refreshers)
    {
      hide Reaches, Publishes, FastPath, Receive, Possible;
      PublishesOpen(machine.calls, published, nextCall, id, machine.calls[id].(phase := Returning(response)));
      store := store[key := record];
      AdvanceCall(id, Store);
    }

    /** The goroutine of a call: `handle` without coalescing, among other goroutines. */
    method HandleUncoalesced(ghost id: nat, url: string, key: string, force: bool, upstream: Upstream, ghost mine: Mine)
      returns (response: Response, ghost how: Handling)
      requires Valid() && CanHappen(env, upstream)
      requires id in machine.calls && machine.calls[id] == Call(url, key, force, Begun) && id in mine.calls
      modifies this
      ensures Valid() && old(history) <= history
      ensures IsHandled(env, init, old(history), history, id, url, key, force, upstream, old(clock), clock, how,
                        response)
      ensures CallMoved(old(machine), machine, id, Call(url, key, force, Returning(response)), mine)
    {
      hide Service.Valid, Kept, Possible, IfNoneMatch, MayServe, ServedFrom, WasCached, Gained, ForegroundEnds;
      var hit := LookAmongOthers(id, url, key, force, mine);
      ghost var read, looked := machine, history;
      var now, served := DecideAmongOthers(id, url, key, force, hit, mine);
      if served.Some? {
        CallMovesOn(old(machine), read, machine, id, read.calls[id], machine.calls[id], mine);
        how := Handling(hit, now, now, None);
        CachedLater(env, init, old(history), old(history), looked, history, key, hit);
        return served.value, how;
      }
      ghost var ready, decided := machine, history;
      ghost var moment, stored;
      response, moment, stored := AskUpstream(id, url, key, force, hit, now, upstream, mine);
      CallMovesOn(old(machine), read, ready, id, read.calls[id], ready.calls[id], mine);
      CallMovesOn(old(machine), ready, machine, id, ready.calls[id], machine.calls[id], mine);
      how := Handling(hit, now, moment, stored);
      CachedLater(env, init, old(history), old(history), looked, history, key, hit);
      GainedLater(old(history), decided, history, history, OfCall(id, Finish(upstream(url, ETagFor(hit), moment))));
    }

    method LookAmongOthers(ghost id: nat, url: string, key: string, force: bool, ghost mine: Mine)
      returns (hit: Option<Record>)
      requires Valid() && id in mine.calls
      requires id in machine.calls && machine.calls[id] == Call(url, key, force, Begun)
      modifies this
      ensures Valid() && old(history) <= history && old(clock) <= clock
      ensures WasCached(env, init, old(history), history, key, hit)
      ensures CallMoved(old(machine), machine, id, Call(url, key, force, Read(hit)), mine)
    {
      hide Service.Valid, WasCached;
      Others(mine);
      ghost var before, there := machine, history;
      FoundInStore(key);
      hit := LookForCall(id, key);
      CachedThere(env, init, old(history), there, before, history, key);
      CallMovesAfterOthers(old(machine), before, machine, id, machine.calls[id], mine);
    }

    method DecideAmongOthers(
      ghost id: nat, url: string, key: string, force: bool, hit: Option<Record>, ghost mine: Mine)
      returns (now: int, served: Option<Response>)
      requires Valid() && id in mine.calls
      requires id in machine.calls && machine.calls[id] == Call(url, key, force, Read(hit))
      modifies this
      ensures Valid() && old(history) <= history && old(clock) <= now == clock
      ensures served.Some? <==> !force && hit.Some? && MayServe(hit.value, now, env.hardTTL)
      ensures served.Some? ==> ServedFrom(hit.value, key, now, served.value)
      ensures var phase := if served.Some? then Returning(served.value) else Ready(hit, now);
              CallMoved(old(machine), machine, id, Call(url, key, force, phase), mine)
    {
      hide Service.Valid, MayServe, ServedFrom;
      Others(mine);
      ghost var before := machine;
      now, served := DecideForCall(id, key, force, hit);
      CallMovesAfterOthers(old(machine), before, machine, id, machine.calls[id], mine);
    }

    /** The exchange and its consequences. */
    method AskUpstream(ghost id: nat, url: string, key: string, force: bool, hit: Option<Record>, now: int,
                       upstream: Upstream, ghost mine: Mine)
      returns (response: Response, ghost moment: int, ghost stored: Option<Record>)
      requires Valid() && CanHappen(env, upstream)
      requires id in machine.calls && machine.calls[id] == Call(url, key, force, Ready(hit, now)) && id in mine.calls
      modifies this
      ensures Valid() && old(history) <= history
      ensures CallMoved(old(machine), machine, id, Call(url, key, force, Returning(response)), mine)
      ensures old(clock) <= moment <= clock
      ensures var answer := upstream(url, ETagFor(hit), moment);
              && Gained(old(history), history, OfCall(id, Finish(answer)))
              && ForegroundEnds(env, url, key, force, hit, now, answer, response, stored)
      ensures stored.Some? ==> Gained(old(history), history, OfCall(id, Store))
    {
      hide Service.Valid, Kept, Possible, IfNoneMatch, Receive, ForegroundEnds, Gained;
      var hasConditionalCandidate :=
        hit.Some? && !IsNegativeCacheableStatus(hit.value.sourceStatus) && hit.value.etag != "";
      var etag := "";
      if hasConditionalCandidate {
        etag := hit.value.etag;
      }
      ETagOf(hit);
      var resultCacheStatus := MISS;
      if force {
        resultCacheStatus := BYPASS;
      }
      Others(mine);
      ghost var before := machine;
      OwnCall(old(machine), machine, id, mine);
      SendForCall(id);
      ghost var sent := machine;
      CallMovesAfterOthers(old(machine), before, sent, id, sent.calls[id], mine);
      Others(mine);
      before := machine;
      OwnCall(sent, machine, id, mine);
      moment := clock;
      ghost var there := history;
      ghost var answer := upstream(url, etag, clock);
      var write;
      response, write := FinishForCall(id, url, key, force, hit, now, hasConditionalCandidate, resultCacheStatus,
                                       upstream(url, etag, clock));
      ghost var finished := machine;
      CallMovesAfterOthers(sent, before, finished, id, finished.calls[id], mine);
      CallMovesOn(old(machine), sent, finished, id, sent.calls[id], finished.calls[id], mine);
      if write.Some? {
        Others(mine);
        before := machine;
        OwnCall(finished, machine, id, mine);
        ghost var storing := history;
        StoreForCall(id, key, write.value, response);
        GainedThere(old(history), storing, history, OfCall(id, Store));
        CallMovesAfterOthers(finished, before, machine, id, machine.calls[id], mine);
        CallMovesOn(old(machine), finished, machine, id, finished.calls[id], machine.calls[id], mine);
      }
      stored := write;
      GainedThere(old(history), there, history, OfCall(id, Finish(answer)));
    }

    // ---------------------------------------------------------------- foregroundRequestGroup

    /** The locked region in which `foregroundRequestGroup.Do` joins a call or leads a new one. */
    method Join(ghost caller: nat, url: string, key: string, force: bool) returns (call: nat, leads: bool)
      requires Valid()
      requires caller in machine.callers
      requires machine.callers[caller] == Caller(machine.callers[caller].raw, force, url, key, Joining)
      modifies this`inFlight, this`nextCall, this`history, this`machine
      ensures Valid() && old(history) <= history
      ensures leads <==> key !in old(inFlight)
      ensures call == if leads then old(nextCall) else old(inFlight)[key]
      ensures inFlight == if leads then old(inFlight)[key := call] else old(inFlight)
      ensures nextCall == old(nextCall) + if leads then 1 else 0
      ensures leads ==> call !in old(machine.calls)
      ensures machine.calls ==
              if leads then old(machine.calls)[call := Call(url, key, force, Begun)] else old(machine.calls)
      ensures machine.callers ==
              old(machine.callers)[caller := old(machine).callers[caller].(phase := Waiting(call, old(machine.steps)))]
      ensures machine.refreshers == old(machine.refreshers)
    {
      hide FastPath, Reaches, Publishes;
      call := nextCall;
      PublishesNew(machine.calls, published, call, Call(url, key, force, Begun));
      AdvanceCaller(caller, JoinCall(call));
      leads := key !in inFlight;
      if leads {
        nextCall := nextCall + 1;
        inFlight := inFlight[key := call];
      } else {
        call := inFlight[key];
      }
    }

    /** The locked region in which a call leaves the map and closes its channel. */
    method Close(call: nat, key: string, response: Response)
      requires Valid()
      requires call in machine.calls && machine.calls[call].key == key
      requires machine.calls[call].phase == Returning(response)
      modifies this`inFlight, this`published, this`history, this`machine
      ensures Valid() && old(history) <= history
      ensures inFlight == old(inFlight) - {key} && published == old(published)[call := response]
      ensures machine.callers == old(machine.callers) && machine.refreshers == old(machine.refreshers)
      ensures machine.calls ==
              old(machine.calls)[call := old(machine).calls[call].(phase := Closed(response, old(machine.steps)))]
    {
      hide Receive, FastPath, Reaches, Publishes;
      ghost var calls := machine.calls;
      AdvanceCall(call, CallOp.Close);
      inFlight := inFlight - {key};
      published := published[call := response];
      PublishesClosed(calls, old(published), nextCall, call, machine.calls[call]);
    }

    /** The goroutine that a leader starts: run the call, then publish its response. */
    method RunCall(call: nat, url: string, key: string, force: bool, upstream: Upstream, ghost mine: Mine)
      requires Valid() && CanHappen(env, upstream)
      requires call in machine.calls && machine.calls[call] == Call(url, key, force, Begun) && call in mine.calls
      modifies this
      ensures Valid() && old(history) <= history && old(clock) <= clock
      ensures call in machine.calls && machine.calls[call].phase.Closed?
      ensures CallMoved(old(machine), machine, call, machine.calls[call], mine)
    {
      hide Service.Valid, Kept, CanHappen;
      var response, _ := HandleUncoalesced(call, url, key, force, upstream, mine);
      ghost var returning := machine;
      Others(mine);
      ghost var before := machine;
      OwnCall(returning, before, call, mine);
      Close(call, key, response);
      CallMovesAfterOthers(returning, before, machine, call, machine.calls[call], mine);
      CallMovesOn(old(machine), returning, machine, call, returning.calls[call], machine.calls[call], mine);
    }

    /** A waiting caller finds the channel of its call closed. */
    method Take(ghost caller: nat, call: nat) returns (response: Response)
      requires Valid() && caller in machine.callers && machine.callers[caller].phase.Waiting?
      requires machine.callers[caller].phase.call == call && call in published
      modifies this`history, this`machine
      ensures Valid() && old(history) <= history
      ensures var c := old(machine).callers[caller];
              machine.callers == old(machine.callers)[caller := c.(phase := Received(response, call, c.phase.joinedAt))]
      ensures machine.calls == old(machine.calls) && machine.refreshers == old(machine.refreshers)
    {
      hide FastPath, Reaches;
      AdvanceCaller(caller, ReceiveResponse);
      response := published[call];
    }

    /** A waiting caller finds its context done. */
    method GiveUp(ghost caller: nat, key: string) returns (response: Response)
      requires Valid() && caller in machine.callers && machine.callers[caller].phase.Waiting?
      requires machine.callers[caller].key == key
      modifies this`history, this`machine
      ensures Valid() && old(history) <= history
      ensures response.status == 504 && response.body.RequestCanceled? && response.cacheStatus == BYPASS
      ensures machine.callers ==
              old(machine.callers)[caller := old(machine).callers[caller].(phase := Canceled(response))]
      ensures machine.calls == old(machine.calls) && machine.refreshers == old(machine.refreshers)
    {
      hide FastPath, Reaches, Publishes;
      response := Response(504, RequestCanceled, BYPASS, key, 0, clock);
      AdvanceCaller(caller, Cancel);
    }

    /** The select at the end of `foregroundRequestGroup.Do`: either branch that is ready may win. */
    method Await(ghost caller: nat, call: nat, key: string, canceled: bool) returns (response: Option<Response>)
      requires Valid() && caller in machine.callers && machine.callers[caller].phase.Waiting?
      requires machine.callers[caller].phase.call == call && machine.callers[caller].key == key
      modifies this`history, this`machine
      ensures Valid() && old(history) <= history
      ensures response.None? ==> machine == old(machine) && !canceled && call !in published
      ensures response.Some? ==>
              caller in machine.callers && EndsWith(machine.callers[caller], call, response.value, canceled)
      ensures response.Some? ==>
                var c := old(machine).callers[caller];
                machine.callers == old(machine.callers)[caller := c.(phase := machine.callers[caller].phase)]
      ensures machine.calls == old(machine.calls) && machine.refreshers == old(machine.refreshers)
    {
      hide Service.Valid;
      if {
        case call in published =>
          var received := Take(caller, call);
          response := Some(received);
        case canceled =>
          var gone := GiveUp(caller, key);
          response := Some(gone);
        case call !in published && !canceled =>
          response := None;
      }
    }

    /** `foregroundRequestGroup.Do`, with the goroutine that a leader starts.  A leader that is cancelled
        may leave before its call has run.  A caller whose call is still open and that is not cancelled is
        left waiting. */
    method Do(ghost caller: nat, url: string, key: string, force: bool, upstream: Upstream, canceled: bool)
      returns (response: Option<Response>)
      requires Valid() && CanHappen(env, upstream)
      requires caller in machine.callers
      requires machine.callers[caller] == Caller(machine.callers[caller].raw, force, url, key, Joining)
      modifies this
      ensures Valid() && old(history) <= history && old(clock) <= clock
      ensures caller in machine.callers && machine.callers[caller].raw == old(machine).callers[caller].raw
      ensures machine.callers[caller].force == force
      ensures key !in old(inFlight) || canceled ==> response.Some?
      ensures var call := if key in old(inFlight) then old(inFlight)[key] else old(nextCall);
              if response.Some? then EndsWith(machine.callers[caller], call, response.value, canceled)
              else machine.callers[caller].phase == Waiting(call, old(machine.steps)) && IsOpen(machine, call)
    {
      hide Service.Valid, Kept, CanHappen;
      var call, leads := Join(caller, url, key, force);
      ghost var mine := Mine({caller}, if leads then {call} else {}, {});
      var early := *;
      if leads && !(canceled && early) {
        RunCallFor(caller, call, url, key, force, upstream, mine);
      }
      ghost var before := machine;
      Others(mine);
      OwnCaller(before, machine, caller, mine);
      if call in before.calls && call in mine.calls {
        OwnCall(before, machine, call, mine);
      }
      if leads && !(canceled && early) {
        ClosedIsPublished(call);
      }
      response := Await(caller, call, key, canceled);
      if response.None? {
        StillOpen(caller);
      }
      if leads && canceled && early {
        RunCallFor(caller, call, url, key, force, upstream, mine);
      }
    }

    // ---------------------------------------------------------------- handle

    method ArriveAs(ghost caller: nat, raw: string, force: bool)
      requires Valid() && caller !in machine.callers
      modifies this`history, this`machine
      ensures Valid() && old(history) <= history
      ensures machine.callers == old(machine.callers)[caller := ArriveNext(env, clock, raw, force)]
    {
      hide Reaches, Publishes, CallerEffect, CallEffect, RefreshEffect, StartEffect, ArriveNext;
      Advance(Arrive(caller, raw, force));
    }

    /** `handle`, among other goroutines.  A caller that is not cancelled and whose call is still open in the
        end is left waiting. */
    method Handle(ghost caller: nat, raw: string, force: bool, upstream: Upstream, canceled: bool)
      returns (response: Option<Response>, ghost hit: Option<Record>, ghost now: int)
      requires Valid() && CanHappen(env, upstream)
      requires caller !in machine.callers
      modifies this
      ensures Valid() && old(history) <= history
      ensures caller in machine.callers && machine.callers[caller].raw == raw && machine.callers[caller].force == force
      ensures env.prepare(raw).Invalid? ==>
                && response.Some? && response.value.status == 400 && response.value.cacheStatus == BYPASS
                && response.value.body == InvalidParameter(env.prepare(raw).detail)
      ensures env.prepare(raw).Prepared? ==>
                var key, phase := env.prepare(raw).key, machine.callers[caller].phase;
                && WasCached(env, init, old(history), history, key, hit) && old(clock) <= now <= clock
                && (phase.Served? <==> !force && hit.Some? && MayServe(hit.value, now, env.hardTTL))
                && (phase.Served? ==> response.Some? && ServedFrom(hit.value, key, now, response.value))
      ensures var phase := machine.callers[caller].phase;
              match response
              case Some(r) =>
                || phase == Served(r)
                || (phase.Received? && phase.response == r)
                || (canceled && phase == Canceled(r) && r.status == 504)
              case None => phase.Waiting? && !canceled && IsOpen(machine, phase.call)
    {
      hide Service.Valid, Kept, CanHappen, FastPath, MayServe, ServedFrom, WasCached;
      hit, now := None, clock;
      ArriveAs(caller, raw, force);
      var prepared := env.prepare(raw);
      if prepared.Invalid? {
        return Some(Response(400, InvalidParameter(prepared.detail), BYPASS, "", 0, clock)), hit, now;
      }
      ghost var arrived := history;
      var cached, at, served := LookAndDecide(caller, prepared.url, prepared.key, force);
      hit, now := cached, at;
      ghost var looked := history;
      if served.Some? {
        CachedLater(env, init, old(history), arrived, looked, history, prepared.key, hit);
        return served, hit, now;
      }
      ghost var mine := Mine({caller}, {}, {});
      ghost var before := machine;
      Others(mine);
      OwnCaller(before, machine, caller, mine);
      response := Do(caller, prepared.url, prepared.key, force, upstream, canceled);
      CachedLater(env, init, old(history), arrived, looked, history, prepared.key, hit);
    }

    /** A caller looks into the cache and decides, others running before either. */
    method LookAndDecide(ghost caller: nat, ghost url: string, key: string, force: bool)
      returns (hit: Option<Record>, now: int, served: Option<Response>)
      requires Valid() && caller in machine.callers
      requires machine.callers[caller] == Caller(machine.callers[caller].raw, force, url, key, Arrived)
      modifies this
      ensures Valid() && old(history) <= history && old(clock) <= now == clock
      ensures WasCached(env, init, old(history), history, key, hit)
      ensures served.Some? <==> !force && hit.Some? && MayServe(hit.value, now, env.hardTTL)
      ensures served.Some? ==> ServedFrom(hit.value, key, now, served.value)
      ensures caller in machine.callers
      ensures machine.callers[caller] ==
              old(machine).callers[caller].(phase := if served.Some? then Served(served.value) else Joining)
    {
      hide Service.Valid, Kept, MayServe, ServedFrom, WasCached;
      ghost var mine := Mine({caller}, {}, {});
      ghost var before := machine;
      Others(mine);
      OwnCaller(before, machine, caller, mine);
      ghost var there, found := history, machine;
      FoundInStore(key);
      hit := LookForCaller(caller, key);
      before := machine;
      Others(mine);
      OwnCaller(before, machine, caller, mine);
      now, served := DecideForCaller(caller, key, force, hit);
      CachedThere(env, init, old(history), there, found, history, key);
    }

    /** The goroutine that a leader starts does not touch the leader. */
    method RunCallFor(
      ghost caller: nat, call: nat, url: string, key: string, force: bool, upstream: Upstream, ghost mine: Mine)
      requires Valid() && CanHappen(env, upstream)
      requires caller in machine.callers && caller in mine.callers
      requires call in machine.calls && machine.calls[call] == Call(url, key, force, Begun) && call in mine.calls
      modifies this
      ensures Valid() && old(history) <= history && old(clock) <= clock
      ensures call in machine.calls && machine.calls[call].phase.Closed?
      ensures caller in machine.callers && machine.callers[caller] == old(machine).callers[caller]
    {
      hide Service.Valid, CanHappen;
      RunCall(call, url, key, force, upstream, mine);
    }

    /** What is not published for a waiting caller is still open. */
    lemma StillOpen(caller: nat)
      requires Valid() && caller in machine.callers && machine.callers[caller].phase.Waiting?
      requires machine.callers[caller].phase.call !in published
      ensures IsOpen(machine, machine.callers[caller].phase.call)
    {
      hide InFlightIsUnfinished, RefreshingIsRunning;
      ProtocolHolds(env, init, history, machine);
      assert IsServed(machine.callers[caller], machine.calls, machine.steps);
    }

    lemma ClosedIsPublished(call: nat)
      requires Valid() && call in machine.calls && machine.calls[call].phase.Closed?
      ensures call in published
    {
    }

    // ---------------------------------------------------------------- background refresh

    /** `backgroundRefreshGroup.start`, with the count of a worker whose refresh is a duplicate. */
    method Start(ghost id: nat, ghost origin: Origin, key: string, byWorker: bool) returns (started: bool)
      requires Valid() && id !in machine.refreshers
      requires key != "" && key == Target(env, origin).0 && byWorker == origin.ByKey?
      modifies this`refreshing, this`counters, this`history, this`machine
      ensures Valid() && old(history) <= history
      ensures started <==> key !in old(refreshing)
      ensures refreshing == old(refreshing) + {key}
      ensures counters == if started || !byWorker then old(counters)
                          else old(counters).(processed := old(counters.processed) + 1,
                                              deduplicated := old(counters.deduplicated) + 1)
      ensures machine.refreshers ==
              if started then old(machine.refreshers)[id := Refresher(key, Target(env, origin).1, Started)]
              else old(machine.refreshers)
      ensures machine.callers == old(machine.callers) && machine.calls == old(machine.calls)
    {
      hide Reaches, Publishes, Target, CallerEffect, CallEffect, RefreshEffect;
      Advance(StartRefresh(id, origin));
      started := key !in refreshing;
      if started {
        refreshing := refreshing + {key};
      } else if byWorker {
        counters := counters.(processed := counters.processed + 1);
        counters := counters.(deduplicated := counters.deduplicated + 1);
      }
    }

    /** `refreshOnce` for a URL, `refreshOnceByKey` for none, up to the request: the record to ask about. */
    method Load(ghost id: nat, key: string, given: Option<string>) returns (wanted: Option<(Record, string)>)
      requires Valid()
      requires id in machine.refreshers && machine.refreshers[id] == Refresher(key, given, Started)
      modifies this`counters, this`history, this`machine
      ensures Valid() && old(history) <= history
      ensures wanted.None? <==>
                || key !in store
                || (given.None? && Blank(store[key].url))
                || IsNegativeCacheableStatus(store[key].sourceStatus)
      ensures wanted.Some? ==> wanted.value == (store[key], if given.Some? then given.value else store[key].url)
      ensures counters == old(counters).(skipped := old(counters.skipped) + if wanted.None? then 1 else 0)
      ensures var phase := if wanted.Some? then Loaded(wanted.value.0, wanted.value.1) else Ending;
              machine.refreshers == old(machine.refreshers)[id := Refresher(key, given, phase)]
      ensures machine.callers == old(machine.callers) && machine.calls == old(machine.calls)
    {
      hide Reaches, Publishes, Blank, RefreshReceive, Possible;
      AdvanceRefresher(id, LoadRecord);
      if key !in store {
        counters := counters.(skipped := counters.skipped + 1);
        return None;
      }
      var record := store[key];
      if given.None? && Blank(record.url) {
        counters := counters.(skipped := counters.skipped + 1);
        return None;
      }
      if IsNegativeCacheableStatus(record.sourceStatus) {
        counters := counters.(skipped := counters.skipped + 1);
        return None;
      }
      wanted := Some((record, if given.Some? then given.value else record.url));
    }

    method SendForRefresh(ghost id: nat) returns (now: int)
      requires Valid()
      requires id in machine.refreshers && machine.refreshers[id].phase.Loaded?
      modifies this`counters, this`history, this`machine
      ensures Valid() && old(history) <= history
      ensures var r := old(machine).refreshers[id];
              machine.refreshers ==
              old(machine.refreshers)[id := r.(phase := Requesting(r.phase.record, r.phase.url, now))]
      ensures machine.callers == old(machine.callers) && machine.calls == old(machine.calls)
      ensures now == clock && counters == old(counters).(requests := old(counters.requests) + 1)
    {
      hide Reaches, Publishes, Blank, RefreshReceive, Possible;
      now := clock;
      counters := counters.(requests := counters.requests + 1);
      AdvanceRefresher(id, SendConditional);
    }

    /** What `refreshCachedRecord` does with the end of the exchange. */
    method SettleRefresh(record: Record, url: string, now: int, answer: Answer) returns (outcome: RefreshOutcome)
      modifies this`counters
      ensures outcome == RefreshReceive(env, record, url, now, answer)
      ensures BackgroundEnds(env, record, url, now, answer, outcome)
      ensures counters == old(counters).(errors := old(counters.errors) + (if IsError(answer) then 1 else 0),
                                         failed := old(counters.failed) + (if outcome.Failed? then 1 else 0))
    {
      hide HardExpiresAt, ReadBoundedBody, BackgroundEnds;
      RefreshReceiveEnds(env, record, url, now, answer);
      if answer.TransportError? {
        counters := counters.(errors := counters.errors + 1);
        counters := counters.(failed := counters.failed + 1);
        return Failed;
      }
      var reply := answer.reply;
      if reply.status >= 400 {
        counters := counters.(errors := counters.errors + 1);
      }
      if reply.status == 304 {
        var rechecked := record;
        rechecked := rechecked.(lastCheckedAt := now);
        rechecked := rechecked.(expiresAt := HardExpiresAt(now, env.hardTTL));
        rechecked := rechecked.(url := url);
        return NotModified(rechecked);
      } else if reply.status == 200 {
        var payload := ReadBoundedBody(env, reply.body);
        if payload.None? || !env.jsonValid(payload.value) {
          counters := counters.(failed := counters.failed + 1);
          return Failed;
        }
        return Updated(Record(payload.value, reply.etag, url, now, now, now, HardExpiresAt(now, env.hardTTL), 200));
      } else {
        counters := counters.(failed := counters.failed + 1);
        return Failed;
      }
    }

    method FinishForRefresh(
      ghost id: nat, key: string, given: Option<string>, record: Record, url: string, now: int, answer: Answer)
      returns (outcome: RefreshOutcome)
      requires Valid()
      requires id in machine.refreshers && machine.refreshers[id] == Refresher(key, given, Requesting(record, url, now))
      requires Possible(env, url, record.etag, clock, answer)
      modifies this`counters, this`history, this`machine
      ensures Valid() && history == old(history) + [OfRefresher(id, FinishRefresh(answer))]
      ensures BackgroundEnds(env, record, url, now, answer, outcome)
      ensures machine.refreshers ==
              old(machine.refreshers)[id := Refresher(key, given, if outcome.Failed? then Ending else Saving(outcome))]
      ensures machine.callers == old(machine.callers) && machine.calls == old(machine.calls)
    {
      hide Reaches, Publishes, Blank, RefreshReceive, Possible, CountsAsError, BackgroundEnds;
      CountsAsErrorIff(answer);
      outcome := SettleRefresh(record, url, now, answer);
      AdvanceRefresher(id, FinishRefresh(answer));
    }

    method SaveForRefresh(ghost id: nat, key: string, outcome: RefreshOutcome)
      requires Valid() && !outcome.Failed?
      requires id in machine.refreshers && machine.refreshers[id].key == key
      requires machine.refreshers[id].phase == Saving(outcome)
      modifies this`store, this`counters, this`history, this`machine
      ensures Valid() && old(history) <= history
      ensures store == old(store)[key := outcome.record]
      ensures counters == if outcome.NotModified? then old(counters).(notMod := old(counters.notMod) + 1)
                          else old(counters).(updated := old(counters.updated) + 1)
      ensures machine.refreshers == old(machine.refreshers)[id := old(machine).refreshers[id].(phase := Ending)]
      ensures machine.callers == old(machine.callers) && machine.calls == old(machine.calls)
    {
      hide Reaches, Publishes, Blank, RefreshReceive, Possible;
      store := store[key := outcome.record];
      if outcome.NotModified? {
        counters := counters.(notMod := counters.notMod + 1);
      } else {
        counters := counters.(updated := counters.updated + 1);
      }
      AdvanceRefresher(id, Save);
    }

    /** `backgroundRefreshGroup.done`, with the count of the worker or of the goroutine that ran the refresh. */
    method FinishRefreshing(ghost id: nat, key: string, given: Option<string>)
      requires Valid()
      requires id in machine.refreshers && machine.refreshers[id] == Refresher(key, given, Ending)
      modifies this`refreshing, this`counters, this`history, this`machine
      ensures Valid() && old(history) <= history
      ensures refreshing == old(refreshing) - {key}
      ensures counters == if given.None? then old(counters).(processed := old(counters.processed) + 1)
                          else old(counters).(detached := old(counters.detached) + 1)
      ensures machine.refreshers == old(machine.refreshers)[id := Refresher(key, given, RefreshPhase.Ended)]
      ensures machine.callers == old(machine.callers) && machine.calls == old(machine.calls)
    {
      hide Reaches, Publishes, Blank, RefreshReceive, Possible;
      refreshing := refreshing - {key};
      if given.None? {
        counters := counters.(processed := counters.processed + 1);
      } else {
        counters := counters.(detached := counters.detached + 1);
      }
      AdvanceRefresher(id, RefreshOp.Done);
    }

    /** `refreshCachedRecord`, among other goroutines. */
    method RefreshCachedRecord(ghost id: nat, key: string, given: Option<string>, url: string, record: Record,
                               upstream: Upstream, ghost mine: Mine)
      returns (ghost moment: int)
      requires Valid() && CanHappen(env, upstream)
      requires id in machine.refreshers && id in mine.refreshers
      requires machine.refreshers[id] == Refresher(key, given, Loaded(record, url))
      modifies this
      ensures Valid() && old(history) <= history && old(clock) <= moment <= clock
      ensures Gained(old(history), history, OfRefresher(id, FinishRefresh(upstream(url, record.etag, moment))))
      ensures RefresherMoved(old(machine), machine, id, Refresher(key, given, Ending), mine)
    {
      hide Service.Valid, Kept, Possible, Gained;
      Others(mine);
      ghost var before := machine;
      OwnRefresher(old(machine), before, id, mine);
      var now := SendForRefresh(id);
      ghost var sent := machine;
      RefresherMovesAfterOthers(old(machine), before, sent, id, sent.refreshers[id], mine);
      Others(mine);
      before := machine;
      OwnRefresher(sent, before, id, mine);
      moment := clock;
      ghost var there := history;
      var outcome := FinishForRefresh(id, key, given, record, url, now, upstream(url, record.etag, clock));
      ghost var finished := machine;
      RefresherMovesAfterOthers(sent, before, finished, id, finished.refreshers[id], mine);
      RefresherMovesOn(old(machine), sent, finished, id, sent.refreshers[id], finished.refreshers[id], mine);
      if !outcome.Failed? {
        Others(mine);
        before := machine;
        OwnRefresher(finished, before, id, mine);
        SaveForRefresh(id, key, outcome);
        RefresherMovesAfterOthers(finished, before, machine, id, machine.refreshers[id], mine);
        RefresherMovesOn(old(machine), finished, machine, id, finished.refreshers[id], machine.refreshers[id], mine);
      }
      GainedThere(old(history), there, history, OfRefresher(id, FinishRefresh(upstream(url, record.etag, moment))));
    }

    lemma FoundInStore(key: string)
      requires Valid()
      ensures Execute(env, init, history) == Some(machine)
      ensures Lookup(machine, key) == if key in store then Some(store[key]) else None
    {
    }

    /** The body that `backgroundRefreshGroup` runs for a key, and its end. */
    method RefreshOnce(ghost id: nat, key: string, given: Option<string>, upstream: Upstream)
      returns (ghost asked: Option<Asked>)
      requires Valid() && CanHappen(env, upstream)
      requires id in machine.refreshers && machine.refreshers[id] == Refresher(key, given, Started)
      modifies this
      ensures Valid() && old(history) <= history
      ensures Revalidated(env, init, old(history), history, id, key, given, upstream, old(clock), clock, asked)
      ensures id in machine.refreshers && machine.refreshers[id] == Refresher(key, given, RefreshPhase.Ended)
    {
      hide Service.Valid, Kept, CanHappen, Gained, WasCached, AsksFor, Blank;
      ghost var mine := Mine({}, {}, {id});
      Others(mine);
      OwnRefresher(old(machine), machine, id, mine);
      ghost var there, found := history, machine;
      FoundInStore(key);
      ghost var cached := Lookup(machine, key);
      var wanted := Load(id, key, given);
      ghost var loaded := history;
      asked := None;
      if wanted.Some? {
        ghost var moment := RefreshCachedRecord(id, key, given, wanted.value.1, wanted.value.0, upstream, mine);
        asked := Some(Asked(wanted.value.0, wanted.value.1, moment));
      }
      WantedIsAsked(cached, given, wanted, asked);
      ghost var settled := history;
      ghost var before := machine;
      Others(mine);
      OwnRefresher(before, machine, id, mine);
      FinishRefreshing(id, key, given);
      CachedThere(env, init, old(history), there, found, history, key);
      if asked.Some? {
        var Asked(record, url, moment) := asked.value;
        GainedLater(old(history), loaded, settled, history,
                    OfRefresher(id, FinishRefresh(upstream(url, record.etag, moment))));
      }
    }

    /** What a worker does with a key: nothing for the empty one, else `RefreshByKey` and the processed
        counter. */
    method ProcessKey(ghost id: nat, key: string, upstream: Upstream)
      returns (ghost asked: Option<Asked>)
      requires Valid() && CanHappen(env, upstream)
      requires id !in machine.refreshers
      modifies this
      ensures Valid() && old(history) <= history
      ensures key == "" ==> machine == old(machine)
      ensures key != "" && key in old(refreshing) ==>
                && machine.refreshers == old(machine.refreshers) && machine.callers == old(machine.callers)
                && machine.calls == old(machine.calls) && store == old(store) && clock == old(clock)
                && activity == old(activity) && inFlight == old(inFlight) && refreshing == old(refreshing)
                && counters == old(counters).(processed := old(counters.processed) + 1,
                                              deduplicated := old(counters.deduplicated) + 1)
      ensures key != "" && key !in old(refreshing) ==>
                && id in machine.refreshers && machine.refreshers[id] == Refresher(key, None, RefreshPhase.Ended)
                && Revalidated(env, init, old(history), history, id, key, None, upstream, old(clock), clock, asked)
    {
      hide Service.Valid, CanHappen, Revalidated;
      asked := None;
      if key == "" {
        return;
      }
      var started := Start(id, ByKey(key), key, true);
      if started {
        ghost var started := history;
        asked := RefreshOnce(id, key, None, upstream);
        RevalidatedSince(env, init, old(history), started, history, id, key, None, upstream, old(clock), clock, asked);
      }
    }

    /** `RefreshInBackground`, its goroutine included. */
    method RefreshInBackground(ghost id: nat, raw: string, upstream: Upstream)
      returns (scheduled: bool, ghost asked: Option<Asked>)
      requires Valid() && CanHappen(env, upstream)
      requires id !in machine.refreshers
      modifies this
      ensures Valid() && old(history) <= history
      ensures var prepared := env.prepare(raw);
              scheduled <==> prepared.Prepared? && prepared.key != "" && prepared.key !in old(refreshing)
      ensures !scheduled ==>
                machine.refreshers == old(machine.refreshers) && store == old(store) && refreshing == old(refreshing)
      ensures scheduled ==>
                var r := Refresher(env.prepare(raw).key, Some(env.prepare(raw).url), RefreshPhase.Ended);
                && id in machine.refreshers && machine.refreshers[id] == r
                && Revalidated(env, init, old(history), history, id, r.key, r.url, upstream, old(clock), clock, asked)
    {
      hide Service.Valid, CanHappen, Revalidated;
      asked := None;
      var prepared := env.prepare(raw);
      if prepared.Invalid? || prepared.key == "" {
        return false, None;
      }
      scheduled := Start(id, ByRequest(raw), prepared.key, false);
      if scheduled {
        ghost var started := history;
        asked := RefreshOnce(id, prepared.key, Some(prepared.url), upstream);
        RevalidatedSince(env, init, old(history), started, history, id, prepared.key, Some(prepared.url), upstream,
                         old(clock), clock, asked);
      }
    }
  }

  /** The call has not published its response. */
  predicate IsOpen(s: State, call: nat) {
    call in s.calls && !s.calls[call].phase.Closed?
  }

  /** The caller has left with a response: its call's, or one of its own if it was cancelled. */
  predicate EndsWith(c: Caller, call: nat, response: Response, canceled: bool) {
    || (c.phase.Received? && c.phase.response == response && c.phase.from == call)
    || (canceled && c.phase == Canceled(response) && response.status == 504 && response.body.RequestCanceled?)
  }

  lemma OwnRefresher(s: State, t: State, id: nat, mine: Mine)
    requires Kept(s, t, mine) && id in mine.refreshers && id in s.refreshers
    ensures id in t.refreshers && t.refreshers[id] == s.refreshers[id]
  {
  }

  lemma OwnCaller(s: State, t: State, id: nat, mine: Mine)
    requires Kept(s, t, mine) && id in mine.callers && id in s.callers
    ensures id in t.callers && t.callers[id] == s.callers[id]
  {
  }

  lemma OwnCall(s: State, t: State, id: nat, mine: Mine)
    requires Kept(s, t, mine) && id in mine.calls && id in s.calls
    ensures id in t.calls && t.calls[id] == s.calls[id]
  {
  }

  lemma MessageOfOutcome(
    env: Env, url: string, key: string, force: bool, hit: Option<Record>, now: int, answer: Answer)
    ensures var response := Receive(env, key, url, force, hit, now, answer).response;
            answer.Replied? && response.body.UpstreamError? ==>
              var body := answer.reply.body;
              response.body.message ==
              if body.Some? && 0 < |body.value| <= env.maxBytes && env.decode(body.value).Some?
              then Decoded(env.decode(body.value).value) else StatusLine(answer.reply.statusLine)
  {
  }

  lemma ETagOf(hit: Option<Record>)
    ensures IfNoneMatch(hit) ==
            if hit.Some? && !IsNegativeCacheableStatus(hit.value.sourceStatus) && hit.value.etag != ""
                                then hit.value.etag else ""
  {
  }
}
