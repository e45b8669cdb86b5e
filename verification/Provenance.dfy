/**
  Where cached records and responses come from: in every interleaving, each of them shows
  what a fetch without any cache would have shown at some moment of a known window.
 */
module Provenance {
  import opened Records
  import opened VersionService
  import opened Coalescing

  // ---------------------------------------------------------------- the service without a cache

  /** The answer of a service that has no cache to a version of the upstream resource. */
  function Direct(env: Env, v: Version): (int, Body) {
    if v.status == 200 then
      var read := ReadBoundedBody(env, v.body);
      if read.None? then (502, InvalidUpstream)
      else if !env.jsonValid(read.value) then (502, FailedToParse)
      else (200, Raw(read.value))
    else
      (v.status, UpstreamError(ErrorMessage(env, v)))
  }

  /** URL validation gives this URL and cache key for some request. */
  ghost predicate UrlFor(env: Env, url: string, key: string) {
    exists raw :: env.prepare(raw) == Prepared(url, key)
  }

  /** A cacheless fetch of the key at moment `m` shows this status and JSON. */
  ghost predicate Shows(env: Env, key: string, url: string, m: int, status: int, shown: Bytes) {
    && UrlFor(env, url, key)
    && Direct(env, env.upstream(url, m)).0 == status
    && Shown(env, Direct(env, env.upstream(url, m)).1) == shown
  }

  ghost predicate ShownWithin(env: Env, key: string, status: int, shown: Bytes, lo: int, hi: int) {
    exists url, m :: lo <= m <= hi && Shows(env, key, url, m, status, shown)
  }

  ghost predicate ShowsRecord(env: Env, key: string, url: string, m: int, r: Record) {
    Shows(env, key, url, m, r.sourceStatus, r.payload) &&
    (r.sourceStatus == 200 ==> env.upstream(url, m).etag == r.etag)
  }

  ghost predicate RecordWithin(env: Env, key: string, r: Record, lo: int, hi: int) {
    exists url, m :: lo <= m <= hi && ShowsRecord(env, key, url, m, r)
  }

  // ---------------------------------------------------------------- upstream assumptions

  /** Two 200 versions of one key with the same non-empty ETag have the same body. */
  ghost predicate ETagsNamePayloads(env: Env) {
    forall key, u1, m1, u2, m2 | UrlFor(env, u1, key) && UrlFor(env, u2, key) ::
      var v1, v2 := env.upstream(u1, m1), env.upstream(u2, m2);
      v1.status == 200 && v2.status == 200 && v1.etag == v2.etag && v1.etag != "" ==> v1.body == v2.body
  }

  /** A 304 is sent only for the current ETag (RFC 9110, sections 13.1.2 and 15.4.5). */
  ghost predicate Conforming(env: Env) {
    env.strict304 && (forall u, m :: env.upstream(u, m).status != 304) && ETagsNamePayloads(env)
  }

  // ---------------------------------------------------------------- invariants

  ghost predicate RecordOk(env: Env, key: string, r: Record, now: int) {
    && UrlFor(env, r.url, key)
    && 0 < r.fetchedAt <= r.lastCheckedAt <= now
    && r.lastHitAt == r.fetchedAt
    && (r.sourceStatus == 200 || IsNegativeCacheableStatus(r.sourceStatus))
    && (r.sourceStatus == 200 ==> r.expiresAt == HardExpiresAt(r.lastCheckedAt, env.hardTTL))
    && (IsNegativeCacheableStatus(r.sourceStatus) ==>
          r.etag == "" && r.fetchedAt == r.lastCheckedAt && r.expiresAt == r.lastCheckedAt + env.negativeTTL)
    && RecordWithin(env, key, r, r.fetchedAt, now)
    && (Conforming(env) ==> RecordWithin(env, key, r, r.lastCheckedAt, now))
  }

  ghost predicate HitOk(env: Env, key: string, hit: Option<Record>, now: int) {
    hit.Some? ==> RecordOk(env, key, hit.value, now)
  }

  /** The first moment a response may show: a hit is younger than its TTL, anything else
      is not older than the clock reading that decided it. */
  function Oldest(env: Env, response: Response): int {
    if response.cacheStatus != HIT then response.at
    else if response.status != 200 then response.at - env.negativeTTL + 1
    else if env.hardTTL > 0 then response.at - env.hardTTL + 1
    else 0
  }

  ghost predicate ResponseOk(env: Env, key: string, response: Response, now: int) {
    && response.key == key && response.at <= now
    && (response.cacheStatus == HIT ==> response.body.Raw?)
    && (Conforming(env) && !response.body.RequestFailed? ==>
          ShownWithin(env, key, response.status, Shown(env, response.body), Oldest(env, response),
                      if response.cacheStatus == HIT then response.at else now))
  }

  ghost predicate CallerOk(env: Env, c: Caller, now: int) {
    if env.prepare(c.raw).Invalid? then
      && c.phase.Served? && c.phase.response.body == InvalidParameter(env.prepare(c.raw).detail)
      && c.phase.response.status == 400 && c.phase.response.cacheStatus == BYPASS
    else
      && env.prepare(c.raw) == Prepared(c.url, c.key)
      && match c.phase
         case Looked(hit) => HitOk(env, c.key, hit, now)
         case Served(response) => ResponseOk(env, c.key, response, now) && (c.force ==> response.cacheStatus != HIT)
         case Received(response, _, _) => ResponseOk(env, c.key, response, now)
         case Canceled(response) => response.body.RequestCanceled?
         case _ => true
  }

  ghost predicate CallOk(env: Env, c: Call, now: int) {
    && UrlFor(env, c.url, c.key)
    && match c.phase
       case Begun => true
       case Read(hit) => HitOk(env, c.key, hit, now)
       case Ready(hit, at) => 0 < at <= now && HitOk(env, c.key, hit, at)
       case Fetching(hit, at) => 0 < at <= now && HitOk(env, c.key, hit, at)
       case Storing(record, response) =>
         RecordOk(env, c.key, record, now) && ResponseOk(env, c.key, response, now) && response.cacheStatus != HIT
       case Returning(response) => ResponseOk(env, c.key, response, now) && (c.force ==> response.cacheStatus != HIT)
       case Closed(response, _) => ResponseOk(env, c.key, response, now) && (c.force ==> response.cacheStatus != HIT)
  }

  ghost predicate RefresherOk(env: Env, r: Refresher, now: int) {
    && (r.url.Some? ==> UrlFor(env, r.url.value, r.key))
    && match r.phase
       case Loaded(record, url) =>
         RecordOk(env, r.key, record, now) && record.sourceStatus == 200 && UrlFor(env, url, r.key)
       case Requesting(record, url, at) =>
         0 < at <= now && RecordOk(env, r.key, record, at) && record.sourceStatus == 200 && UrlFor(env, url, r.key)
       case Saving(outcome) => !outcome.Failed? ==> RecordOk(env, r.key, outcome.record, now)
       case _ => true
  }

  ghost predicate StoreOk(env: Env, store: map<string, Record>, now: int) {
    forall k <- store :: RecordOk(env, k, store[k], now)
  }

  ghost predicate Provenanced(env: Env, s: State) {
    && s.clock > 0
    && StoreOk(env, s.store, s.clock)
    && (forall id <- s.callers :: CallerOk(env, s.callers[id], s.clock))
    && (forall id <- s.calls :: CallOk(env, s.calls[id], s.clock))
    && (forall id <- s.refreshers :: RefresherOk(env, s.refreshers[id], s.clock))
  }

  // ---------------------------------------------------------------- time passes

  lemma RecordLater(env: Env, key: string, r: Record, now: int, later: int)
    requires RecordOk(env, key, r, now) && now <= later
    ensures RecordOk(env, key, r, later)
  {
  }

  // ---------------------------------------------------------------- one exchange

  /** A request that succeeds on the fast path gets a response of the right age. */
  lemma FastPathOk(env: Env, key: string, force: bool, hit: Option<Record>, now: int)
    requires HitOk(env, key, hit, now)
    requires FastPath(env, key, force, hit, now).Some?
    ensures ResponseOk(env, key, FastPath(env, key, force, hit, now).value, now)
  {
  }

  lemma AcceptedOk(env: Env, key: string, url: string, now: int, moment: int, reply: Version)
    requires UrlFor(env, url, key) && 0 < now <= moment
    requires reply == env.upstream(url, moment) && reply.status == 200 && Direct(env, reply).0 == 200
    ensures var record := Accepted(env, reply, ReadBoundedBody(env, reply.body).value, url, now);
            RecordOk(env, key, record, moment) && RecordWithin(env, key, record, moment, moment)
  {
    var record := Accepted(env, reply, ReadBoundedBody(env, reply.body).value, url, now);
    assert ShowsRecord(env, key, url, moment, record);
  }

  lemma RefusedOk(env: Env, key: string, url: string, now: int, moment: int, reply: Version)
    requires UrlFor(env, url, key) && 0 < now <= moment
    requires reply == env.upstream(url, moment) && IsNegativeCacheableStatus(reply.status)
    ensures RecordOk(env, key, Refused(env, reply, url, now), moment)
    ensures RecordWithin(env, key, Refused(env, reply, url, now), moment, moment)
  {
    assert ShowsRecord(env, key, url, moment, Refused(env, reply, url, now));
  }

  /** A conforming 304 says that the cached payload is the current one. */
  lemma NotModifiedShows(env: Env, key: string, record: Record, url: string, now: int, moment: int)
    requires Conforming(env) && UrlFor(env, url, key)
    requires RecordOk(env, key, record, now) && record.sourceStatus == 200
    requires record.etag != "" && env.upstream(url, moment).status == 200
    requires env.upstream(url, moment).etag == record.etag
    ensures ShowsRecord(env, key, url, moment, record)
  {
    var u0, m0 :| ShowsRecord(env, key, u0, m0, record);
    var v0 := env.upstream(u0, m0);
    assert ShowsRecord(env, key, u0, m0, record);
    assert Shows(env, key, u0, m0, record.sourceStatus, record.payload);
    assert Direct(env, v0).0 == 200;
    assert v0.body == env.upstream(url, moment).body;
  }

  lemma RecheckedOk(env: Env, key: string, record: Record, url: string, now: int, moment: int, reply: Version)
    requires UrlFor(env, url, key) && 0 < now <= moment
    requires RecordOk(env, key, record, now) && record.sourceStatus == 200
    requires Possible(env, url, record.etag, moment, Replied(reply)) && reply.status == 304
    ensures RecordOk(env, key, Rechecked(env, record, url, now), moment)
    ensures Conforming(env) ==>
              && Shows(env, key, url, moment, 200, record.payload)
              && RecordWithin(env, key, Rechecked(env, record, url, now), moment, moment)
  {
    var rechecked := Rechecked(env, record, url, now);
    var u0, m0 :| record.fetchedAt <= m0 <= now && ShowsRecord(env, key, u0, m0, record);
    assert ShowsRecord(env, key, u0, m0, rechecked);
    if Conforming(env) {
      NotModifiedShows(env, key, record, url, now, moment);
      assert ShowsRecord(env, key, url, moment, rechecked);
    }
  }

  lemma ReceiveOk(
    env: Env, key: string, url: string, force: bool, hit: Option<Record>, now: int, moment: int, answer: Answer)
    requires UrlFor(env, url, key) && 0 < now <= moment && HitOk(env, key, hit, now)
    requires Possible(env, url, IfNoneMatch(hit), moment, answer)
    ensures var outcome := Receive(env, key, url, force, hit, now, answer);
            && ResponseOk(env, key, outcome.response, moment)
            && (outcome.write.Some? ==> RecordOk(env, key, outcome.write.value, moment))
    ensures var outcome := Receive(env, key, url, force, hit, now, answer);
            Conforming(env) ==>
              && (outcome.write.Some? ==> RecordWithin(env, key, outcome.write.value, moment, moment))
              && (answer.Replied? ==>
                    var response := outcome.response;
                    ShownWithin(env, key, response.status, Shown(env, response.body), moment, moment))
  {
    var outcome := Receive(env, key, url, force, hit, now, answer);
    if answer.Replied? {
      var reply := answer.reply;
      if reply.status == 304 && HasConditionalCandidate(hit) {
        RecheckedOk(env, key, hit.value, url, now, moment, reply);
      } else if reply == env.upstream(url, moment) {
        assert Shows(env, key, url, moment, Direct(env, reply).0, Shown(env, Direct(env, reply).1));
        if reply.status == 200 && Direct(env, reply).0 == 200 {
          AcceptedOk(env, key, url, now, moment, reply);
        } else if IsNegativeCacheableStatus(reply.status) {
          RefusedOk(env, key, url, now, moment, reply);
        }
      }
    }
  }

  lemma RefreshReceiveOk(env: Env, key: string, record: Record, url: string, now: int, moment: int, answer: Answer)
    requires UrlFor(env, url, key) && 0 < now <= moment
    requires RecordOk(env, key, record, now) && record.sourceStatus == 200
    requires Possible(env, url, record.etag, moment, answer)
    ensures var outcome := RefreshReceive(env, record, url, now, answer);
            !outcome.Failed? ==>
              && RecordOk(env, key, outcome.record, moment)
              && (Conforming(env) ==> RecordWithin(env, key, outcome.record, moment, moment))
  {
    if answer.Replied? {
      if answer.reply.status == 304 {
        RecheckedOk(env, key, record, url, now, moment, answer.reply);
      } else if answer.reply.status == 200 && Direct(env, answer.reply).0 == 200 {
        AcceptedOk(env, key, url, now, moment, answer.reply);
      }
    }
  }

  // ---------------------------------------------------------------- preservation

  lemma CallerLater(env: Env, c: Caller, now: int, later: int)
    requires CallerOk(env, c, now) && now <= later
    ensures CallerOk(env, c, later)
  {
  }

  lemma CallLater(env: Env, c: Call, now: int, later: int)
    requires CallOk(env, c, now) && now <= later
    ensures CallOk(env, c, later)
  {
  }

  lemma RefresherLater(env: Env, r: Refresher, now: int, later: int)
    requires RefresherOk(env, r, now) && now <= later
    ensures RefresherOk(env, r, later)
  {
  }

  lemma StateLater(env: Env, s: State, later: int)
    requires Provenanced(env, s) && s.clock <= later
    ensures Provenanced(env, s.(clock := later))
  {
    hide RecordOk, CallerOk, CallOk, RefresherOk;
    forall k | k in s.store ensures RecordOk(env, k, s.store[k], later) {
      RecordLater(env, k, s.store[k], s.clock, later);
    }
    forall id | id in s.callers ensures CallerOk(env, s.callers[id], later) {
      CallerLater(env, s.callers[id], s.clock, later);
    }
    forall id | id in s.calls ensures CallOk(env, s.calls[id], later) {
      CallLater(env, s.calls[id], s.clock, later);
    }
    forall id | id in s.refreshers ensures RefresherOk(env, s.refreshers[id], later) {
      RefresherLater(env, s.refreshers[id], s.clock, later);
    }
  }

  lemma CallerStep(env: Env, s: State, id: nat, op: CallerOp)
    requires Protocol(s) && Provenanced(env, s)
    requires id in s.callers && CallerEnabled(s, s.callers[id], op)
    ensures CallerOk(env, s.callers[id].(phase := CallerNext(env, s, s.callers[id], op)), s.clock)
    ensures UrlFor(env, s.callers[id].url, s.callers[id].key)
  {
    hide RecordOk, ResponseOk;
    var c := s.callers[id];
    assert CallerOk(env, c, s.clock);
    match op
    case Decide =>
      if FastPath(env, c.key, c.force, c.phase.hit, s.clock).Some? {
        FastPathOk(env, c.key, c.force, c.phase.hit, s.clock);
      }
    case ReceiveResponse =>
      assert IsServed(c, s.calls, s.steps);
      assert CallOk(env, s.calls[c.phase.call], s.clock);
    case _ =>
  }

  lemma CallStep(env: Env, s: State, id: nat, op: CallOp)
    requires Provenanced(env, s)
    requires id in s.calls && CallEnabled(env, s, s.calls[id], op)
    ensures CallOk(env, s.calls[id].(phase := CallNext(env, s, s.calls[id], op)), s.clock)
    ensures op.Store? ==> RecordOk(env, s.calls[id].key, s.calls[id].phase.record, s.clock)
  {
    hide RecordOk, ResponseOk;
    var c := s.calls[id];
    assert CallOk(env, c, s.clock);
    match op
    case DecideFetch =>
      if FastPath(env, c.key, c.force, c.phase.hit, s.clock).Some? {
        FastPathOk(env, c.key, c.force, c.phase.hit, s.clock);
      }
    case Finish(answer) =>
      ReceiveOk(env, c.key, c.url, c.force, c.phase.hit, c.phase.now, s.clock, answer);
    case _ =>
  }

  lemma RefresherStep(env: Env, s: State, id: nat, op: RefreshOp)
    requires Provenanced(env, s)
    requires id in s.refreshers && RefreshEnabled(env, s, s.refreshers[id], op)
    ensures RefresherOk(env, s.refreshers[id].(phase := RefreshNext(env, s, s.refreshers[id], op)), s.clock)
    ensures op.Save? ==> RecordOk(env, s.refreshers[id].key, s.refreshers[id].phase.outcome.record, s.clock)
  {
    var r := s.refreshers[id];
    assert RefresherOk(env, r, s.clock);
    match op
    case FinishRefresh(answer) =>
      RefreshReceiveOk(env, r.key, r.phase.record, r.phase.url, r.phase.now, s.clock, answer);
    case _ =>
  }

  lemma StartStep(env: Env, s: State, id: nat, origin: Origin)
    requires Provenanced(env, s)
    ensures var (key, url) := Target(env, origin); RefresherOk(env, Refresher(key, url, Started), s.clock)
  {
  }

  lemma ArriveStep(env: Env, s: State, raw: string, force: bool)
    ensures CallerOk(env, ArriveNext(env, s.clock, raw, force), s.clock)
  {
  }

  lemma BegunOk(env: Env, c: Caller, now: int)
    requires UrlFor(env, c.url, c.key)
    ensures CallOk(env, Call(c.url, c.key, c.force, Begun), now)
  {
  }

  lemma ProvenanceByCaller(env: Env, s: State, id: nat, op: CallerOp)
    requires Protocol(s) && Provenanced(env, s)
    requires id in s.callers && CallerEnabled(s, s.callers[id], op)
    ensures Provenanced(env, CallerEffect(env, s, id, op))
  {
    hide RecordOk, CallerOk, CallOk, RefresherOk, CallerNext, Protocol;
    CallerStep(env, s, id, op);
    BegunOk(env, s.callers[id], s.clock);
  }

  lemma ProvenanceByCall(env: Env, s: State, id: nat, op: CallOp)
    requires Provenanced(env, s)
    requires id in s.calls && CallEnabled(env, s, s.calls[id], op)
    ensures Provenanced(env, CallEffect(env, s, id, op))
  {
    hide RecordOk, CallerOk, CallOk, RefresherOk, CallNext, CallCount;
    CallStep(env, s, id, op);
  }

  lemma ProvenanceByRefresher(env: Env, s: State, id: nat, op: RefreshOp)
    requires Provenanced(env, s)
    requires id in s.refreshers && RefreshEnabled(env, s, s.refreshers[id], op)
    ensures Provenanced(env, RefreshEffect(env, s, id, op))
  {
    hide RecordOk, CallerOk, CallOk, RefresherOk, RefreshNext, RefreshCount;
    RefresherStep(env, s, id, op);
  }

  lemma ProvenanceOtherwise(env: Env, s: State, step: Step)
    requires Enabled(env, s, step) && Provenanced(env, s)
    requires !step.OfCaller? && !step.OfCall? && !step.OfRefresher?
    ensures Provenanced(env, Effect(env, s, step))
  {
    hide RecordOk, CallerOk, CallOk, RefresherOk, CallerEffect, CallEffect, RefreshEffect;
    match step
    case Tick(elapsed) => StateLater(env, s, s.clock + elapsed);
    case Evict(keys) =>
    case Arrive(id, raw, force) => ArriveStep(env, s, raw, force);
    case StartRefresh(id, origin) => StartStep(env, s, id, origin);
  }

  lemma StepsDoNotMatter(env: Env, s: State, steps: nat)
    requires Provenanced(env, s)
    ensures Provenanced(env, s.(steps := steps))
  {
  }

  lemma ProvenanceStep(env: Env, s: State, step: Step)
    requires Enabled(env, s, step) && Protocol(s) && Provenanced(env, s)
    ensures Provenanced(env, Next(env, s, step))
  {
    hide Provenanced, CallerEffect, CallEffect, RefreshEffect, Protocol;
    match step {
      case OfCaller(id, op) => ProvenanceByCaller(env, s, id, op);
      case OfCall(id, op) => ProvenanceByCall(env, s, id, op);
      case OfRefresher(id, op) => ProvenanceByRefresher(env, s, id, op);
      case _ => ProvenanceOtherwise(env, s, step);
    }
    StepsDoNotMatter(env, Effect(env, s, step), s.steps + 1);
  }

  /** The provenance invariant holds in every reachable state of every interleaving. */
  lemma {:induction false} ProvenanceHolds(env: Env, init: State, run: seq<Step>, s: State)
    requires Reaches(env, init, run, s)
    ensures Provenanced(env, s)
  {
    if run != [] {
      var before := Execute(env, init, run[..|run| - 1]).value;
      ProvenanceHolds(env, init, run[..|run| - 1], before);
      ProtocolHolds(env, init, run[..|run| - 1], before);
      ProvenanceStep(env, before, run[|run| - 1]);
    }
  }
}
