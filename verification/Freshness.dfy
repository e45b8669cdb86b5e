/**
  What a client of the version service can rely on: the main theorems about responses.
 */
module Freshness {
  import opened Records
  import opened VersionService
  import opened Exchanges
  import opened Coalescing
  import opened Provenance

  /** URLs that share a cache key name the same upstream resource. */
  ghost predicate SameResource(env: Env) {
    forall key, u1, u2, m | UrlFor(env, u1, key) && UrlFor(env, u2, key) :: env.upstream(u1, m) == env.upstream(u2, m)
  }

  /** The upstream never changes its answers. */
  ghost predicate FixedUpstream(env: Env) {
    forall u, m, n :: env.upstream(u, m) == env.upstream(u, n)
  }

  /** The caller has its response, by itself or from the call that it joined. */
  predicate Answered(c: Caller) {
    c.phase.Served? || c.phase.Received?
  }

  function Answer(c: Caller): Response
    requires Answered(c)
  {
    c.phase.response
  }

  /** At moment `m` a fetch of the caller's own URL without any cache shows the response. */
  ghost predicate DirectAt(env: Env, c: Caller, m: int, response: Response) {
    AnswersTo(env, env.upstream(c.url, m), response.status, JsonOf(env, response.body))
  }

  /** The JSON of a response: the stored bytes themselves, or the encoded body. */
  function JsonOf(env: Env, body: Body): Bytes {
    match body
    case Raw(payload) => payload
    case _ => env.render(body)
  }

  lemma DirectAnswers(env: Env, v: Version, status: int, shown: Bytes)
    ensures AnswersTo(env, v, status, shown) <==>
            Direct(env, v).0 == status && Shown(env, Direct(env, v).1) == shown
  {
  }

  /** A hit shows a moment within its TTL before its clock reading, anything else one after it. */
  predicate InWindow(env: Env, response: Response, m: int, clock: int) {
    if response.cacheStatus != HIT then response.at <= m <= clock
    else
      && m <= response.at
      && (response.status != 200 ==> response.at - env.negativeTTL < m)
      && (response.status == 200 && env.hardTTL > 0 ==> response.at - env.hardTTL < m)
  }

  /** Hits, misses, revalidations, forced refreshes, followers and errors alike: a response that
      is not a transport failure shows what a cacheless fetch of the same URL would have shown
      at one moment, no earlier than its cache status allows and no later than now. */
  lemma EveryResponseIsDirect(env: Env, init: State, run: seq<Step>, s: State, id: nat)
    requires Reaches(env, init, run, s) && Conforming(env) && SameResource(env)
    requires id in s.callers && env.prepare(s.callers[id].raw).Prepared? && Answered(s.callers[id])
    requires !Answer(s.callers[id]).body.RequestFailed?
    ensures var c := s.callers[id];
            var response := Answer(c);
            exists m :: InWindow(env, response, m, s.clock) && DirectAt(env, c, m, response)
  {
    hide AnswersTo, Direct;
    ProvenanceHolds(env, init, run, s);
    var c := s.callers[id];
    var response := Answer(c);
    assert CallerOk(env, c, s.clock);
    assert UrlFor(env, c.url, c.key);
    var url, m :| Oldest(env, response) <= m <= (if response.cacheStatus == HIT then response.at else s.clock)
                  && Shows(env, c.key, url, m, response.status, Shown(env, response.body));
    assert env.upstream(url, m) == env.upstream(c.url, m);
    DirectAnswers(env, env.upstream(url, m), response.status, Shown(env, response.body));
    assert InWindow(env, response, m, s.clock) && DirectAt(env, c, m, response);
  }

  /** Bounded staleness: the payload of a positive hit at time t was the upstream's current
      payload at some moment in (t - HardTTL, t]. */
  lemma BoundedStaleness(env: Env, init: State, run: seq<Step>, s: State, id: nat)
    requires Reaches(env, init, run, s) && Conforming(env) && SameResource(env) && env.hardTTL > 0
    requires id in s.callers && Answered(s.callers[id])
    requires Answer(s.callers[id]).cacheStatus == HIT && Answer(s.callers[id]).status == 200
    ensures var response := Answer(s.callers[id]);
            exists m :: response.at - env.hardTTL < m <= response.at
                        && env.upstream(s.callers[id].url, m).status == 200
                        && env.upstream(s.callers[id].url, m).body == Some(Shown(env, response.body))
  {
    ProvenanceHolds(env, init, run, s);
    var c := s.callers[id];
    assert CallerOk(env, c, s.clock);
    assert Answer(c).body.Raw?;
    EveryResponseIsDirect(env, init, run, s, id);
    var m :| InWindow(env, Answer(c), m, s.clock) && DirectAt(env, c, m, Answer(c));
  }

  /** The status and JSON of a service without a cache. */
  predicate UncachedAnswers(env: Env, raw: string, status: int, shown: Bytes) {
    match env.prepare(raw)
    case Invalid(detail) => status == 400 && shown == env.render(InvalidParameter(detail))
    case Prepared(url, _) => AnswersTo(env, env.upstream(url, 0), status, shown)
  }

  /** Cache transparency: with a fixed upstream, every response that is neither a cancellation
      nor a transport failure has the status and JSON of a service without a cache, whatever the
      interleaving, the evictions, the TTLs and the mix of forced refreshes. */
  lemma CacheTransparency(env: Env, init: State, run: seq<Step>, s: State, id: nat)
    requires Reaches(env, init, run, s) && Conforming(env) && SameResource(env) && FixedUpstream(env)
    requires id in s.callers && Answered(s.callers[id]) && !Answer(s.callers[id]).body.RequestFailed?
    ensures var response := Answer(s.callers[id]);
            UncachedAnswers(env, s.callers[id].raw, response.status, JsonOf(env, response.body))
  {
    hide AnswersTo;
    ProvenanceHolds(env, init, run, s);
    var c := s.callers[id];
    assert CallerOk(env, c, s.clock);
    if env.prepare(c.raw).Prepared? {
      EveryResponseIsDirect(env, init, run, s, id);
      var m :| InWindow(env, Answer(c), m, s.clock) && DirectAt(env, c, m, Answer(c));
      assert env.upstream(c.url, m) == env.upstream(c.url, 0);
    }
  }

  /** Every cached record: its status is cacheable, its timestamps agree with the TTLs, its URL passed
      request validation for exactly this key, and it comes from one answer of one upstream resource
      of this key.  A positive record holds the body and the ETag of a 200, valid JSON within the size
      limit.  A negative one holds the rendered error of a 404 or 410, as old as its last check. */
  lemma EveryRecordIsSound(env: Env, init: State, run: seq<Step>, s: State, key: string)
    requires Reaches(env, init, run, s) && key in s.store
    ensures var r := s.store[key];
            && UrlFor(env, r.url, key)
            && 0 < r.fetchedAt <= r.lastCheckedAt <= s.clock
            && (r.sourceStatus == 200 || r.sourceStatus == 404 || r.sourceStatus == 410)
            && (r.sourceStatus == 200 ==>
                  && env.jsonValid(r.payload) && |r.payload| <= env.maxBytes
                  && r.expiresAt == (if env.hardTTL > 0 then r.lastCheckedAt + env.hardTTL else ZERO_TIME))
            && (r.sourceStatus != 200 ==>
                  r.etag == "" && r.fetchedAt == r.lastCheckedAt && r.expiresAt == r.lastCheckedAt + env.negativeTTL)
            && (exists url, m ::
                  r.fetchedAt <= m <= s.clock && UrlFor(env, url, key) && ComesFrom(env, r, env.upstream(url, m)))
  {
    ProvenanceHolds(env, init, run, s);
    var r := s.store[key];
    assert RecordOk(env, key, r, s.clock);
    var url, m :| r.fetchedAt <= m <= s.clock && ShowsRecord(env, key, url, m, r);
    assert Shows(env, key, url, m, r.sourceStatus, r.payload);
    DirectAnswers(env, env.upstream(url, m), r.sourceStatus, r.payload);
  }

  /** The record holds what the upstream answered. */
  predicate ComesFrom(env: Env, r: Record, v: Version) {
    && r.sourceStatus == v.status
    && (v.status == 200 ==> v.body == Some(r.payload) && v.etag == r.etag)
    && AnswersTo(env, v, r.sourceStatus, r.payload)
  }

  /** Background refreshes send requests only to URLs that passed validation for their key. */
  lemma RefreshesFetchValidatedUrls(env: Env, init: State, run: seq<Step>, s: State, id: nat)
    requires Reaches(env, init, run, s)
    requires id in s.refreshers && s.refreshers[id].phase.Requesting?
    ensures exists raw :: env.prepare(raw) == Prepared(s.refreshers[id].phase.url, s.refreshers[id].key)
  {
    ProvenanceHolds(env, init, run, s);
    assert RefresherOk(env, s.refreshers[id], s.clock);
  }

  /** The fallback of the expiry rule for records without an expiry instant is never taken:
      a cached positive record is expired exactly HardTTL after its last check. */
  lemma ExpiryIsSinceLastCheck(env: Env, init: State, run: seq<Step>, s: State, key: string, now: int)
    requires Reaches(env, init, run, s) && key in s.store && s.store[key].sourceStatus == 200
    ensures IsHardExpired(s.store[key], now, env.hardTTL) <==>
            env.hardTTL > 0 && now >= s.store[key].lastCheckedAt + env.hardTTL
  {
    ProvenanceHolds(env, init, run, s);
    assert RecordOk(env, key, s.store[key], s.clock);
  }

  /** The cache holds a record whose TTL, counted from the last check, has not run out. */
  predicate Live(env: Env, hit: Option<Record>, now: int) {
    hit.Some? &&
    if hit.value.sourceStatus == 200 then env.hardTTL <= 0 || now < hit.value.lastCheckedAt + env.hardTTL
    else now < hit.value.lastCheckedAt + env.negativeTTL
  }

  lemma LiveIff(env: Env, key: string, force: bool, hit: Option<Record>, found: int, now: int)
    requires HitOk(env, key, hit, found) && found <= now
    ensures FastPath(env, key, force, hit, now).Some? <==> !force && Live(env, hit, now)
  {
    hide RecordWithin;
    if hit.Some? {
      assert RecordOk(env, key, hit.value, found);
    }
  }

  /** The cache answers by itself exactly the unforced requests for a live record. */
  lemma CacheAnswersIff(env: Env, init: State, run: seq<Step>, s: State, key: string, force: bool)
    requires Reaches(env, init, run, s)
    ensures FastPath(env, key, force, Lookup(s, key), s.clock).Some? <==> !force && Live(env, Lookup(s, key), s.clock)
  {
    hide FastPath, Live, RecordOk;
    ProvenanceHolds(env, init, run, s);
    LiveIff(env, key, force, Lookup(s, key), s.clock, s.clock);
  }

  /** A forced refresh never gets a hit of its own; it can get one only by joining
      a call that a request without force leads. */
  lemma ForcedRefreshHitsOnlyAsFollower(env: Env, init: State, run: seq<Step>, s: State, id: nat)
    requires Reaches(env, init, run, s)
    requires id in s.callers && s.callers[id].force && Answered(s.callers[id])
    requires Answer(s.callers[id]).cacheStatus == HIT
    ensures s.callers[id].phase.Received?
    ensures s.callers[id].phase.from in s.calls && !s.calls[s.callers[id].phase.from].force
  {
    hide RecordOk, ResponseOk;
    ProvenanceHolds(env, init, run, s);
    ProtocolHolds(env, init, run, s);
    var c := s.callers[id];
    assert CallerOk(env, c, s.clock);
    assert IsServed(c, s.calls, s.steps);
    if c.phase.Received? {
      assert CallOk(env, s.calls[c.phase.from], s.clock);
    }
  }
}
