/**
  What every answer of the upstream leads to, written out case by case with the statuses, the limit and
  the fields themselves: the reference that the functions of the state machine and the code are held to.
 */
module Exchanges {
  import opened Records
  import opened VersionService

  /** The JSON under "message" of an upstream error: what the body decodes to if it can be read within the
      limit, is not empty and is neither malformed nor null, and the status line in every other case. */
  predicate IsMessageOf(env: Env, reply: Version, message: Message) {
    if reply.body.Some? && 0 < |reply.body.value| <= env.maxBytes && env.decode(reply.body.value).Some?
    then message == Decoded(env.decode(reply.body.value).value)
    else message == StatusLine(reply.statusLine)
  }

  /** The body can be read within the limit. */
  predicate Readable(env: Env, body: Option<Bytes>) {
    body.Some? && |body.value| <= env.maxBytes
  }

  /** The record of a 200 that was asked for at `now`. */
  predicate IsFresh(env: Env, reply: Version, url: string, now: int, r: Record) {
    && reply.body == Some(r.payload) && r.etag == reply.etag && r.url == url
    && r.fetchedAt == now && r.lastHitAt == now && r.lastCheckedAt == now && r.sourceStatus == 200
    && r.expiresAt == (if env.hardTTL > 0 then now + env.hardTTL else 0)
  }

  /** The record with a later check and nothing else changed but its expiry and its URL. */
  predicate IsRechecked(env: Env, cached: Record, url: string, now: int, r: Record) {
    && r.payload == cached.payload && r.etag == cached.etag && r.sourceStatus == cached.sourceStatus
    && r.fetchedAt == cached.fetchedAt && r.lastHitAt == cached.lastHitAt
    && r.lastCheckedAt == now && r.url == url
    && r.expiresAt == (if env.hardTTL > 0 then now + env.hardTTL else 0)
  }

  /** The record of a 404 or 410. */
  predicate IsRefusal(env: Env, reply: Version, message: Message, url: string, now: int, r: Record) {
    && r.payload == env.render(UpstreamError(message)) && r.etag == "" && r.url == url
    && r.fetchedAt == now && r.lastHitAt == now && r.lastCheckedAt == now && r.sourceStatus == reply.status
    && r.expiresAt == now + env.negativeTTL
  }

  /** The end of a foreground exchange. */
  predicate ForegroundEnds(env: Env, url: string, key: string, force: bool, hit: Option<Record>, now: int,
                           answer: Answer, response: Response, write: Option<Record>)
  {
    && response.key == key && response.at == now
    && match answer
       case TransportError(timedOut) =>
         && response.status == (if timedOut then 504 else 502) && response.body.RequestFailed?
         && response.cacheStatus == BYPASS && response.upstreamStatus == 0 && write == None
       case Replied(reply) =>
         && response.upstreamStatus == reply.status
         && if reply.status == 304 && hit.Some? && hit.value.etag != ""
               && hit.value.sourceStatus != 404 && hit.value.sourceStatus != 410
            then
              && response.status == 200 && response.body == Raw(hit.value.payload)
              && response.cacheStatus == REVALIDATED
              && write.Some? && IsRechecked(env, hit.value, url, now, write.value)
            else
              && response.cacheStatus == (if force then BYPASS else MISS)
              && if reply.status == 200 then
                   if !Readable(env, reply.body) then
                     response.status == 502 && response.body.InvalidUpstream? && write == None
                   else if !env.jsonValid(reply.body.value) then
                     response.status == 502 && response.body.FailedToParse? && write == None
                   else
                     && response.status == 200 && response.body == Raw(reply.body.value)
                     && write.Some? && IsFresh(env, reply, url, now, write.value)
                 else
                   && response.status == reply.status && response.body.UpstreamError?
                   && IsMessageOf(env, reply, response.body.message)
                   && if reply.status == 404 || reply.status == 410 then
                        write.Some? && IsRefusal(env, reply, response.body.message, url, now, write.value)
                      else
                        write == None
  }

  lemma ReceiveEnds(env: Env, key: string, url: string, force: bool, hit: Option<Record>, now: int, answer: Answer)
    ensures var outcome := Receive(env, key, url, force, hit, now, answer);
            ForegroundEnds(env, url, key, force, hit, now, answer, outcome.response, outcome.write)
  {
  }

  /** The end of a background exchange. */
  predicate BackgroundEnds(env: Env, record: Record, url: string, now: int, answer: Answer, outcome: RefreshOutcome) {
    if answer.Replied? && answer.reply.status == 304 then
      outcome.NotModified? && IsRechecked(env, record, url, now, outcome.record)
    else if answer.Replied? && answer.reply.status == 200 && Readable(env, answer.reply.body)
            && env.jsonValid(answer.reply.body.value) then
      outcome.Updated? && IsFresh(env, answer.reply, url, now, outcome.record)
    else
      outcome.Failed?
  }

  lemma RefreshReceiveEnds(env: Env, record: Record, url: string, now: int, answer: Answer)
    ensures BackgroundEnds(env, record, url, now, answer, RefreshReceive(env, record, url, now, answer))
  {
  }

  /** Transport failures and statuses from 400 on are errors. */
  predicate IsError(answer: Answer) {
    answer.Replied? ==> answer.reply.status >= 400
  }

  lemma CountsAsErrorIff(answer: Answer)
    ensures CountsAsError(answer) <==> IsError(answer)
  {
  }

  lemma ReportsIff(hit: Option<Record>, outcome: Outcome)
    ensures ReportsActivity(hit, outcome) <==>
            outcome.response.cacheStatus == REVALIDATED || (hit.None? && outcome.write.Some?)
  {
  }

  /** What a service without a cache answers to a version of the upstream resource. */
  predicate AnswersTo(env: Env, v: Version, status: int, shown: Bytes) {
    if v.status == 200 then
      if !Readable(env, v.body) then
        status == 502 && shown == env.render(InvalidUpstream)
      else if !env.jsonValid(v.body.value) then
        status == 502 && shown == env.render(FailedToParse)
      else
        status == 200 && shown == v.body.value
    else
      && status == v.status
      && shown == env.render(UpstreamError(
           if v.body.Some? && 0 < |v.body.value| <= env.maxBytes && env.decode(v.body.value).Some?
           then Decoded(env.decode(v.body.value).value) else StatusLine(v.statusLine)))
  }

  /** The upstream may fail, answer with what it has, or confirm an ETag with a 304; one that keeps to its
      ETags confirms only the non-empty one of a current 200. */
  lemma PossibleIff(env: Env, url: string, etag: string, moment: int, answer: Answer)
    ensures Possible(env, url, etag, moment, answer) <==>
            || answer.TransportError?
            || answer.reply == env.upstream(url, moment)
            || (answer.reply.status == 304 &&
                (!env.strict304 ||
                 (etag != "" && env.upstream(url, moment).status == 200 && env.upstream(url, moment).etag == etag)))
  {
  }

  /** Nothing but white space. */
  predicate OnlySpace(s: string) {
    forall c <- s ::
      c == ' ' || c == '\t' || c == '\n' || c == '\r'
      || c == '\U{0B}' || c == '\U{0C}' || c == '\U{85}' || c == '\U{A0}'
  }

  lemma BlankIff(s: string)
    ensures Blank(s) <==> OnlySpace(s)
  {
    if OnlySpace(s) {
      forall i | 0 <= i < |s| ensures s[i] in " \t\n\U{0B}\U{0C}\r\U{85}\U{A0}" {
        assert s[i] in s;
      }
    }
  }

  /** The cached record may be served: an unexpired 404 or 410, or another record whose hard TTL, if there is
      one, has not run out. */
  predicate MayServe(r: Record, now: int, hardTTL: int) {
    if r.sourceStatus == 404 || r.sourceStatus == 410 then
      r.expiresAt != 0 && now < r.expiresAt
    else
      hardTTL > 0 ==>
        if r.expiresAt != 0 then now < r.expiresAt
        else if r.fetchedAt != 0 then now < r.fetchedAt + hardTTL
        else r.lastCheckedAt != 0 ==> now < r.lastCheckedAt + hardTTL
  }

  /** The answer that the cache gives by itself. */
  predicate ServedFrom(r: Record, key: string, now: int, response: Response) {
    && response.status == (if r.sourceStatus == 404 || r.sourceStatus == 410 then r.sourceStatus else 200)
    && response.body == Raw(r.payload) && response.cacheStatus == HIT
    && response.key == key && response.upstreamStatus == 0 && response.at == now
  }

  lemma FastPathServes(env: Env, key: string, force: bool, hit: Option<Record>, now: int)
    ensures var served := FastPath(env, key, force, hit, now);
            && (served.Some? <==> !force && hit.Some? && MayServe(hit.value, now, env.hardTTL))
            && (served.Some? ==> ServedFrom(hit.value, key, now, served.value))
  {
  }
}
