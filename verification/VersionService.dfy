/**
  The version service as a state machine over atomic steps.

  One step is one critical section, one atomic counter update together with the local
  computation around it, or one event of an upstream exchange.  Callers run `handle` with
  coalescing, calls are the goroutines that `foregroundRequestGroup.Do` starts, and
  refreshers run `RefreshByKey` or `RefreshInBackground`.  Any interleaving of steps of any
  number of them, of clock ticks and of evictions is a sequence of `Step` values.
 */
module VersionService {
  import opened Records

  // ---------------------------------------------------------------- environment

  /** What an upstream resource answers to an unconditional request at one moment.
      A body of None fails while it is being read. */
  datatype Version = Version(status: int, statusLine: string, etag: string, body: Option<Bytes>)

  datatype Prepared = Invalid(detail: string) | Prepared(url: string, key: string)

  /** The fixed surroundings of a run.  `prepare` is URL validation and key derivation,
      `upstream` the history of every upstream resource, `decode` JSON decoding (None for
      malformed input and for null), `render` the JSON encoding of a response body. */
  datatype Env = Env(
    prepare: string -> Prepared,
    upstream: (string, int) -> Version,
    strict304: bool,
    jsonValid: Bytes -> bool,
    decode: Bytes -> Option<string>,
    render: Body -> Bytes,
    hardTTL: int,
    negativeTTL: int,
    maxBytes: int)

  // ---------------------------------------------------------------- responses

  datatype Message = Decoded(value: string) | StatusLine(line: string)

  datatype Body =
    | Raw(payload: Bytes)
    | UpstreamError(message: Message)
    | InvalidParameter(detail: string)
    | RequestFailed
    | InvalidUpstream
    | FailedToParse
    | RequestCanceled

  datatype CacheStatus = BYPASS | HIT | MISS | REVALIDATED

  /** `at` is the clock reading that decided the response; the source keeps it in a local. */
  datatype Response = Response(
    status: int,
    body: Body,
    cacheStatus: CacheStatus,
    key: string,
    upstreamStatus: int,
    at: int)

  /** The JSON a client sees. */
  function Shown(env: Env, body: Body): Bytes {
    if body.Raw? then body.payload else env.render(body)
  }

  /** An exchange ends with a transport error or with a status, an ETag and a body. */
  datatype Answer = TransportError(timedOut: bool) | Replied(reply: Version)

  function ReadBoundedBody(env: Env, body: Option<Bytes>): Option<Bytes> {
    if body.Some? && |body.value| > env.maxBytes then None else body
  }

  function ErrorMessage(env: Env, reply: Version): Message {
    var read := ReadBoundedBody(env, reply.body);
    if read.Some? && |read.value| > 0 && env.decode(read.value).Some?
    then Decoded(env.decode(read.value).value)
    else StatusLine(reply.statusLine)
  }

  // ---------------------------------------------------------------- handle, without coalescing

  function FastPath(env: Env, key: string, force: bool, hit: Option<Record>, now: int): Option<Response> {
    if hit.None? then
      None
    else
      var r := hit.value;
      if !IsNegativeCacheableStatus(r.sourceStatus) && IsHardExpired(r, now, env.hardTTL) then
        None
      else if force then
        None
      else if ShouldServeNegativeCachedRecord(r, now) then
        Some(Response(r.sourceStatus, Raw(r.payload), HIT, key, 0, now))
      else if !IsNegativeCacheableStatus(r.sourceStatus) then
        Some(Response(200, Raw(r.payload), HIT, key, 0, now))
      else
        None
  }

  predicate HasConditionalCandidate(hit: Option<Record>) {
    hit.Some? && !IsNegativeCacheableStatus(hit.value.sourceStatus) && hit.value.etag != ""
  }

  function IfNoneMatch(hit: Option<Record>): string {
    if HasConditionalCandidate(hit) then hit.value.etag else ""
  }

  function Rechecked(env: Env, record: Record, url: string, now: int): Record {
    record.(lastCheckedAt := now, expiresAt := HardExpiresAt(now, env.hardTTL), url := url)
  }

  function Accepted(env: Env, reply: Version, payload: Bytes, url: string, now: int): Record {
    Record(payload, reply.etag, url, now, now, now, HardExpiresAt(now, env.hardTTL), reply.status)
  }

  function Refused(env: Env, reply: Version, url: string, now: int): Record {
    Record(env.render(UpstreamError(ErrorMessage(env, reply))), "", url, now, now, now,
           now + env.negativeTTL, reply.status)
  }

  datatype Outcome = Outcome(write: Option<Record>, response: Response)

  function Receive(
    env: Env, key: string, url: string, force: bool, hit: Option<Record>, now: int, answer: Answer): Outcome {
    var cacheStatus := if force then BYPASS else MISS;
    match answer
    case TransportError(timedOut) =>
      Outcome(None, Response(if timedOut then 504 else 502, RequestFailed, BYPASS, key, 0, now))
    case Replied(reply) =>
      if reply.status == 304 && HasConditionalCandidate(hit) then
        var record := Rechecked(env, hit.value, url, now);
        Outcome(Some(record), Response(200, Raw(record.payload), REVALIDATED, key, 304, now))
      else if reply.status == 200 then
        var read := ReadBoundedBody(env, reply.body);
        if read.None? then
          Outcome(None, Response(502, InvalidUpstream, cacheStatus, key, 200, now))
        else if !env.jsonValid(read.value) then
          Outcome(None, Response(502, FailedToParse, cacheStatus, key, 200, now))
        else
          Outcome(Some(Accepted(env, reply, read.value, url, now)),
                  Response(200, Raw(read.value), cacheStatus, key, 200, now))
      else
        var response :=
          Response(reply.status, UpstreamError(ErrorMessage(env, reply)), cacheStatus, key, reply.status, now);
        if ShouldBypassCacheWrite(reply.status) then
          Outcome(None, response)
        else if IsNegativeCacheableStatus(reply.status) then
          Outcome(Some(Refused(env, reply, url, now)), response)
        else
          Outcome(None, response)
  }

  /** Whether an exchange bumps the upstream error counter. */
  predicate CountsAsError(answer: Answer) {
    answer.TransportError? || answer.reply.status >= 400
  }

  /** Whether an exchange is reported to the activity tracker. */
  predicate ReportsActivity(hit: Option<Record>, outcome: Outcome) {
    outcome.response.cacheStatus == REVALIDATED || (hit.None? && outcome.write.Some?)
  }

  // ---------------------------------------------------------------- refreshCachedRecord

  datatype RefreshOutcome = NotModified(record: Record) | Updated(record: Record) | Failed

  function RefreshReceive(env: Env, record: Record, url: string, now: int, answer: Answer): RefreshOutcome {
    match answer
    case TransportError(_) => Failed
    case Replied(reply) =>
      if reply.status == 304 then
        NotModified(Rechecked(env, record, url, now))
      else if reply.status == 200 then
        var read := ReadBoundedBody(env, reply.body);
        if read.None? || !env.jsonValid(read.value) then
          Failed
        else
          Updated(Accepted(env, reply, read.value, url, now))
      else
        Failed
  }

  predicate Blank(s: string) {
    forall i :: 0 <= i < |s| ==> s[i] in " \t\n\U{0B}\U{0C}\r\U{85}\U{A0}"
  }

  // ---------------------------------------------------------------- state

  datatype CallerPhase =
    | Arrived
    | Looked(hit: Option<Record>)
    | Joining
    | Waiting(call: nat, joinedAt: nat)
    | Served(response: Response)
    | Received(response: Response, from: nat, joinedAt: nat)
    | Canceled(response: Response)

  datatype Caller = Caller(raw: string, force: bool, url: string, key: string, phase: CallerPhase)

  datatype CallPhase =
    | Begun
    | Read(hit: Option<Record>)
    | Ready(hit: Option<Record>, now: int)
    | Fetching(hit: Option<Record>, now: int)
    | Storing(record: Record, response: Response)
    | Returning(response: Response)
    | Closed(response: Response, closedAt: nat)

  datatype Call = Call(url: string, key: string, force: bool, phase: CallPhase)

  datatype RefreshPhase =
    | Started
    | Loaded(record: Record, url: string)
    | Requesting(record: Record, url: string, now: int)
    | Saving(outcome: RefreshOutcome)
    | Ending
    | Ended

  datatype Origin = ByKey(key: string) | ByRequest(raw: string)

  datatype Refresher = Refresher(key: string, url: Option<string>, phase: RefreshPhase)

  datatype Counters = Counters(
    hits: nat, misses: nat, requests: nat, errors: nat,
    updated: nat, notMod: nat, skipped: nat, failed: nat,
    processed: nat, detached: nat, deduplicated: nat)

  datatype State = State(
    clock: int,
    steps: nat,
    store: map<string, Record>,
    callers: map<nat, Caller>,
    calls: map<nat, Call>,
    inFlight: map<string, nat>,
    refreshers: map<nat, Refresher>,
    refreshing: set<string>,
    counters: Counters,
    activity: seq<(string, int)>)

  function Lookup(s: State, key: string): Option<Record> {
    if key in s.store then Some(s.store[key]) else None
  }

  predicate Initial(s: State) {
    s.clock > 0 && s.steps == 0 && s.store == map[] && s.callers == map[] && s.calls == map[] &&
    s.inFlight == map[] && s.refreshers == map[] && s.refreshing == {} &&
    s.counters == Counters(0, 0, 0, 0, 0, 0, 0, 0, 0, 0, 0) && s.activity == []
  }

  // ---------------------------------------------------------------- steps

  datatype CallerOp = CacheLookup | Decide | JoinCall(newCall: nat) | ReceiveResponse | Cancel

  datatype CallOp = LookupRecord | DecideFetch | Send | Finish(answer: Answer) | Store | Close

  datatype RefreshOp = LoadRecord | SendConditional | FinishRefresh(reply: Answer) | Save | Done

  datatype Step =
    | Tick(elapsed: nat)
    | Evict(keys: set<string>)
    | Arrive(id: nat, raw: string, force: bool)
    | OfCaller(id: nat, callerOp: CallerOp)
    | OfCall(id: nat, callOp: CallOp)
    | StartRefresh(id: nat, origin: Origin)
    | OfRefresher(id: nat, refreshOp: RefreshOp)

  /** What the upstream may answer at a moment to a request for `url` that carries `etag`. */
  predicate Possible(env: Env, url: string, etag: string, moment: int, answer: Answer) {
    var current := env.upstream(url, moment);
    answer.Replied? ==>
      || answer.reply == current
      || (answer.reply.status == 304 &&
          (env.strict304 ==> etag != "" && current.status == 200 && current.etag == etag))
  }

  // ---- callers: `handle` with coalescing

  function ArriveNext(env: Env, now: int, raw: string, force: bool): Caller {
    match env.prepare(raw)
    case Invalid(detail) =>
      Caller(raw, force, "", "", Served(Response(400, InvalidParameter(detail), BYPASS, "", 0, now)))
    case Prepared(url, key) =>
      Caller(raw, force, url, key, Arrived)
  }

  predicate CallerEnabled(s: State, c: Caller, op: CallerOp) {
    match op
    case CacheLookup => c.phase.Arrived?
    case Decide => c.phase.Looked?
    case JoinCall(newCall) => c.phase.Joining? && newCall !in s.calls
    case ReceiveResponse => c.phase.Waiting? && c.phase.call in s.calls && s.calls[c.phase.call].phase.Closed?
    case Cancel => c.phase.Waiting?
  }

  function CallerNext(env: Env, s: State, c: Caller, op: CallerOp): CallerPhase
    requires CallerEnabled(s, c, op)
  {
    match op
    case CacheLookup => Looked(Lookup(s, c.key))
    case Decide =>
      var fast := FastPath(env, c.key, c.force, c.phase.hit, s.clock);
      if fast.Some? then Served(fast.value) else Joining
    case JoinCall(newCall) =>
      Waiting(if c.key in s.inFlight then s.inFlight[c.key] else newCall, s.steps)
    case ReceiveResponse =>
      Received(s.calls[c.phase.call].phase.response, c.phase.call, c.phase.joinedAt)
    case Cancel => Canceled(Response(504, RequestCanceled, BYPASS, c.key, 0, s.clock))
  }

  /** A caller that finds no call of its key in flight leads a new one. */
  predicate Leads(s: State, c: Caller, op: CallerOp) {
    op.JoinCall? && c.key !in s.inFlight
  }

  function CallerEffect(env: Env, s: State, id: nat, op: CallerOp): State
    requires id in s.callers && CallerEnabled(s, s.callers[id], op)
  {
    var c := s.callers[id];
    var phase := CallerNext(env, s, c, op);
    s.(callers := s.callers[id := c.(phase := phase)],
       calls := if Leads(s, c, op) then s.calls[op.newCall := Call(c.url, c.key, c.force, Begun)] else s.calls,
       inFlight := if Leads(s, c, op) then s.inFlight[c.key := op.newCall] else s.inFlight,
       counters := if phase.Served? then s.counters.(hits := s.counters.hits + 1) else s.counters,
       activity := if phase.Served? then s.activity + [(c.key, s.clock)] else s.activity)
  }

  // ---- calls: `handle` without coalescing, then publication

  predicate CallEnabled(env: Env, s: State, c: Call, op: CallOp) {
    match op
    case LookupRecord => c.phase.Begun?
    case DecideFetch => c.phase.Read?
    case Send => c.phase.Ready?
    case Finish(answer) => c.phase.Fetching? && Possible(env, c.url, IfNoneMatch(c.phase.hit), s.clock, answer)
    case Store => c.phase.Storing?
    case Close => c.phase.Returning?
  }

  function CallNext(env: Env, s: State, c: Call, op: CallOp): CallPhase
    requires CallEnabled(env, s, c, op)
  {
    match op
    case LookupRecord => Read(Lookup(s, c.key))
    case DecideFetch =>
      var fast := FastPath(env, c.key, c.force, c.phase.hit, s.clock);
      if fast.Some? then Returning(fast.value) else Ready(c.phase.hit, s.clock)
    case Send => Fetching(c.phase.hit, c.phase.now)
    case Finish(answer) =>
      var outcome := Receive(env, c.key, c.url, c.force, c.phase.hit, c.phase.now, answer);
      if outcome.write.Some? then Storing(outcome.write.value, outcome.response) else Returning(outcome.response)
    case Store => Returning(c.phase.response)
    case Close => Closed(c.phase.response, s.steps)
  }

  function CallCount(env: Env, s: State, c: Call, op: CallOp): Counters
    requires CallEnabled(env, s, c, op)
  {
    var n := s.counters;
    match op
    case DecideFetch => if CallNext(env, s, c, op).Returning? then n.(hits := n.hits + 1) else n
    case Send => n.(misses := n.misses + 1, requests := n.requests + 1)
    case Finish(answer) => if CountsAsError(answer) then n.(errors := n.errors + 1) else n
    case _ => n
  }

  /** What a call reports to the activity tracker. */
  function CallActivity(env: Env, s: State, c: Call, op: CallOp): seq<(string, int)>
    requires CallEnabled(env, s, c, op)
  {
    match op
    case DecideFetch => if CallNext(env, s, c, op).Returning? then [(c.key, s.clock)] else []
    case Finish(answer) =>
      var outcome := Receive(env, c.key, c.url, c.force, c.phase.hit, c.phase.now, answer);
      if ReportsActivity(c.phase.hit, outcome) then [(c.key, c.phase.now)] else []
    case _ => []
  }

  function CallEffect(env: Env, s: State, id: nat, op: CallOp): State
    requires id in s.calls && CallEnabled(env, s, s.calls[id], op)
  {
    var c := s.calls[id];
    s.(calls := s.calls[id := c.(phase := CallNext(env, s, c, op))],
       store := if op.Store? then s.store[c.key := c.phase.record] else s.store,
       inFlight := if op.Close? then s.inFlight - {c.key} else s.inFlight,
       counters := CallCount(env, s, c, op),
       activity := s.activity + CallActivity(env, s, c, op))
  }

  // ---- refreshers: `RefreshByKey` and `RefreshInBackground`

  /** The key and, for a request, the validated URL that a refresh is asked for. */
  function Target(env: Env, origin: Origin): (string, Option<string>) {
    match origin
    case ByKey(key) => (key, None)
    case ByRequest(raw) =>
      match env.prepare(raw)
      case Invalid(_) => ("", None)
      case Prepared(url, key) => (key, Some(url))
  }

  /** The locked part of `backgroundRefreshGroup`: start the refresh unless one runs for the key. */
  function StartEffect(env: Env, s: State, id: nat, origin: Origin): State {
    var (key, url) := Target(env, origin);
    if key == "" then
      s
    else if key in s.refreshing then
      if origin.ByKey? then
        s.(counters := s.counters.(processed := s.counters.processed + 1,
                                   deduplicated := s.counters.deduplicated + 1))
      else
        s
    else
      s.(refreshers := s.refreshers[id := Refresher(key, url, Started)],
         refreshing := s.refreshing + {key})
  }

  predicate RefreshEnabled(env: Env, s: State, r: Refresher, op: RefreshOp) {
    match op
    case LoadRecord => r.phase.Started?
    case SendConditional => r.phase.Loaded?
    case FinishRefresh(answer) =>
      r.phase.Requesting? && Possible(env, r.phase.url, r.phase.record.etag, s.clock, answer)
    case Save => r.phase.Saving? && !r.phase.outcome.Failed?
    case Done => r.phase.Ending?
  }

  function RefreshNext(env: Env, s: State, r: Refresher, op: RefreshOp): RefreshPhase
    requires RefreshEnabled(env, s, r, op)
  {
    match op
    case LoadRecord =>
      var found := Lookup(s, r.key);
      if found.None? || (r.url.None? && Blank(found.value.url))
         || IsNegativeCacheableStatus(found.value.sourceStatus) then
        Ending
      else
        Loaded(found.value, if r.url.Some? then r.url.value else found.value.url)
    case SendConditional => Requesting(r.phase.record, r.phase.url, s.clock)
    case FinishRefresh(answer) =>
      var outcome := RefreshReceive(env, r.phase.record, r.phase.url, r.phase.now, answer);
      if outcome.Failed? then Ending else Saving(outcome)
    case Save => Ending
    case Done => Ended
  }

  function RefreshCount(env: Env, s: State, r: Refresher, op: RefreshOp): Counters
    requires RefreshEnabled(env, s, r, op)
  {
    var n := s.counters;
    match op
    case LoadRecord => if RefreshNext(env, s, r, op).Ending? then n.(skipped := n.skipped + 1) else n
    case SendConditional => n.(requests := n.requests + 1)
    case FinishRefresh(answer) =>
      var m := if CountsAsError(answer) then n.(errors := n.errors + 1) else n;
      if RefreshNext(env, s, r, op).Ending? then m.(failed := m.failed + 1) else m
    case Save =>
      if r.phase.outcome.NotModified? then n.(notMod := n.notMod + 1) else n.(updated := n.updated + 1)
    case Done =>
      if r.url.None? then n.(processed := n.processed + 1) else n.(detached := n.detached + 1)
  }

  function RefreshEffect(env: Env, s: State, id: nat, op: RefreshOp): State
    requires id in s.refreshers && RefreshEnabled(env, s, s.refreshers[id], op)
  {
    var r := s.refreshers[id];
    s.(refreshers := s.refreshers[id := r.(phase := RefreshNext(env, s, r, op))],
       store := if op.Save? then s.store[r.key := r.phase.outcome.record] else s.store,
       refreshing := if op.Done? then s.refreshing - {r.key} else s.refreshing,
       counters := RefreshCount(env, s, r, op))
  }

  // ---- all together

  predicate Enabled(env: Env, s: State, step: Step) {
    match step
    case Tick(_) => true
    case Evict(_) => true
    case Arrive(id, _, _) => id !in s.callers
    case OfCaller(id, op) => id in s.callers && CallerEnabled(s, s.callers[id], op)
    case OfCall(id, op) => id in s.calls && CallEnabled(env, s, s.calls[id], op)
    case StartRefresh(id, _) => id !in s.refreshers
    case OfRefresher(id, op) => id in s.refreshers && RefreshEnabled(env, s, s.refreshers[id], op)
  }

  function Effect(env: Env, s: State, step: Step): State
    requires Enabled(env, s, step)
  {
    match step
    case Tick(elapsed) => s.(clock := s.clock + elapsed)
    case Evict(keys) => s.(store := s.store - keys)
    case Arrive(id, raw, force) => s.(callers := s.callers[id := ArriveNext(env, s.clock, raw, force)])
    case OfCaller(id, op) => CallerEffect(env, s, id, op)
    case OfCall(id, op) => CallEffect(env, s, id, op)
    case StartRefresh(id, origin) => StartEffect(env, s, id, origin)
    case OfRefresher(id, op) => RefreshEffect(env, s, id, op)
  }

  function Next(env: Env, s: State, step: Step): State
    requires Enabled(env, s, step)
  {
    Effect(env, s, step).(steps := s.steps + 1)
  }

  /** The state after a run of steps, or None when some step was not enabled. */
  function Execute(env: Env, init: State, run: seq<Step>): Option<State> {
    if run == [] then
      Some(init)
    else
      match Execute(env, init, run[..|run| - 1])
      case Some(before) =>
        if Enabled(env, before, run[|run| - 1]) then Some(Next(env, before, run[|run| - 1])) else None
      case None => None
  }

  /** The run leads from the initial state `init` to `s`. */
  predicate Reaches(env: Env, init: State, run: seq<Step>, s: State) {
    Initial(init) && Execute(env, init, run) == Some(s)
  }
}
