/**
  What the service reports to the activity tracker, and what the scheduler makes of it.
 */
module Activity {
  import opened Records
  import opened VersionService
  import opened Exchanges
  import opened Coalescing
  import ActivityTracker

  /** Exactly when an exchange is reported: for a key that was cached, forced or not, if it ends with a
      304 for the cached record; for one that was not, if its answer is stored. */
  lemma ExchangeIsReportedIff(
    env: Env, key: string, url: string, force: bool, hit: Option<Record>, now: int, answer: Answer)
    ensures ReportsActivity(hit, Receive(env, key, url, force, hit, now, answer)) <==>
            && answer.Replied?
            && var reply := answer.reply;
               if hit.Some? then
                 && reply.status == 304 && hit.value.etag != ""
                 && hit.value.sourceStatus != 404 && hit.value.sourceStatus != 410
               else
                 || reply.status == 404 || reply.status == 410
                 || (reply.status == 200 && Readable(env, reply.body) && env.jsonValid(reply.body.value))
  {
    hide Receive;
    ReceiveEnds(env, key, url, force, hit, now, answer);
  }

  /** Answers that the cache gave or that a 304 confirmed. */
  predicate FromCache(response: Response) {
    response.cacheStatus == HIT || response.cacheStatus == REVALIDATED
  }

  predicate IsReported(response: Response, key: string, activity: seq<(string, int)>) {
    FromCache(response) ==> (key, response.at) in activity
  }

  predicate CallerIsReported(c: Caller, activity: seq<(string, int)>) {
    c.phase.Served? ==> IsReported(c.phase.response, c.key, activity)
  }

  predicate CallIsReported(c: Call, activity: seq<(string, int)>) {
    match c.phase
    case Storing(_, response) => IsReported(response, c.key, activity)
    case Returning(response) => IsReported(response, c.key, activity)
    case Closed(response, _) => IsReported(response, c.key, activity)
    case _ => true
  }

  ghost predicate AllReported(s: State) {
    && (forall id <- s.callers :: CallerIsReported(s.callers[id], s.activity))
    && (forall id <- s.calls :: CallIsReported(s.calls[id], s.activity))
  }

  lemma CallerReports(env: Env, s: State, id: nat, op: CallerOp)
    requires id in s.callers && CallerEnabled(s, s.callers[id], op)
    ensures var s' := CallerEffect(env, s, id, op);
            CallerIsReported(s.callers[id], s.activity) ==> CallerIsReported(s'.callers[id], s'.activity)
  {
  }

  lemma CallReports(env: Env, s: State, id: nat, op: CallOp)
    requires id in s.calls && CallEnabled(env, s, s.calls[id], op) && CallIsReported(s.calls[id], s.activity)
    ensures var s' := CallEffect(env, s, id, op); CallIsReported(s'.calls[id], s'.activity)
  {
    hide Possible, ErrorMessage, ReadBoundedBody, CallCount;
  }

  lemma CallersStayReported(callers: map<nat, Caller>, activity: seq<(string, int)>, more: seq<(string, int)>)
    requires forall id <- callers :: CallerIsReported(callers[id], activity)
    ensures forall id <- callers :: CallerIsReported(callers[id], activity + more)
  {
  }

  lemma CallsStayReported(calls: map<nat, Call>, activity: seq<(string, int)>, more: seq<(string, int)>)
    requires forall id <- calls :: CallIsReported(calls[id], activity)
    ensures forall id <- calls :: CallIsReported(calls[id], activity + more)
  {
  }

  lemma ReportedByCaller(env: Env, s: State, id: nat, op: CallerOp)
    requires AllReported(s) && id in s.callers && CallerEnabled(s, s.callers[id], op)
    ensures AllReported(CallerEffect(env, s, id, op))
  {
    hide CallerIsReported, CallIsReported, CallerNext;
    var s' := CallerEffect(env, s, id, op);
    var more := s'.activity[|s.activity|..];
    CallersStayReported(s.callers, s.activity, more);
    CallsStayReported(s.calls, s.activity, more);
    assert s'.activity == s.activity + more;
    CallerReports(env, s, id, op);
    BegunIsReported(Call(s.callers[id].url, s.callers[id].key, s.callers[id].force, Begun), s'.activity);
  }

  lemma BegunIsReported(c: Call, activity: seq<(string, int)>)
    requires c.phase.Begun?
    ensures CallIsReported(c, activity)
  {
  }

  lemma ReportedByCall(env: Env, s: State, id: nat, op: CallOp)
    requires AllReported(s) && id in s.calls && CallEnabled(env, s, s.calls[id], op)
    ensures AllReported(CallEffect(env, s, id, op))
  {
    hide CallerIsReported, CallIsReported, CallNext, CallActivity, CallCount;
    var more := CallActivity(env, s, s.calls[id], op);
    CallersStayReported(s.callers, s.activity, more);
    CallsStayReported(s.calls, s.activity, more);
    CallReports(env, s, id, op);
  }

  lemma ArrivalIsReported(env: Env, now: int, raw: string, force: bool, activity: seq<(string, int)>)
    ensures CallerIsReported(ArriveNext(env, now, raw, force), activity)
  {
  }

  lemma ReportedStep(env: Env, s: State, step: Step)
    requires AllReported(s) && Enabled(env, s, step)
    ensures AllReported(Next(env, s, step))
  {
    hide CallerIsReported, CallIsReported, CallEffect, CallerEffect, ArriveNext, Target, RefreshNext, RefreshCount;
    match step {
      case OfCaller(id, op) => ReportedByCaller(env, s, id, op);
      case OfCall(id, op) => ReportedByCall(env, s, id, op);
      case Arrive(id, raw, force) => ArrivalIsReported(env, s.clock, raw, force, s.activity);
      case _ =>
    }
  }

  lemma {:induction false} ReportedAlways(env: Env, init: State, run: seq<Step>, s: State)
    requires Reaches(env, init, run, s)
    ensures AllReported(s)
  {
    hide AllReported, Next, Enabled;
    if run == [] {
      NobodyIsReported(init);
    } else {
      var before := Execute(env, init, run[..|run| - 1]).value;
      ReportedAlways(env, init, run[..|run| - 1], before);
      ReportedStep(env, before, run[|run| - 1]);
    }
  }

  lemma NobodyIsReported(s: State)
    requires Initial(s)
    ensures AllReported(s)
  {
  }

  function Hits(activity: seq<(string, int)>): seq<ActivityTracker.TrackerOp> {
    seq(|activity|, i requires 0 <= i < |activity| => ActivityTracker.Hit(activity[i].0, activity[i].1))
  }

  /** Every key that a client was answered from the cache, or after a 304, is a candidate of every later
      sweep that looks back far enough, whatever prunes, that do not look further, come in between. */
  lemma {:induction false} AnsweredKeysAreCandidates(
    env: Env, init: State, run: seq<Step>, s: State, id: nat, ops: seq<ActivityTracker.TrackerOp>, since: int)
    requires Reaches(env, init, run, s) && id in s.callers && s.callers[id].key != ""
    requires s.callers[id].phase.Served? || s.callers[id].phase.Received?
    requires FromCache(s.callers[id].phase.response) && since <= s.callers[id].phase.response.at
    requires ActivityTracker.HitsOnly(ops) == Hits(s.activity)
    requires forall op <- ops :: op.Prune? ==> op.cutoff <= since
    ensures s.callers[id].key in ActivityTracker.ActiveKeys(ActivityTracker.Track(ops), since, 0)
  {
    hide Execute, Protocol, ActivityTracker.ActiveKeys, ActivityTracker.Track, ActivityTracker.HitsOnly;
    ReportedAlways(env, init, run, s);
    ProtocolHolds(env, init, run, s);
    var c := s.callers[id];
    Reported(s, id);
    var i :| 0 <= i < |s.activity| && s.activity[i] == (c.key, c.phase.response.at);
    var hits := Hits(s.activity);
    assert hits[i] == ActivityTracker.Hit(c.key, c.phase.response.at);
    ActivityTracker.TracksLatest(hits);
    ActivityTracker.PruningIsInvisible(ops, since, 0);
    ActivityTracker.ActiveKeysFacts(ActivityTracker.Track(hits), since);
  }

  lemma Reported(s: State, id: nat)
    requires AllReported(s) && Protocol(s) && id in s.callers
    requires s.callers[id].phase.Served? || s.callers[id].phase.Received?
    ensures IsReported(s.callers[id].phase.response, s.callers[id].key, s.activity)
  {
    hide InFlightIsUnfinished, RefreshingIsRunning;
    assert CallerIsReported(s.callers[id], s.activity) && IsServed(s.callers[id], s.calls, s.steps);
    if s.callers[id].phase.Received? {
      assert CallIsReported(s.calls[s.callers[id].phase.from], s.activity);
    }
  }
}
