/**
  What a forced refresh can get by joining a call: exactly when it is answered from the cache.
 */
module Followers {
  import opened Records
  import opened VersionService
  import opened Runs
  import opened Coalescing
  import opened Provenance
  import opened Freshness
  import opened Cooperation

  /** The call has answered from the cache. */
  predicate HasHit(c: Call) {
    match c.phase
    case Returning(response) => response.cacheStatus == HIT
    case Closed(response, _) => response.cacheStatus == HIT
    case _ => false
  }

  /** The call has not looked at the cache for good, and may answer from it. */
  predicate Undecided(c: Call) {
    !c.force && (c.phase.Begun? || c.phase.Read?)
  }

  /** The call does not answer from the cache any more. */
  predicate CannotHit(c: Call) {
    match c.phase
    case Begun => c.force
    case Read(_) => c.force
    case Ready(_, _) => true
    case Fetching(_, _) => true
    case Storing(_, response) => response.cacheStatus != HIT
    case Returning(response) => response.cacheStatus != HIT
    case Closed(response, _) => response.cacheStatus != HIT
  }

  lemma ReceiveIsNoHit(env: Env, c: Call, hit: Option<Record>, now: int, answer: Answer)
    ensures Receive(env, c.key, c.url, c.force, hit, now, answer).response.cacheStatus != HIT
  {
  }

  lemma FastPathIsHit(env: Env, key: string, force: bool, hit: Option<Record>, now: int)
    ensures var served := FastPath(env, key, force, hit, now);
            served.Some? ==> !force && served.value.cacheStatus == HIT
  {
  }

  /** Whether a call answers from the cache is settled in the one step in which it decides. */
  lemma SettledOnce(env: Env, s: State, step: Step, id: nat)
    requires Enabled(env, s, step) && id in s.calls
    ensures var s' := Next(env, s, step);
            && id in s'.calls && s'.calls[id].force == s.calls[id].force && s'.calls[id].key == s.calls[id].key
            && (HasHit(s.calls[id]) ==> HasHit(s'.calls[id]))
            && (CannotHit(s.calls[id]) ==> CannotHit(s'.calls[id]))
            && (Undecided(s.calls[id]) && step != OfCall(id, DecideFetch) ==> Undecided(s'.calls[id]))
            && (Undecided(s.calls[id]) && step == OfCall(id, DecideFetch) ==>
                  var c := s.calls[id];
                  if FastPath(env, c.key, false, c.phase.hit, s.clock).Some? then HasHit(s'.calls[id])
                  else CannotHit(s'.calls[id]))
  {
    hide FastPath, Receive, Possible, CallerNext, CallCount, CallActivity, RefreshNext, RefreshCount, Target,
         ArriveNext;
    if step.OfCall? {
      var c := s.calls[step.id];
      match step.callOp
      case DecideFetch => FastPathIsHit(env, c.key, c.force, c.phase.hit, s.clock);
      case Finish(answer) => ReceiveIsNoHit(env, c, c.phase.hit, c.phase.now, answer);
      case _ =>
    }
  }

  lemma {:induction false} StaysSettled(env: Env, s: State, more: seq<Step>, t: State, id: nat)
    requires Execute(env, s, more) == Some(t) && id in s.calls
    ensures id in t.calls && t.calls[id].force == s.calls[id].force
    ensures HasHit(s.calls[id]) ==> HasHit(t.calls[id])
    ensures CannotHit(s.calls[id]) ==> CannotHit(t.calls[id])
  {
    hide HasHit, CannotHit, Undecided, Next, Enabled;
    if more != [] {
      var before := Before(env, s, more, t);
      StaysSettled(env, s, more[..|more| - 1], before, id);
      SettledOnce(env, before, more[|more| - 1], id);
    }
  }

  /** The run takes the deciding step of the call at this position, in this state. */
  ghost predicate DecidesAt(env: Env, s: State, more: seq<Step>, id: nat, i: nat, at: State) {
    && i < |more| && more[i] == OfCall(id, DecideFetch)
    && Execute(env, s, more[..i]) == Some(at)
    && id in at.calls && at.calls[id].phase.Read?
  }

  /** A call that was undecided and is so no more has decided in between, by what it had read. */
  lemma {:induction false} DecidesInBetween(env: Env, s: State, more: seq<Step>, t: State, id: nat)
    returns (i: nat, at: State)
    requires Execute(env, s, more) == Some(t) && id in s.calls && Undecided(s.calls[id])
    ensures id in t.calls
    ensures Undecided(t.calls[id]) ||
            (DecidesAt(env, s, more, id, i, at) &&
             var c := at.calls[id];
             if FastPath(env, c.key, false, c.phase.hit, at.clock).Some? then HasHit(t.calls[id])
             else CannotHit(t.calls[id]))
  {
    hide HasHit, CannotHit, Undecided, Next, FastPath;
    i, at := 0, s;
    if more != [] {
      var last := |more| - 1;
      var before := Before(env, s, more, t);
      i, at := DecidesInBetween(env, s, more[..last], before, id);
      SettledOnce(env, before, more[last], id);
      if Undecided(before.calls[id]) {
        i, at := last, before;
      } else {
        assert more[..last][..i] == more[..i];
      }
    }
  }

  /** In a reachable state, what a caller received is a hit exactly when its call answered from the cache. */
  lemma ReceivesTheHit(env: Env, init: State, run: seq<Step>, t: State, id: nat, call: nat)
    requires Reaches(env, init, run, t)
    requires id in t.callers && JoinedTo(t.callers[id], call) && t.callers[id].phase.Received?
    ensures call in t.calls && (t.callers[id].phase.response.cacheStatus == HIT <==> HasHit(t.calls[call]))
    ensures !Undecided(t.calls[call])
  {
    hide InFlightIsUnfinished, RefreshingIsRunning;
    ProtocolHolds(env, init, run, t);
    assert IsServed(t.callers[id], t.calls, t.steps);
  }

  /** A reachable call answers from the cache, cannot, or is undecided. */
  lemma ThreeCases(env: Env, init: State, run: seq<Step>, s: State, call: nat)
    requires Reaches(env, init, run, s) && call in s.calls
    ensures HasHit(s.calls[call]) || CannotHit(s.calls[call]) || Undecided(s.calls[call])
    ensures s.calls[call].force ==> CannotHit(s.calls[call])
    ensures !(HasHit(s.calls[call]) && CannotHit(s.calls[call]))
  {
    hide ResponseOk, RecordOk;
    ProvenanceHolds(env, init, run, s);
    assert CallOk(env, s.calls[call], s.clock);
  }

  // ---------------------------------------------------------------- the exact condition

  /** Some step of the run is the deciding one of the call, and what the call had read by then is
      a live record. */
  ghost predicate DecidesOnLiveRecord(env: Env, s: State, more: seq<Step>, id: nat) {
    exists i, at :: DecidesAt(env, s, more, id, i, at) && Live(env, at.calls[id].phase.hit, at.clock)
  }

  /** A call decides at most once in a run. */
  lemma {:induction false} DecidesOnce(env: Env, s: State, more: seq<Step>, id: nat, i: nat, a: State, j: nat, b: State)
    requires DecidesAt(env, s, more, id, i, a) && DecidesAt(env, s, more, id, j, b) && i <= j
    ensures i == j && a == b
  {
    if i < j {
      var step := OfCall(id, DecideFetch);
      assert more[..i + 1] == more[..i] + [step] && more[..j] == more[..i + 1] + more[i + 1..j];
      Suffix(env, s, more[..i + 1], more[i + 1..j], b);
      var t := Execute(env, s, more[..i + 1]).value;
      assert more[..i + 1][..i] == more[..i];
      assert Enabled(env, a, step) && t == Next(env, a, step);
      RanksAfterDeciding(env, a, id);
      StaysDecided(env, t, more[i + 1..j], b, id);
    }
  }

  predicate Decided(c: Call) {
    !c.phase.Begun? && !c.phase.Read?
  }

  lemma RanksAfterDeciding(env: Env, a: State, id: nat)
    requires Enabled(env, a, OfCall(id, DecideFetch))
    ensures var t := Next(env, a, OfCall(id, DecideFetch)); id in t.calls && Decided(t.calls[id])
  {
    hide FastPath;
  }

  lemma {:induction false} StaysDecided(env: Env, s: State, more: seq<Step>, t: State, id: nat)
    requires Execute(env, s, more) == Some(t) && id in s.calls && Decided(s.calls[id])
    ensures id in t.calls && Decided(t.calls[id])
  {
    hide Next, Enabled, Decided;
    if more != [] {
      var before := Before(env, s, more, t);
      StaysDecided(env, s, more[..|more| - 1], before, id);
      StaysDecidedStep(env, before, more[|more| - 1], id);
    }
  }

  lemma StaysDecidedStep(env: Env, s: State, step: Step, id: nat)
    requires Enabled(env, s, step) && id in s.calls && Decided(s.calls[id])
    ensures var s' := Next(env, s, step); id in s'.calls && Decided(s'.calls[id])
  {
    hide FastPath, Receive, Possible, CallerNext, CallCount, CallActivity, RefreshNext, RefreshCount, Target,
         ArriveNext;
  }

  lemma {:induction false} Suffix(env: Env, s: State, front: seq<Step>, back: seq<Step>, t: State)
    requires Execute(env, s, front + back) == Some(t)
    ensures Execute(env, s, front).Some? && Execute(env, Execute(env, s, front).value, back) == Some(t)
  {
    if back == [] {
      assert front + back == front;
    } else {
      var last := |front + back| - 1;
      assert (front + back)[..last] == front + back[..|back| - 1] && (front + back)[last] == back[|back| - 1];
      Suffix(env, s, front, back[..|back| - 1], Execute(env, s, front + back[..|back| - 1]).value);
    }
  }

  /** What was read is known to be sound where the call decides, so deciding means finding a live record. */
  lemma DecidesByLiveness(env: Env, init: State, run: seq<Step>, at: State, id: nat)
    requires Reaches(env, init, run, at) && id in at.calls && at.calls[id].phase.Read?
    ensures var c := at.calls[id];
            FastPath(env, c.key, false, c.phase.hit, at.clock).Some? <==> Live(env, c.phase.hit, at.clock)
  {
    hide FastPath, Live, RecordOk;
    ProvenanceHolds(env, init, run, at);
    var c := at.calls[id];
    assert CallOk(env, c, at.clock);
    LiveIff(env, c.key, false, c.phase.hit, at.clock, at.clock);
  }

  lemma {:induction false} UndecidedHitsIff(
    env: Env, init: State, run: seq<Step>, s: State, more: seq<Step>, t: State, call: nat)
    requires Reaches(env, init, run, s) && Execute(env, s, more) == Some(t)
    requires call in s.calls && Undecided(s.calls[call]) && call in t.calls && !Undecided(t.calls[call])
    ensures HasHit(t.calls[call]) <==> DecidesOnLiveRecord(env, s, more, call)
  {
    hide Execute, HasHit, CannotHit, Undecided, FastPath, Live;
    var i, at := DecidesInBetween(env, s, more, t, call);
    Compose(env, init, run, s, more[..i], at);
    DecidesByLiveness(env, init, run + more[..i], at, call);
    Compose(env, init, run, s, more, t);
    ThreeCases(env, init, run + more, t, call);
    if j, other :| DecidesAt(env, s, more, call, j, other) && Live(env, other.calls[call].phase.hit, other.clock) {
      if i <= j {
        DecidesOnce(env, s, more, call, i, at, j, other);
      } else {
        DecidesOnce(env, s, more, call, j, other, i, at);
      }
    }
  }

  /** When a forced refresh joins, its fate is clear.  If it leads a call of its own, or the call that
      it joins is forced or is past the point where it could answer from the cache, it never gets a
      hit.  If the call has answered from the cache already, a hit is all it can get.  Otherwise it gets
      a hit exactly if the call, where it decides, has read a live record. */
  lemma {:induction false} ForcedRefreshHitsIff(
    env: Env, init: State, run: seq<Step>, before: State, id: nat, newCall: nat, more: seq<Step>, t: State)
    requires Reaches(env, init, run, before) && Enabled(env, before, OfCaller(id, JoinCall(newCall)))
    requires before.callers[id].force
    requires Execute(env, Next(env, before, OfCaller(id, JoinCall(newCall))), more) == Some(t)
    requires id in t.callers && t.callers[id].phase.Received?
    ensures var key, s := before.callers[id].key, Next(env, before, OfCaller(id, JoinCall(newCall)));
            var hits := t.callers[id].phase.response.cacheStatus == HIT;
            if key !in before.inFlight then
              !hits
            else
              before.inFlight[key] in before.calls &&
              var call := before.calls[before.inFlight[key]];
              if CannotHit(call) then !hits
              else if HasHit(call) then hits
              else Undecided(call) && (hits <==> DecidesOnLiveRecord(env, s, more, before.inFlight[key]))
    ensures var key := before.callers[id].key;
            key in before.inFlight && before.calls[before.inFlight[key]].force ==>
              CannotHit(before.calls[before.inFlight[key]])
  {
    hide Execute, HasHit, CannotHit, Undecided, FastPath, Protocol, CallEffect, RefreshEffect, StartEffect,
         RefreshEnabled, CallEnabled;
    var step := OfCaller(id, JoinCall(newCall));
    var key, s := before.callers[id].key, Next(env, before, step);
    var call := if key in before.inFlight then before.inFlight[key] else newCall;
    JoinsInFlight(env, init, run, before, key);
    Append(env, init, run, before, step);
    Compose(env, init, run + [step], s, more, t);
    assert s.callers[id].phase == Waiting(call, before.steps);
    StaysJoined(env, s, more, t, id, call);
    ReceivesTheHit(env, init, run + [step] + more, t, id, call);
    StaysSettled(env, s, more, t, call);
    ThreeCases(env, init, run + [step], s, call);
    ThreeCases(env, init, run + [step] + more, t, call);
    if Undecided(s.calls[call]) {
      UndecidedHitsIff(env, init, run + [step], s, more, t, call);
    }
  }

  // ---------------------------------------------------------------- responses from before the join

  /** The call has its response already. */
  predicate Settled(c: Call) {
    c.phase.Storing? || c.phase.Returning? || c.phase.Closed?
  }

  function ResponseOf(c: Call): Response
    requires Settled(c)
  {
    c.phase.response
  }

  /** At this position of the run the call gets its response, from the cache or from the upstream. */
  ghost predicate SettlesAt(env: Env, s: State, more: seq<Step>, id: nat, i: nat) {
    && i < |more| && more[i].OfCall? && more[i].id == id && (more[i].callOp.DecideFetch? || more[i].callOp.Finish?)
    && Execute(env, s, more[..i]).Some? && Execute(env, s, more[..i + 1]).Some?
    && id in Execute(env, s, more[..i]).value.calls && !Settled(Execute(env, s, more[..i]).value.calls[id])
    && id in Execute(env, s, more[..i + 1]).value.calls && Settled(Execute(env, s, more[..i + 1]).value.calls[id])
  }

  lemma SettledStep(env: Env, s: State, step: Step, id: nat)
    requires Enabled(env, s, step) && id in s.calls
    ensures var t := Next(env, s, step);
            && id in t.calls
            && (Settled(s.calls[id]) ==> Settled(t.calls[id]) && ResponseOf(t.calls[id]) == ResponseOf(s.calls[id]))
            && (!Settled(s.calls[id]) && Settled(t.calls[id]) ==>
                  step.OfCall? && step.id == id && (step.callOp.DecideFetch? || step.callOp.Finish?))
  {
    hide FastPath, Receive, Possible, CallerNext, CallCount, CallActivity, RefreshNext, RefreshCount, Target,
         ArriveNext;
  }

  lemma {:induction false} StaysSettledWith(env: Env, s: State, more: seq<Step>, t: State, id: nat)
    requires Execute(env, s, more) == Some(t) && id in s.calls
    ensures id in t.calls
    ensures Settled(s.calls[id]) ==> Settled(t.calls[id]) && ResponseOf(t.calls[id]) == ResponseOf(s.calls[id])
  {
    hide Next, Enabled, Settled, ResponseOf;
    if more != [] {
      var before := Before(env, s, more, t);
      StaysSettledWith(env, s, more[..|more| - 1], before, id);
      SettledStep(env, before, more[|more| - 1], id);
    }
  }

  lemma {:induction false} SettlesInBetween(env: Env, s: State, more: seq<Step>, t: State, id: nat) returns (i: nat)
    requires Execute(env, s, more) == Some(t) && id in s.calls && !Settled(s.calls[id])
    requires id in t.calls && Settled(t.calls[id])
    ensures SettlesAt(env, s, more, id, i)
  {
    hide Next, Enabled, Settled;
    var last := |more| - 1;
    var before := Before(env, s, more, t);
    StaysSettledWith(env, s, more[..last], before, id);
    SettledStep(env, before, more[last], id);
    if Settled(before.calls[id]) {
      i := SettlesInBetween(env, s, more[..last], before, id);
      assert more[..last][..i] == more[..i] && more[..last][..i + 1] == more[..i + 1];
    } else {
      i := last;
      assert more[..i + 1] == more;
    }
  }

  /** What a caller gets was decided after it joined exactly when the call had no response yet at that
      moment.  A forced refresh that joins a call that is storing or returning gets what was fetched, or
      found in the cache, before it asked. */
  lemma {:induction false} ResponseIsNewIff(
    env: Env, init: State, run: seq<Step>, before: State, id: nat, newCall: nat, more: seq<Step>, t: State)
    requires Reaches(env, init, run, before) && Enabled(env, before, OfCaller(id, JoinCall(newCall)))
    requires Execute(env, Next(env, before, OfCaller(id, JoinCall(newCall))), more) == Some(t)
    requires id in t.callers && t.callers[id].phase.Received?
    ensures var key, s := before.callers[id].key, Next(env, before, OfCaller(id, JoinCall(newCall)));
            var call := if key in before.inFlight then before.inFlight[key] else newCall;
            var had := key in before.inFlight && call in before.calls &&
                       (before.calls[call].phase.Storing? || before.calls[call].phase.Returning?);
            && (had ==> t.callers[id].phase.response == before.calls[call].phase.response)
            && (!had <==> exists i :: SettlesAt(env, s, more, call, i))
  {
    hide Execute, Protocol, CallEffect, RefreshEffect, StartEffect, RefreshEnabled, CallEnabled, SettlesAt;
    var step := OfCaller(id, JoinCall(newCall));
    var key, s := before.callers[id].key, Next(env, before, step);
    var call := if key in before.inFlight then before.inFlight[key] else newCall;
    JoinsInFlight(env, init, run, before, key);
    Append(env, init, run, before, step);
    Compose(env, init, run + [step], s, more, t);
    StaysJoined(env, s, more, t, id, call);
    ReceivesItsResponse(env, init, run + [step] + more, t, id, call);
    StaysSettledWith(env, s, more, t, call);
    if Settled(s.calls[call]) {
      forall i ensures !SettlesAt(env, s, more, call, i) {
        SettledAlready(env, s, more, call, i);
      }
    } else {
      var i := SettlesInBetween(env, s, more, t, call);
    }
  }

  lemma SettledAlready(env: Env, s: State, more: seq<Step>, id: nat, i: nat)
    requires id in s.calls && Settled(s.calls[id])
    ensures !SettlesAt(env, s, more, id, i)
  {
    hide Execute;
    if i < |more| && Execute(env, s, more[..i]).Some? {
      StaysSettledWith(env, s, more[..i], Execute(env, s, more[..i]).value, id);
    }
  }

  lemma ReceivesItsResponse(env: Env, init: State, run: seq<Step>, t: State, id: nat, call: nat)
    requires Reaches(env, init, run, t)
    requires id in t.callers && JoinedTo(t.callers[id], call) && t.callers[id].phase.Received?
    ensures call in t.calls && Settled(t.calls[call]) && ResponseOf(t.calls[call]) == t.callers[id].phase.response
  {
    hide InFlightIsUnfinished, RefreshingIsRunning;
    ProtocolHolds(env, init, run, t);
    assert IsServed(t.callers[id], t.calls, t.steps);
  }

  lemma JoinsInFlight(env: Env, init: State, run: seq<Step>, s: State, key: string)
    requires Reaches(env, init, run, s)
    ensures key in s.inFlight ==>
              && s.inFlight[key] in s.calls && s.calls[s.inFlight[key]].key == key
              && !s.calls[s.inFlight[key]].phase.Closed?
  {
    ProtocolHolds(env, init, run, s);
  }
}
