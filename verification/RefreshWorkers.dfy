/**
  Pacing of the refresh workers: the loop of one worker and what it means for request rates.
 */
module RefreshWorkers {
  import opened Records

  const SECOND := 1_000_000_000
  const DEFAULT_PER_WORKER_RPS := 1

  function EffectiveRPS(perWorkerRPS: int): nat {
    if perWorkerRPS <= 0 then DEFAULT_PER_WORKER_RPS else perWorkerRPS
  }

  function MinInterval(perWorkerRPS: int): nat {
    if SECOND / EffectiveRPS(perWorkerRPS) <= 0 then 1 else SECOND / EffectiveRPS(perWorkerRPS)
  }

  /** One pass of the worker loop as the surroundings see it: the job that `Dequeue` returned and
      the time that passes before the clock is read, beyond the timer, before the refresh starts
      and until it has returned.  A pass may also find its wait cancelled. */
  datatype Turn = Turn(key: string, idle: nat, late: nat, delay: nat, work: nat, canceled: bool)

  datatype Refresh = Refresh(start: int, end: int)

  /** Refreshes follow each other at a distance of at least the interval. */
  predicate Paced(runs: seq<Refresh>, interval: int) {
    && (forall i :: 0 <= i < |runs| ==> runs[i].start <= runs[i].end)
    && (forall i :: 1 <= i < |runs| ==> runs[i].start >= runs[i - 1].end + interval)
  }

  /** When a refresh has to start: its job has arrived and the interval has passed. */
  function DueStart(turn: Turn, previous: Option<Refresh>, interval: int, clock: int): int {
    turn.delay +
    if previous.None? then clock + turn.idle
    else previous.value.end + if turn.idle >= interval then turn.idle else interval + turn.late
  }

  predicate PromptAt(runs: seq<Refresh>, turns: seq<Turn>, interval: int, clock: int, i: nat)
    requires i < |runs| && i < |turns|
  {
    && runs[i].start == DueStart(turns[i], if i == 0 then None else Some(runs[i - 1]), interval, clock)
    && runs[i].end == runs[i].start + turns[i].work
  }

  /** The worker runs every job, and no later than it has to. */
  predicate Prompt(runs: seq<Refresh>, turns: seq<Turn>, interval: int, clock: int) {
    |runs| == |turns| && forall i: nat :: i < |runs| ==> PromptAt(runs, turns, interval, clock, i)
  }

  /** Where the surroundings add nothing, a refresh starts when its job has come and the interval has passed
      since the previous one ended, whichever is later. */
  lemma PromptStartsAtTheLater(runs: seq<Refresh>, turns: seq<Turn>, interval: int, clock: int, i: nat)
    requires Prompt(runs, turns, interval, clock) && 0 < i < |runs| && turns[i].late == 0 && turns[i].delay == 0
    ensures var came, passed := runs[i - 1].end + turns[i].idle, runs[i - 1].end + interval;
            runs[i].start == if came < passed then passed else came
  {
    assert PromptAt(runs, turns, interval, clock, i);
  }

  /** The time that passes in the given turns before the clock is read. */
  function Idle(turns: seq<Turn>, lo: nat, hi: nat): nat
    requires hi <= |turns|
    decreases hi - lo
  {
    if hi <= lo then 0 else Idle(turns, lo, hi - 1) + turns[hi - 1].idle
  }

  /** The turn after that of the last refresh, and the moment at which the worker was done with it. */
  function NextTurn(at: seq<nat>): nat {
    if at == [] then 0 else at[|at| - 1] + 1
  }

  function DoneAt(runs: seq<Refresh>, clock: int): int {
    if runs == [] then clock else runs[|runs| - 1].end
  }

  /** The refresh is that of the turn: it starts when the job has come and, after another refresh, the interval
      has passed, and a wait that is cancelled is not followed by a refresh. */
  predicate IsRunOf(run: Refresh, turn: Turn, first: bool, came: int, previous: int, interval: int) {
    && run.end == run.start + turn.work
    && (first || came >= previous + interval ==> run.start == came + turn.delay)
    && (!first && came < previous + interval ==>
          run.start == previous + interval + turn.late + turn.delay && !turn.canceled)
  }

  predicate RunAt(runs: seq<Refresh>, turns: seq<Turn>, at: seq<nat>, interval: int, clock: int, i: nat)
    requires i < |runs| == |at|
  {
    && NextTurn(at[..i]) <= at[i] < |turns| && turns[at[i]].key != ""
    && var previous := DoneAt(runs[..i], clock);
       var came := previous + Idle(turns, NextTurn(at[..i]), at[i] + 1);
       IsRunOf(runs[i], turns[at[i]], i == 0, came, previous, interval)
  }

  /** Of the first `done` turns, exactly those with a job have led to a refresh, in their order. */
  ghost predicate Serves(
    runs: seq<Refresh>, turns: seq<Turn>, at: seq<nat>, done: nat, interval: int, clock: int)
  {
    && |at| == |runs| && NextTurn(at) <= done <= |turns|
    && (forall i: nat :: i < |runs| ==> RunAt(runs, turns, at, interval, clock, i))
    && (forall k: nat :: k < done && turns[k].key != "" ==> k in at)
  }

  lemma {:induction false} ServesMore(
    runs: seq<Refresh>, run: Refresh, turns: seq<Turn>, at: seq<nat>, done: nat, interval: int, clock: int)
    requires Serves(runs, turns, at, done, interval, clock) && done < |turns| && turns[done].key != ""
    requires var previous := DoneAt(runs, clock);
             var came := previous + Idle(turns, NextTurn(at), done + 1);
             IsRunOf(run, turns[done], runs == [], came, previous, interval)
    ensures Serves(runs + [run], turns, at + [done], done + 1, interval, clock)
  {
    hide IsRunOf;
    var runs', at' := runs + [run], at + [done];
    forall i: nat | i < |runs'| ensures RunAt(runs', turns, at', interval, clock, i) {
      if i < |runs| {
        assert RunAt(runs, turns, at, interval, clock, i);
        assert runs'[..i] == runs[..i] && at'[..i] == at[..i];
      } else {
        assert runs'[..i] == runs && at'[..i] == at;
      }
    }
  }

  lemma {:induction false} ServesSkipped(
    runs: seq<Refresh>, turns: seq<Turn>, at: seq<nat>, done: nat, interval: int, clock: int)
    requires Serves(runs, turns, at, done, interval, clock) && done < |turns| && turns[done].key == ""
    ensures Serves(runs, turns, at, done + 1, interval, clock)
  {
    hide RunAt;
  }

  lemma ServesNothing(turns: seq<Turn>, interval: int, clock: int)
    ensures Serves([], turns, [], 0, interval, clock)
  {
  }

  predicate Undisturbed(turns: seq<Turn>) {
    forall turn <- turns :: turn.key != "" && !turn.canceled
  }

  lemma {:induction false} PacedMore(runs: seq<Refresh>, run: Refresh, interval: int)
    requires Paced(runs, interval) && run.start <= run.end
    requires runs != [] ==> run.start >= runs[|runs| - 1].end + interval
    ensures Paced(runs + [run], interval)
  {
  }

  lemma {:induction false} PromptMore(
    runs: seq<Refresh>, run: Refresh, turns: seq<Turn>, turn: Turn, interval: int, clock: int)
    requires Prompt(runs, turns, interval, clock)
    requires run.start == DueStart(turn, if runs == [] then None else Some(runs[|runs| - 1]), interval, clock)
    requires run.end == run.start + turn.work
    ensures Prompt(runs + [run], turns + [turn], interval, clock)
  {
    forall i: nat | i <= |runs|
      ensures PromptAt(runs + [run], turns + [turn], interval, clock, i)
    {
      assert i < |runs| ==> PromptAt(runs, turns, interval, clock, i);
    }
  }

  /** The worker loop against a clock that starts positive and never goes back.  The zero time
      marks a worker that has not run yet. */
  method RunWorker(interval: nat, clock: int, turns: seq<Turn>)
    returns (runs: seq<Refresh>, ghost at: seq<nat>, ghost done: nat)
    requires clock > 0 && interval > 0
    ensures Serves(runs, turns, at, done, interval, clock)
    ensures done < |turns| ==>
              && turns[done].key != "" && turns[done].canceled && runs != []
              && Idle(turns, NextTurn(at), done + 1) < interval
    ensures Paced(runs, interval)
    ensures forall run <- runs :: run.start >= clock
    ensures Undisturbed(turns) ==> Prompt(runs, turns, interval, clock)
  {
    hide Paced, Prompt, Serves, NextTurn;
    runs, at, done := [], [], 0;
    ServesNothing(turns, interval, clock);
    EmptyRuns(interval, clock);
    var now := clock;
    var lastRunAt := 0;
    for i := 0 to |turns|
      invariant now >= clock && Paced(runs, interval)
      invariant lastRunAt == if runs == [] then 0 else runs[|runs| - 1].end
      invariant lastRunAt <= now
      invariant forall run <- runs :: run.start >= clock && run.end >= clock
      invariant Undisturbed(turns) ==> Prompt(runs, turns[..i], interval, clock)
      invariant Undisturbed(turns) ==> now == if runs == [] then clock else lastRunAt
      invariant done == i && Serves(runs, turns, at, i, interval, clock) && NextTurn(at) <= i
      invariant now == DoneAt(runs, clock) + Idle(turns, NextTurn(at), i)
    {
      var turn := turns[i];
      assert turns[..i + 1] == turns[..i] + [turn];
      now := now + turn.idle;
      if turn.key == "" {
        ServesSkipped(runs, turns, at, i, interval, clock);
        done := i + 1;
        continue;
      }
      if lastRunAt != 0 {
        var elapsed := now - lastRunAt;
        var wait := interval - elapsed;
        if wait > 0 {
          if turn.canceled {
            return;
          }
          now := now + wait + turn.late;
        }
      }
      now := now + turn.delay;
      var start := now;
      now := now + turn.work;
      var run := Refresh(start, now);
      PacedMore(runs, run, interval);
      if Undisturbed(turns) {
        PromptMore(runs, run, turns[..i], turn, interval, clock);
      }
      ServesMore(runs, run, turns, at, i, interval, clock);
      NextAfter(at, i);
      runs, at, done := runs + [run], at + [i], i + 1;
      lastRunAt := now;
    }
    assert turns[..|turns|] == turns;
  }

  lemma NextAfter(at: seq<nat>, i: nat)
    ensures NextTurn(at + [i]) == i + 1
  {
  }

  lemma EmptyRuns(interval: int, clock: int)
    ensures Paced([], interval) && Prompt([], [], interval, clock)
  {
  }

  // ---------------------------------------------------------------- rates

  /** How many refreshes start in the half-open window. */
  function StartsIn(runs: seq<Refresh>, lo: int, hi: int): nat {
    if runs == [] then 0
    else StartsIn(runs[..|runs| - 1], lo, hi) + (if lo <= runs[|runs| - 1].start < hi then 1 else 0)
  }

  function CeilDiv(a: nat, b: nat): nat
    requires b > 0
  {
    (a + b - 1) / b
  }

  lemma {:induction false} NoStartsBefore(runs: seq<Refresh>, interval: nat, lo: int, hi: int)
    requires Paced(runs, interval)
    requires runs != [] && runs[|runs| - 1].start < lo
    ensures StartsIn(runs, lo, hi) == 0
  {
    var init := runs[..|runs| - 1];
    if init != [] {
      NoStartsBefore(init, interval, lo, hi);
    }
  }

  lemma {:induction false} StartsAreSpaced(runs: seq<Refresh>, interval: nat, lo: int, hi: int)
    requires Paced(runs, interval) && runs != [] && lo <= runs[|runs| - 1].start < hi
    ensures (StartsIn(runs, lo, hi) - 1) * interval <= runs[|runs| - 1].start - lo
  {
    var init := runs[..|runs| - 1];
    if init != [] {
      var last := init[|init| - 1];
      if last.start < lo {
        NoStartsBefore(init, interval, lo, hi);
      } else {
        StartsAreSpaced(init, interval, lo, hi);
        var n := StartsIn(init, lo, hi);
        assert n * interval == (n - 1) * interval + interval;
      }
    }
  }

  lemma {:induction false} CeilFacts(span: nat, interval: nat)
    requires interval > 0
    ensures (CeilDiv(span, interval) - 1) * interval < span <= CeilDiv(span, interval) * interval
  {
    var n, q := span + interval - 1, CeilDiv(span, interval);
    assert n == q * interval + n % interval;
    assert (q - 1) * interval == q * interval - interval;
  }

  lemma {:induction false} CeilBound(count: nat, span: nat, interval: nat)
    requires interval > 0 && (count - 1) * interval < span
    ensures count <= CeilDiv(span, interval)
  {
    hide CeilDiv;
    CeilFacts(span, interval);
    if count > CeilDiv(span, interval) {
      MulMonotone(CeilDiv(span, interval), count - 1, interval);
    }
  }

  lemma MulMonotone(a: int, b: int, c: nat)
    requires a <= b
    ensures a * c <= b * c
  {
  }

  /** A worker starts at most ceil(T / m) refreshes in any window of length T. */
  lemma {:induction false} PacingBound(runs: seq<Refresh>, interval: nat, lo: int, span: nat)
    requires interval > 0 && Paced(runs, interval)
    ensures StartsIn(runs, lo, lo + span) <= CeilDiv(span, interval)
  {
    if runs != [] {
      if lo <= runs[|runs| - 1].start < lo + span {
        StartsAreSpaced(runs, interval, lo, lo + span);
        CeilBound(StartsIn(runs, lo, lo + span), span, interval);
      } else {
        PacingBound(runs[..|runs| - 1], interval, lo, span);
      }
    }
  }

  function TotalStartsIn(workers: seq<seq<Refresh>>, lo: int, hi: int): nat {
    if workers == [] then 0 else StartsIn(workers[0], lo, hi) + TotalStartsIn(workers[1..], lo, hi)
  }

  lemma OneMore(n: nat, c: nat)
    ensures (n + 1) * c == n * c + c
  {
  }

  /** All workers together. */
  lemma {:induction false} PoolBound(workers: seq<seq<Refresh>>, interval: nat, lo: int, span: nat)
    requires interval > 0 && forall runs <- workers :: Paced(runs, interval)
    ensures TotalStartsIn(workers, lo, lo + span) <= |workers| * CeilDiv(span, interval)
  {
    hide Paced, CeilDiv, StartsIn;
    if workers != [] {
      PacingBound(workers[0], interval, lo, span);
      PoolBound(workers[1..], interval, lo, span);
      OneMore(|workers[1..]|, CeilDiv(span, interval));
    }
  }

  /** Jobs that are always there, refreshes that take no time and timers that fire on time. */
  function Busy(n: nat): seq<Turn> {
    seq(n, _ => Turn("key", 0, 0, 0, 0, false))
  }

  /** A busy worker refreshes like a metronome. */
  lemma {:induction false} BusyRuns(runs: seq<Refresh>, n: nat, interval: nat, clock: int, i: nat)
    requires Prompt(runs, Busy(n), interval, clock) && interval > 0 && i < n
    ensures runs[i].start == runs[i].end == clock + i * interval
  {
    assert PromptAt(runs, Busy(n), interval, clock, i);
    if i > 0 {
      BusyRuns(runs, n, interval, clock, i - 1);
      assert i * interval == (i - 1) * interval + interval;
    }
  }

  lemma {:induction false} PromptPrefix(runs: seq<Refresh>, n: nat, interval: nat, clock: int)
    requires Prompt(runs, Busy(n), interval, clock) && n > 0
    ensures Prompt(runs[..n - 1], Busy(n - 1), interval, clock)
  {
    var shorter, turns := runs[..n - 1], Busy(n - 1);
    forall i: nat | i < |shorter| ensures PromptAt(shorter, turns, interval, clock, i) {
      assert PromptAt(runs, Busy(n), interval, clock, i);
    }
  }

  /** The bound is reached, by every run of the worker loop in which nothing else slows it down. */
  lemma {:induction false} PacingBoundIsTight(runs: seq<Refresh>, n: nat, interval: nat, clock: int, span: nat)
    requires interval > 0 && Prompt(runs, Busy(n), interval, clock)
    ensures StartsIn(runs, clock, clock + span) ==
            if n <= CeilDiv(span, interval) then n else CeilDiv(span, interval)
  {
    hide CeilDiv, Prompt;
    if n == 0 {
      NoRuns(runs, interval, clock);
    } else {
      PromptLength(runs, n, interval, clock);
      PromptPrefix(runs, n, interval, clock);
      PacingBoundIsTight(runs[..n - 1], n - 1, interval, clock, span);
      BusyRuns(runs, n, interval, clock, n - 1);
      InWindowIff(n - 1, span, interval);
    }
  }

  lemma NoRuns(runs: seq<Refresh>, interval: nat, clock: int)
    requires Prompt(runs, Busy(0), interval, clock)
    ensures runs == []
  {
  }

  lemma PromptLength(runs: seq<Refresh>, n: nat, interval: nat, clock: int)
    requires Prompt(runs, Busy(n), interval, clock)
    ensures |runs| == n
  {
  }

  lemma {:induction false} InWindowIff(i: nat, span: nat, interval: nat)
    requires interval > 0
    ensures 0 <= i * interval
    ensures i * interval < span <==> i < CeilDiv(span, interval)
  {
    hide CeilDiv;
    var q := CeilDiv(span, interval);
    CeilFacts(span, interval);
    if i < q {
      MulMonotone(i, q - 1, interval);
    } else {
      MulMonotone(q, i, interval);
    }
  }

  /** The loop itself, kept busy for a second. */
  method BusySecond(perWorkerRPS: int, clock: int) returns (runs: seq<Refresh>)
    requires clock > 0
    ensures Paced(runs, MinInterval(perWorkerRPS))
    ensures StartsIn(runs, clock, clock + SECOND) == CeilDiv(SECOND, MinInterval(perWorkerRPS))
  {
    hide CeilDiv, Prompt, Paced;
    var interval := MinInterval(perWorkerRPS);
    var n := CeilDiv(SECOND, interval);
    ghost var at, done;
    runs, at, done := RunWorker(interval, clock, Busy(n));
    PacingBoundIsTight(runs, n, interval, clock, SECOND);
  }

  /** In every second a worker keeps to its configured rate exactly when the rate divides a second
      or exceeds one per nanosecond; it reaches the rate exactly when it divides a second.  For any
      other rate the rounding of the interval lets more refreshes into some seconds. */
  lemma {:induction false} RateIsKeptIff(perWorkerRPS: int)
    ensures var rps := if perWorkerRPS <= 0 then 1 else perWorkerRPS;
            var most := CeilDiv(SECOND, MinInterval(perWorkerRPS));
            && (most <= rps <==> SECOND % rps == 0 || rps > SECOND)
            && (most == rps <==> SECOND % rps == 0)
  {
    hide CeilDiv;
    var rps := EffectiveRPS(perWorkerRPS);
    var m := MinInterval(perWorkerRPS);
    var most := CeilDiv(SECOND, m);
    CeilFacts(SECOND, m);
    if rps > SECOND {
      assert m == 1 by { SmallQuotient(rps); }
      assert most == SECOND && SECOND % rps == SECOND;
    } else {
      QuotientFacts(rps);
      assert m == SECOND / rps;
      OneMore(rps - 1, m);
      if most < rps {
        MulMonotone(most, rps - 1, m);
      } else if most > rps {
        MulMonotone(rps, most - 1, m);
      }
    }
  }

  lemma SmallQuotient(rps: nat)
    requires rps > SECOND
    ensures SECOND / rps == 0
  {
  }

  lemma QuotientFacts(rps: nat)
    requires 0 < rps <= SECOND
    ensures SECOND / rps >= 1 && SECOND == rps * (SECOND / rps) + SECOND % rps
  {
  }

  /** How much more: a few at one rate, as many as there are nanoseconds at another. */
  lemma RoundingExamples()
    ensures CeilDiv(SECOND, MinInterval(70_000)) == 70_004
    ensures CeilDiv(SECOND, MinInterval(600_000_000)) == SECOND
  {
  }
}
