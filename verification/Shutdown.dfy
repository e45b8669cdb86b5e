/**
  The queue under its lock, the workers that drain it and the order of shutdown, as steps of
  any number of producers and workers.
 */
module Shutdown {
  import opened RefreshQueue

  /** A worker polls the queue, waits for its interval with a job in hand, refreshes, or is gone. */
  datatype Worker = Polling | Pacing(key: string) | Refreshing(key: string) | Gone

  datatype State = State(
    closed: bool,                 // the flag that Enqueue checks
    channel: Channel,
    senders: map<nat, string>,    // producers that hold the read lock and saw the flag unset
    closer: bool,                 // the closer holds the write lock
    canceled: bool,
    workers: seq<Worker>)

  datatype Step =
    | BeginEnqueue(producer: nat, key: string)
    | Send(producer: nat)
    | LockForClose
    | SetClosed
    | CloseChannel
    | CancelWorkers
    | Work(worker: nat, move: Move)

  datatype Move = Take | SeeCancel | SeeClosed | IntervalOver | Finish

  predicate Initial(s: State) {
    && !s.closed && !s.closer && !s.canceled
    && s.channel == Channel([], false, s.channel.capacity, [], []) && s.senders == map[]
    && forall w <- s.workers :: w == Polling
  }

  predicate MoveEnabled(s: State, w: Worker, move: Move) {
    match move
    case Take => w.Polling? && s.channel.jobs != []
    case SeeCancel => (w.Polling? || w.Pacing?) && s.canceled
    case SeeClosed => w.Polling? && s.channel.closed && s.channel.jobs == []
    case IntervalOver => w.Pacing?
    case Finish => w.Refreshing?
  }

  predicate Enabled(s: State, step: Step) {
    match step
    case BeginEnqueue(producer, key) => producer !in s.senders && !s.closer && key != ""
    case Send(producer) => producer in s.senders
    case LockForClose => s.senders == map[] && !s.closer
    case SetClosed => s.closer && !s.closed
    case CloseChannel => s.closer && s.closed
    case CancelWorkers => true
    case Work(worker, move) => worker < |s.workers| && MoveEnabled(s, s.workers[worker], move)
  }

  function MoveEffect(s: State, worker: nat, move: Move): State
    requires worker < |s.workers| && MoveEnabled(s, s.workers[worker], move)
  {
    var w := s.workers[worker];
    match move
    case Take =>
      s.(channel := Taken(s.channel), workers := s.workers[worker := Pacing(s.channel.jobs[0])])
    case SeeCancel => s.(workers := s.workers[worker := Gone])
    case SeeClosed => s.(workers := s.workers[worker := Gone])
    case IntervalOver => s.(workers := s.workers[worker := Refreshing(w.key)])
    case Finish => s.(workers := s.workers[worker := Polling])
  }

  function Next(s: State, step: Step): State
    requires Enabled(s, step)
  {
    match step
    case BeginEnqueue(producer, key) =>
      if s.closed then s else s.(senders := s.senders[producer := key])
    case Send(producer) =>
      s.(senders := s.senders - {producer}, channel := Offered(s.channel, s.senders[producer]))
    case LockForClose => if s.closed then s else s.(closer := true)
    case SetClosed => s.(closed := true)
    case CloseChannel => s.(channel := s.channel.(closed := true), closer := false)
    case CancelWorkers => s.(canceled := true)
    case Work(worker, move) => MoveEffect(s, worker, move)
  }

  /** A run of steps, each enabled where it is taken, and its last state. */
  predicate Leads(s: State, run: seq<Step>, t: State)
    decreases |run|
  {
    if run == [] then s == t
    else Enabled(s, run[0]) && Leads(Next(s, run[0]), run[1..], t)
  }

  // ---------------------------------------------------------------- invariant

  ghost predicate Inv(s: State) {
    && (s.senders != map[] ==> !s.closed && !s.closer)
    && (s.channel.closed ==> s.closed && !s.closer)
    && (s.closed && !s.channel.closed ==> s.closer)
    && FirstInFirstOut(s.channel)
    && "" !in s.senders.Values
    && (forall i :: 0 <= i < |s.workers| ==> HoldsTaken(s, s.workers[i]))
  }

  /** A job in hand was taken from the queue, and a worker that is gone has seen the shutdown. */
  predicate HoldsTaken(s: State, w: Worker) {
    match w
    case Polling => true
    case Pacing(key) => key in s.channel.dequeued
    case Refreshing(key) => key in s.channel.dequeued
    case Gone => s.canceled || s.channel.closed
  }

  lemma InvStep(s: State, step: Step)
    requires Inv(s) && Enabled(s, step)
    ensures Inv(Next(s, step))
  {
    hide FirstInFirstOut;
    match step
    case Work(worker, move) =>
      ChannelKeepsOrder(s.channel, "key");
    case Send(producer) =>
      ChannelKeepsOrder(s.channel, s.senders[producer]);
    case CloseChannel => ClosedKeepsOrder(s.channel);
    case _ =>
  }

  lemma ClosedKeepsOrder(c: Channel)
    requires FirstInFirstOut(c)
    ensures FirstInFirstOut(c.(closed := true))
  {
  }

  lemma InvInitially(s: State)
    requires Initial(s)
    ensures Inv(s)
  {
    forall i | 0 <= i < |s.workers| ensures HoldsTaken(s, s.workers[i]) {
      assert s.workers[i] in s.workers;
    }
  }

  lemma {:induction false} InvRun(s: State, run: seq<Step>, t: State)
    requires Inv(s) && Leads(s, run, t)
    ensures Inv(t)
    decreases |run|
  {
    if run != [] {
      InvStep(s, run[0]);
      InvRun(Next(s, run[0]), run[1..], t);
    }
  }

  /** In every interleaving: nobody sends on the closed channel and the channel is closed at most
      once, for neither can happen once it is closed; dequeued jobs are a prefix of the accepted
      ones and the difference is what the bounded buffer holds. */
  lemma NothingAfterClose(init: State, run: seq<Step>, s: State)
    requires Initial(init) && Leads(init, run, s)
    ensures s.channel.closed ==> s.senders == map[] && forall producer: nat :: !Enabled(s, Send(producer))
    ensures s.channel.closed ==> !Enabled(s, CloseChannel)
    ensures s.channel.dequeued <= s.channel.accepted && s.channel.accepted[|s.channel.dequeued|..] == s.channel.jobs
    ensures |s.channel.accepted| <= |s.channel.dequeued| + s.channel.capacity
  {
    InvInitially(init);
    InvRun(init, run, s);
  }

  /** No worker leaves before it is cancelled or the queue is closed, and each refreshes only what it took. */
  lemma WorkersStay(init: State, run: seq<Step>, s: State, i: nat)
    requires Initial(init) && Leads(init, run, s) && i < |s.workers|
    ensures s.workers[i] == Gone ==> s.canceled || s.channel.closed
    ensures s.workers[i].Refreshing? ==> s.workers[i].key in s.channel.dequeued
  {
    InvInitially(init);
    InvRun(init, run, s);
    assert HoldsTaken(s, s.workers[i]);
  }

  // ---------------------------------------------------------------- draining

  function Rank(w: Worker): nat {
    match w
    case Gone => 0
    case Polling => 1
    case Refreshing(_) => 2
    case Pacing(_) => 3
  }

  function Ranks(workers: seq<Worker>): nat {
    if workers == [] then 0 else Ranks(workers[..|workers| - 1]) + Rank(workers[|workers| - 1])
  }

  /** What is left to do: the pending jobs first, then the positions of the workers. */
  function Remaining(s: State): nat {
    3 * |s.channel.jobs| + Ranks(s.workers)
  }

  lemma {:induction false} RanksUpdate(workers: seq<Worker>, i: nat, w: Worker)
    requires i < |workers|
    ensures Ranks(workers[i := w]) == Ranks(workers) - Rank(workers[i]) + Rank(w)
  {
    var last := |workers| - 1;
    if i < last {
      RanksUpdate(workers[..last], i, w);
      assert workers[i := w][..last] == workers[..last][i := w];
    } else {
      assert workers[i := w][..last] == workers[..last];
    }
  }

  lemma WorkDecreases(s: State, worker: nat, move: Move)
    requires worker < |s.workers| && MoveEnabled(s, s.workers[worker], move)
    ensures Remaining(MoveEffect(s, worker, move)) < Remaining(s)
  {
    RanksUpdate(s.workers, worker, MoveEffect(s, worker, move).workers[worker]);
  }

  /** Once nobody enqueues any more, the workers take finitely many steps, however the choice
      between a ready job and the cancellation falls. */
  lemma {:induction false} WorkersTerminate(s: State, run: seq<Step>, t: State)
    requires Leads(s, run, t) && forall step <- run :: step.Work?
    ensures |run| + Remaining(t) <= Remaining(s)
    decreases |run|
  {
    if run != [] {
      assert run[0] in run;
      WorkDecreases(s, run[0].worker, run[0].move);
      WorkersTerminate(Next(s, run[0]), run[1..], t);
    }
  }

  /** The step that leads a worker on after cancellation. */
  function WayOut(w: Worker): Move {
    if w.Refreshing? then Finish else SeeCancel
  }

  /** After cancellation a worker that is not gone can always go on. */
  lemma CanceledWorkerGoesOn(s: State, worker: nat)
    requires s.canceled && worker < |s.workers|
    ensures s.workers[worker] == Gone || MoveEnabled(s, s.workers[worker], WayOut(s.workers[worker]))
  {
  }

  /** A shutdown run of the workers, however long it could have been, ends after a known number
      of steps, and it cannot stop before every worker is gone. */
  lemma {:induction false} ShutdownCompletes(s: State, run: seq<Step>, t: State)
    requires s.canceled && Leads(s, run, t) && forall step <- run :: step.Work?
    requires |run| == Remaining(s) ||
             forall worker: nat, move | worker < |t.workers| :: !MoveEnabled(t, t.workers[worker], move)
    ensures |run| <= Remaining(s) && forall w <- t.workers :: w == Gone
  {
    WorkersTerminate(s, run, t);
    CanceledStays(s, run, t);
    if |run| == Remaining(s) {
      NothingRemains(t.workers);
    } else {
      forall i: nat | i < |t.workers| ensures t.workers[i] == Gone {
        CanceledWorkerGoesOn(t, i);
      }
    }
  }

  lemma {:induction false} CanceledStays(s: State, run: seq<Step>, t: State)
    requires s.canceled && Leads(s, run, t)
    ensures t.canceled
    decreases |run|
  {
    if run != [] {
      CanceledStays(Next(s, run[0]), run[1..], t);
    }
  }

  lemma {:induction false} NothingRemains(workers: seq<Worker>)
    requires Ranks(workers) == 0
    ensures forall w <- workers :: w == Gone
  {
    if workers != [] {
      NothingRemains(workers[..|workers| - 1]);
      assert workers == workers[..|workers| - 1] + [workers[|workers| - 1]];
    }
  }
}
