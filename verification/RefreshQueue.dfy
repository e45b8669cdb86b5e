/**
  The bounded queue of background refresh jobs.
 */
module RefreshQueue {

  const DEFAULT_REFRESH_QUEUE_SIZE := 256

  // ---------------------------------------------------------------- the channel

  /** The buffer of the channel, whether it is closed, and all jobs that it ever took and gave. */
  datatype Channel = Channel(
    jobs: seq<string>, closed: bool, capacity: nat, accepted: seq<string>, dequeued: seq<string>)

  /** First in, first out, nothing lost, nothing invented, bounded. */
  predicate FirstInFirstOut(c: Channel) {
    && c.accepted == c.dequeued + c.jobs
    && |c.jobs| <= c.capacity
    && "" !in c.accepted
  }

  /** A send that does not wait for room. */
  function Offered(c: Channel, key: string): Channel {
    if |c.jobs| < c.capacity then c.(jobs := c.jobs + [key], accepted := c.accepted + [key]) else c
  }

  /** A receive from a channel that has a job. */
  function Taken(c: Channel): Channel
    requires c.jobs != []
  {
    c.(jobs := c.jobs[1..], dequeued := c.dequeued + [c.jobs[0]])
  }

  /** Sending and receiving keep the order, and what was given is always a beginning of what was taken. */
  lemma ChannelKeepsOrder(c: Channel, key: string)
    requires FirstInFirstOut(c) && key != ""
    ensures FirstInFirstOut(Offered(c, key))
    ensures c.jobs != [] ==> FirstInFirstOut(Taken(c)) && c.dequeued < Taken(c).dequeued <= c.accepted
  {
    if c.jobs != [] {
      assert c.dequeued + c.jobs == c.dequeued + [c.jobs[0]] + c.jobs[1..];
    }
  }

  // ---------------------------------------------------------------- the queue

  class Queue {
    /** The buffer of the channel. */
    var jobs: seq<string>
    var closed: bool
    const capacity: nat

    /** All jobs that were ever accepted and all that were handed out. */
    ghost var accepted: seq<string>
    ghost var dequeued: seq<string>

    ghost function State(): Channel
      reads this
    {
      Channel(jobs, closed, capacity, accepted, dequeued)
    }

    ghost predicate Valid()
      reads this
    {
      FirstInFirstOut(State())
    }

    constructor (size: int)
      ensures Valid() && jobs == [] && !closed && accepted == [] && dequeued == []
      ensures capacity == if size <= 0 then 256 else size
    {
      capacity := if size <= 0 then DEFAULT_REFRESH_QUEUE_SIZE else size;
      jobs, closed, accepted, dequeued := [], false, [], [];
    }

    /** Never blocks; refuses the empty key, a closed queue and a full buffer. */
    method Enqueue(key: string) returns (ok: bool)
      requires Valid()
      modifies this
      ensures Valid() && closed == old(closed) && dequeued == old(dequeued)
      ensures ok <==> key != "" && !old(closed) && |old(jobs)| < capacity
      ensures jobs == if ok then old(jobs) + [key] else old(jobs)
      ensures accepted == if ok then old(accepted) + [key] else old(accepted)
      ensures State() == if key == "" || old(closed) then old(State()) else Offered(old(State()), key)
    {
      if key == "" || closed || |jobs| == capacity {
        return false;
      }
      jobs := jobs + [key];
      accepted := accepted + [key];
      return true;
    }

    /** Returns once a job, a closed and drained queue or a cancelled context is ready; when
        several are, any of them may win. */
    method Dequeue(canceled: bool) returns (key: string, ok: bool)
      requires Valid() && (canceled || closed || jobs != [])
      modifies this
      ensures Valid() && closed == old(closed) && accepted == old(accepted)
      ensures ok ==>
                && |old(jobs)| > 0 && key == old(jobs)[0]
                && jobs == old(jobs)[1..] && dequeued == old(dequeued) + [key]
      ensures State() == if ok then Taken(old(State())) else old(State())
      ensures !ok ==>
                && key == "" && jobs == old(jobs) && dequeued == old(dequeued)
                && (canceled || (closed && jobs == []))
      ensures jobs == old(jobs) || old(dequeued) < dequeued <= accepted
    {
      if {
        case canceled =>
          key, ok := "", false;
        case jobs != [] =>
          key, ok := jobs[0], true;
          jobs := jobs[1..];
          dequeued := dequeued + [key];
        case closed && jobs == [] =>
          key, ok := "", false;
      }
    }

    method Close()
      requires Valid()
      modifies this
      ensures Valid() && closed && jobs == old(jobs) && accepted == old(accepted) && dequeued == old(dequeued)
      ensures State() == old(State()).(closed := true)
    {
      closed := true;
    }
  }
}
