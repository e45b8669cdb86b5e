/**
  The memo of prepared requests: a bounded map from raw URLs that is looked up under a read lock
  and filled under a write lock, the preparation running between the two without a lock.
 */
module RequestPrepCache {
  import opened Records
  import opened Sequences

  const DEFAULT_MAX_ENTRIES := 4096

  class Memo<T> {
    const maxEntries: nat
    var entries: map<string, T>

    constructor (limit: int)
      ensures entries == map[] && maxEntries == (if limit <= 0 then 4096 else limit)
    {
      maxEntries := if limit <= 0 then DEFAULT_MAX_ENTRIES else limit;
      entries := map[];
    }

    /** The read-locked region. */
    method Lookup(raw: string) returns (found: Option<T>)
      ensures found == if raw in entries then Some(entries[raw]) else None
    {
      found := if raw in entries then Some(entries[raw]) else None;
    }

    /** The write-locked region, for a request prepared after a miss. */
    method Publish(raw: string, prepared: T) returns (kept: T)
      modifies this
      ensures entries == Published(maxEntries, old(entries), raw, prepared)
      ensures kept == if raw in old(entries) then old(entries[raw]) else prepared
    {
      if raw in entries {
        return entries[raw];
      }
      if |entries| < maxEntries {
        entries := entries[raw := prepared];
      }
      return prepared;
    }

    /** What other goroutines may do to the memo while this one holds no lock. */
    method Others(prepare: string -> T) returns (ghost published: seq<string>)
      modifies this
      ensures entries == After(maxEntries, old(entries), prepare, published)
    {
      var raws: seq<string> := *;
      published := raws;
      for i := 0 to |raws|
        invariant entries == After(maxEntries, old(entries), prepare, raws[..i])
      {
        assert raws[..i + 1][..i] == raws[..i];
        var _ := Publish(raws[i], prepare(raws[i]));
      }
      assert raws[..|raws|] == raws;
    }

    /** One call among others: the result is the preparation of the URL whatever the others publish
        before, between and after its locked regions. */
    method GetOrPrepare(raw: string, prepare: string -> T) returns (prepared: T, ghost published: seq<string>)
      requires Memoizes(entries, prepare)
      modifies this
      ensures prepared == prepare(raw) && Memoizes(entries, prepare)
      ensures entries == After(maxEntries, old(entries), prepare, published)
      ensures raw in entries || |entries| >= maxEntries
      ensures raw in old(entries) ==> published == [] && entries == old(entries)
    {
      var cached := Lookup(raw);
      if cached.Some? {
        return cached.value, [];
      }
      published := Others(prepare);
      MemoIsMonotone(maxEntries, old(entries), prepare, published);
      prepared := prepare(raw);
      prepared := Publish(raw, prepared);
      published := published + [raw];
      assert published[..|published| - 1] + [raw] == published;
    }
  }

  function Published<T>(limit: int, entries: map<string, T>, raw: string, prepared: T): map<string, T> {
    if raw in entries || |entries| >= limit then entries else entries[raw := prepared]
  }

  ghost predicate Memoizes<T>(entries: map<string, T>, prepare: string -> T) {
    forall raw <- entries :: entries[raw] == prepare(raw)
  }

  /** The memo after a list of write-locked regions. */
  ghost function After<T>(
    limit: int, entries: map<string, T>, prepare: string -> T, published: seq<string>): map<string, T> {
    if published == [] then entries
    else
      var raw := published[|published| - 1];
      Published(limit, After(limit, entries, prepare, published[..|published| - 1]), raw, prepare(raw))
  }

  /** A memoised request is never replaced or dropped. */
  lemma {:induction false} MemoIsMonotone<T>(
    limit: nat, entries: map<string, T>, prepare: string -> T, published: seq<string>)
    ensures var later := After(limit, entries, prepare, published);
            && (Memoizes(entries, prepare) ==> Memoizes(later, prepare))
            && forall raw <- entries :: raw in later && later[raw] == entries[raw]
  {
    if published != [] {
      MemoIsMonotone(limit, entries, prepare, published[..|published| - 1]);
    }
  }

  // ---------------------------------------------------------------- what is held

  /** The different URLs of a list in order of first appearance. */
  function FirstAppearances(raws: seq<string>): seq<string> {
    if raws == [] then []
    else
      var init := FirstAppearances(raws[..|raws| - 1]);
      if raws[|raws| - 1] in init then init else init + [raws[|raws| - 1]]
  }

  function Take(raws: seq<string>, n: nat): seq<string> {
    if |raws| <= n then raws else raws[..n]
  }

  lemma {:induction false} AppearOnce(raws: seq<string>)
    ensures NoRepeats(FirstAppearances(raws)) && Elements(FirstAppearances(raws)) == Elements(raws)
  {
    if raws != [] {
      AppearOnce(raws[..|raws| - 1]);
      LastElement(raws);
    }
  }

  lemma {:induction false} TakeAppend(raws: seq<string>, raw: string, n: nat)
    ensures Elements(Take(raws + [raw], n)) == Elements(Take(raws, n)) + if |raws| < n then {raw} else {}
    ensures Elements(Take(raws, n)) <= Elements(raws)
  {
    if |raws| < n {
      assert Take(raws + [raw], n) == raws + [raw];
    } else {
      assert Take(raws + [raw], n) == raws[..n] == Take(raws, n);
    }
  }

  lemma {:induction false} KeysOfTheFirst<T>(limit: nat, prepare: string -> T, published: seq<string>)
    ensures var entries := After(limit, map[], prepare, published);
            && entries.Keys == Elements(Take(FirstAppearances(published), limit))
            && |entries| == |Take(FirstAppearances(published), limit)|
  {
    hide FirstAppearances, Take, NoRepeats;
    if published == [] {
      NothingAppears(limit);
    } else {
      var init, raw := published[..|published| - 1], published[|published| - 1];
      KeysOfTheFirst(limit, prepare, init);
      OneMoreAppears(published);
      PublishOne(After(limit, map[], prepare, init), limit, FirstAppearances(init), raw, prepare(raw));
    }
  }

  lemma {:induction false} PublishOne<T>(
    entries: map<string, T>, limit: nat, first: seq<string>, raw: string, prepared: T)
    requires entries.Keys == Elements(Take(first, limit)) && |entries| == |Take(first, limit)|
    ensures var entries' := Published(limit, entries, raw, prepared);
            var first' := if raw in first then first else first + [raw];
            entries'.Keys == Elements(Take(first', limit)) && |entries'| == |Take(first', limit)|
  {
    if raw in first {
      assert |first| < limit ==> raw in entries;
    } else {
      TakeAppend(first, raw, limit);
      assert raw !in entries;
    }
  }

  /** The memo holds exactly the first URLs published, up to its limit, each with its own
      preparation. */
  lemma {:induction false} HoldsTheFirstPublished<T>(limit: nat, prepare: string -> T, published: seq<string>)
    ensures var entries := After(limit, map[], prepare, published);
            && Memoizes(entries, prepare)
            && entries.Keys == Elements(Take(FirstAppearances(published), limit))
            && |entries| == |Take(FirstAppearances(published), limit)| <= limit
  {
    KeysOfTheFirst(limit, prepare, published);
    MemoIsMonotone(limit, map[], prepare, published);
  }

  lemma NothingAppears(n: nat)
    ensures FirstAppearances([]) == [] && Take([], n) == []
  {
  }

  lemma OneMoreAppears(raws: seq<string>)
    requires raws != []
    ensures var init, raw := FirstAppearances(raws[..|raws| - 1]), raws[|raws| - 1];
            FirstAppearances(raws) == if raw in init then init else init + [raw]
  {
  }

  // ---------------------------------------------------------------- any number of calls

  datatype Phase<T> = Asked | Missed | Prepared(prepared: T) | Returned(result: T)

  datatype Call<T> = Call(raw: string, phase: Phase<T>)

  /** `published` lists the write-locked regions in the order in which they ran. */
  datatype State<T> = State(entries: map<string, T>, calls: map<nat, Call<T>>, published: seq<string>)

  datatype Step = Ask(id: nat, raw: string) | Look(id: nat) | Prepare(id: nat) | Insert(id: nat)

  predicate Enabled<T>(s: State<T>, step: Step) {
    match step
    case Ask(id, _) => id !in s.calls
    case Look(id) => id in s.calls && s.calls[id].phase.Asked?
    case Prepare(id) => id in s.calls && s.calls[id].phase.Missed?
    case Insert(id) => id in s.calls && s.calls[id].phase.Prepared?
  }

  function Next<T>(limit: int, prepare: string -> T, s: State<T>, step: Step): State<T>
    requires Enabled(s, step)
  {
    match step
    case Ask(id, raw) => s.(calls := s.calls[id := Call(raw, Asked)])
    case Look(id) =>
      var raw := s.calls[id].raw;
      s.(calls := s.calls[id := Call(raw, if raw in s.entries then Returned(s.entries[raw]) else Missed)])
    case Prepare(id) =>
      var raw := s.calls[id].raw;
      s.(calls := s.calls[id := Call(raw, Prepared(prepare(raw)))])
    case Insert(id) =>
      var Call(raw, Prepared(prepared)) := s.calls[id];
      State(Published(limit, s.entries, raw, prepared),
            s.calls[id := Call(raw, Returned(if raw in s.entries then s.entries[raw] else prepared))],
            s.published + [raw])
  }

  /** A memoised URL is answered at once, without another preparation. */
  lemma MemoisedIsReturned<T>(limit: int, prepare: string -> T, s: State<T>, id: nat)
    requires Enabled(s, Look(id)) && s.calls[id].raw in s.entries
    ensures Next(limit, prepare, s, Look(id)).calls[id] == Call(s.calls[id].raw, Returned(s.entries[s.calls[id].raw]))
  {
  }

  /** The state after a run of steps, or None when some step was not enabled. */
  function Execute<T>(limit: int, prepare: string -> T, run: seq<Step>): Option<State<T>> {
    if run == [] then
      Some(State(map[], map[], []))
    else
      match Execute(limit, prepare, run[..|run| - 1])
      case Some(before) =>
        if Enabled(before, run[|run| - 1]) then Some(Next(limit, prepare, before, run[|run| - 1])) else None
      case None => None
  }

  ghost predicate HasItsPreparation<T>(prepare: string -> T, c: Call<T>) {
    match c.phase
    case Returned(result) => result == prepare(c.raw)
    case Prepared(prepared) => prepared == prepare(c.raw)
    case _ => true
  }

  lemma {:induction false} PreparationStep<T>(limit: nat, prepare: string -> T, s: State<T>, step: Step)
    requires Enabled(s, step) && Memoizes(s.entries, prepare)
    requires forall id <- s.calls :: HasItsPreparation(prepare, s.calls[id])
    ensures var s' := Next(limit, prepare, s, step);
            && (forall id <- s'.calls :: HasItsPreparation(prepare, s'.calls[id]))
            && (if step.Insert? then
                  var raw := s.calls[step.id].raw;
                  s'.published == s.published + [raw] && s'.entries == Published(limit, s.entries, raw, prepare(raw))
                else
                  s'.published == s.published && s'.entries == s.entries)
  {
    if step.Insert? {
      assert HasItsPreparation(prepare, s.calls[step.id]);
    }
  }

  /** In every interleaving of any number of calls, every call that has returned got what it would
      have prepared itself, and the memo is as its write-locked regions, in their order, left it. */
  lemma {:induction false} EveryCallGetsItsPreparation<T>(limit: nat, prepare: string -> T, run: seq<Step>, s: State<T>)
    requires Execute(limit, prepare, run) == Some(s)
    ensures s.entries == After(limit, map[], prepare, s.published)
    ensures forall id <- s.calls :: HasItsPreparation(prepare, s.calls[id])
  {
    hide HasItsPreparation, Next, Memoizes, Published;
    if run != [] {
      var before := Execute(limit, prepare, run[..|run| - 1]).value;
      EveryCallGetsItsPreparation(limit, prepare, run[..|run| - 1], before);
      NothingMemoized(prepare);
      MemoIsMonotone(limit, map[], prepare, before.published);
      PreparationStep(limit, prepare, before, run[|run| - 1]);
      if run[|run| - 1].Insert? {
        assert s.published[..|s.published| - 1] == before.published;
      }
    }
  }

  lemma NothingMemoized<T>(prepare: string -> T)
    ensures Memoizes(map[], prepare)
  {
  }
}
