/**
  Token selection: deduplicated tokens, cyclic scans in three classes and exact rotation.
 */
module TokenProvider {
  import opened Sequences

  const UINT64_RANGE := 0x1_0000_0000_0000_0000

  // ---------------------------------------------------------------- deduplication

  function Dedup(tokens: seq<string>): seq<string> {
    if tokens == [] then []
    else
      var kept, last := Dedup(tokens[..|tokens| - 1]), tokens[|tokens| - 1];
      if last == "" || last in kept then kept else kept + [last]
  }

  /** Every non-empty token is kept once. */
  lemma {:induction false} DedupFacts(tokens: seq<string>)
    ensures NoRepeats(Dedup(tokens))
    ensures forall t :: t in Dedup(tokens) <==> t in tokens && t != ""
  {
    if tokens != [] {
      DedupFacts(tokens[..|tokens| - 1]);
      assert tokens == tokens[..|tokens| - 1] + [tokens[|tokens| - 1]];
    }
  }

  /** The kept tokens come in the order of their first appearance: what is kept of a beginning of the list is
      a beginning of what is kept. */
  lemma {:induction false} DedupKeepsOrder(tokens: seq<string>, n: nat)
    requires n <= |tokens|
    ensures Dedup(tokens[..n]) <= Dedup(tokens)
  {
    if n < |tokens| {
      DedupKeepsOrder(tokens[..|tokens| - 1], n);
      assert tokens[..|tokens| - 1][..n] == tokens[..n];
    } else {
      assert tokens[..n] == tokens;
    }
  }

  // ---------------------------------------------------------------- the scan

  /** The token at a position of the endless repetition of the tokens. */
  function At(tokens: seq<string>, x: int): string
    requires tokens != []
  {
    tokens[x % |tokens|]
  }

  /** The class of tokens that a scan looks for, which may change from one offset to the next. */
  type Class = nat -> set<string>

  function Always(members: set<string>): Class {
    (offset: nat) => members
  }

  predicate GoodAt(tokens: seq<string>, x: int, offset: nat, good: Class)
    requires tokens != []
  {
    At(tokens, x + offset) in good(offset)
  }

  /** The first offset from a position at which a token of the class stands, or the number of tokens. */
  function FirstHit(tokens: seq<string>, x: int, good: Class, offset: nat): (first: nat)
    requires tokens != [] && offset <= |tokens|
    ensures offset <= first <= |tokens|
    ensures first < |tokens| ==> GoodAt(tokens, x, first, good)
    ensures forall o: nat :: offset <= o < first ==> !GoodAt(tokens, x, o, good)
    decreases |tokens| - offset
  {
    if offset == |tokens| || GoodAt(tokens, x, offset, good) then offset
    else FirstHit(tokens, x, good, offset + 1)
  }

  /** The token that two scans find, the second one in case that the first fails. */
  function Scan(tokens: seq<string>, x: int, preferred: Class, available: Class): string
    requires tokens != []
  {
    var p := FirstHit(tokens, x, preferred, 0);
    var a := FirstHit(tokens, x, available, 0);
    if p < |tokens| then At(tokens, x + p)
    else if a < |tokens| then At(tokens, x + a)
    else At(tokens, x)
  }

  /** The same while the classes do not change. */
  function Pick(tokens: seq<string>, x: int, preferred: set<string>, available: set<string>): string
    requires tokens != []
  {
    Scan(tokens, x, Always(preferred), Always(available))
  }

  lemma {:induction false} FirstHitOfSame(tokens: seq<string>, x: int, good: Class, other: Class, offset: nat)
    requires tokens != [] && offset <= |tokens|
    requires forall o: nat :: offset <= o < |tokens| ==> good(o) == other(o)
    ensures FirstHit(tokens, x, good, offset) == FirstHit(tokens, x, other, offset)
    decreases |tokens| - offset
  {
    hide At;
    if offset < |tokens| {
      FirstHitOfSame(tokens, x, good, other, offset + 1);
    }
  }

  lemma {:induction false} ScanOfSame(
    tokens: seq<string>, x: int, preferred: Class, available: Class, p: set<string>, a: set<string>)
    requires tokens != [] && forall o: nat :: o < |tokens| ==> preferred(o) == p && available(o) == a
    ensures Scan(tokens, x, preferred, available) == Pick(tokens, x, p, a)
  {
    hide At;
    FirstHitOfSame(tokens, x, preferred, Always(p), 0);
    FirstHitOfSame(tokens, x, available, Always(a), 0);
  }

  // ---------------------------------------------------------------- modular arithmetic

  lemma {:induction false} MulAtLeast(a: nat, n: nat)
    requires a > 0
    ensures a * n >= n
  {
    if a > 1 {
      MulAtLeast(a - 1, n);
    }
    assert a * n == (a - 1) * n + n;
  }

  lemma DivUnique(x: int, n: nat, q: int, r: nat)
    requires n > 0 && r < n && x == q * n + r
    ensures x % n == r
  {
    var q' := x / n;
    var d := q - q';
    assert x == q' * n + x % n;
    assert d * n == q * n - q' * n && (-d) * n == -(d * n);
    if d > 0 {
      MulAtLeast(d, n);
    } else if d < 0 {
      MulAtLeast(-d, n);
    }
  }

  lemma ModShift(x: int, q: int, n: nat)
    requires n > 0
    ensures (x + q * n) % n == x % n
  {
    assert x == (x / n) * n + x % n;
    assert (x / n + q) * n == (x / n) * n + q * n;
    DivUnique(x + q * n, n, x / n + q, x % n);
  }

  lemma ModPeriod(x: int, n: nat)
    requires n > 0
    ensures (x + n) % n == x % n
  {
    ModShift(x, 1, n);
  }

  lemma ModAdd(c: nat, offset: nat, n: nat)
    requires n > 0
    ensures (c % n + offset) % n == (c + offset) % n
  {
    ModShift(c % n + offset, c / n, n);
    assert c + offset == c % n + offset + (c / n) * n;
  }

  /** The index arithmetic of the scan. */
  lemma IndexAt(tokens: seq<string>, counter: nat, offset: nat)
    requires tokens != []
    ensures counter % |tokens| < |tokens|
    ensures (counter % |tokens| + offset) % |tokens| < |tokens|
    ensures tokens[(counter % |tokens| + offset) % |tokens|] == At(tokens, counter + offset)
    ensures At(tokens, counter + offset) in tokens
    ensures offset == 0 ==> (counter % |tokens| + offset) % |tokens| == counter % |tokens|
  {
    ModAdd(counter, offset, |tokens|);
  }

  /** A scan that passed the offsets before a hit, or all of them, has found the first hit. */
  lemma ScanStops(tokens: seq<string>, x: int, offset: nat, good: Class)
    requires tokens != [] && offset <= |tokens|
    requires forall o: nat :: o < offset ==> !GoodAt(tokens, x, o, good)
    requires offset < |tokens| ==> GoodAt(tokens, x, offset, good)
    ensures FirstHit(tokens, x, good, 0) == offset
  {
  }

  lemma AtPeriod(tokens: seq<string>, x: int)
    requires tokens != []
    ensures At(tokens, x + |tokens|) == At(tokens, x)
  {
    ModPeriod(x, |tokens|);
  }

  // ---------------------------------------------------------------- classes

  /** The scan sees every token. */
  lemma ScanFinds(tokens: seq<string>, x: int, good: set<string>, t: string)
    requires tokens != [] && t in tokens && t in good
    ensures FirstHit(tokens, x, Always(good), 0) < |tokens|
  {
    var n := |tokens|;
    var i :| 0 <= i < n && tokens[i] == t;
    var offset := Reach(x, i, n);
    assert GoodAt(tokens, x, offset, Always(good));
  }

  lemma Reach(x: int, i: nat, n: nat) returns (offset: nat)
    requires i < n
    ensures offset < n && (x + offset) % n == i
  {
    offset := (i - x) % n;
    var q := (i - x) / n;
    assert i - x == q * n + offset;
    assert x + offset == (-q) * n + i;
    DivUnique(x + offset, n, -q, i);
  }

  /** The chosen token is a preferred one if there is any, else one out of cooldown if there is
      any, else the token at the index. */
  lemma PickClass(tokens: seq<string>, x: int, preferred: set<string>, available: set<string>)
    requires tokens != []
    ensures var t := Pick(tokens, x, preferred, available);
            && t in tokens
            && ((exists u :: u in tokens && u in preferred) ==> t in preferred)
            && ((forall u <- tokens :: u !in preferred) && (exists u :: u in tokens && u in available) ==>
                 t in available)
            && ((forall u <- tokens :: u !in preferred && u !in available) ==> t == tokens[x % |tokens|])
  {
    if u :| u in tokens && u in preferred {
      ScanFinds(tokens, x, preferred, u);
    } else if u :| u in tokens && u in available {
      ScanFinds(tokens, x, available, u);
    }
  }

  // ---------------------------------------------------------------- rotation

  /** How often the token is chosen for the counter values of a window. */
  function Picks(tokens: seq<string>, preferred: set<string>, available: set<string>, t: string, lo: int, hi: int): nat
    requires tokens != []
    decreases hi - lo
  {
    if hi <= lo then 0
    else
      Picks(tokens, preferred, available, t, lo, hi - 1)
      + (if Pick(tokens, hi - 1, preferred, available) == t then 1 else 0)
  }

  predicate PreferredBefore(tokens: seq<string>, preferred: set<string>, p: nat, distance: nat)
    requires tokens != []
  {
    At(tokens, p - distance) in preferred
  }

  /** The cyclic distance from the previous preferred position, at least `from`. */
  function Gap(tokens: seq<string>, preferred: set<string>, p: nat, from: nat): (g: nat)
    requires p < |tokens| && tokens[p] in preferred && 1 <= from <= |tokens|
    ensures from <= g <= |tokens| && PreferredBefore(tokens, preferred, p, g)
    ensures forall d: nat :: from <= d < g ==> !PreferredBefore(tokens, preferred, p, d)
    decreases |tokens| - from
  {
    if PreferredBefore(tokens, preferred, p, from) then from
    else
      assert from < |tokens| by {
        FullCircle(tokens, p);
      }
      Gap(tokens, preferred, p, from + 1)
  }

  lemma FullCircle(tokens: seq<string>, p: nat)
    requires p < |tokens|
    ensures At(tokens, p - |tokens|) == tokens[p] == At(tokens, p)
  {
    ModPeriod(p - |tokens|, |tokens|);
  }

  lemma BackStep(tokens: seq<string>, p: nat, g: nat)
    requires NoRepeats(tokens) && p < |tokens| && 1 <= g < |tokens|
    ensures At(tokens, p - g) != tokens[p]
  {
    if p < g {
      ModPeriod(p - g, |tokens|);
    }
  }

  /** Counting down from a preferred position, the scan stops there exactly until the previous
      preferred position is reached. */
  lemma PickBehind(tokens: seq<string>, preferred: set<string>, available: set<string>, p: nat, d: nat)
    requires NoRepeats(tokens) && p < |tokens| && tokens[p] in preferred && d < |tokens|
    ensures Pick(tokens, p - d, preferred, available) == tokens[p] <==> d < Gap(tokens, preferred, p, 1)
  {
    hide At, NoRepeats;
    var gap := Gap(tokens, preferred, p, 1);
    var first := FirstHit(tokens, p - d, Always(preferred), 0);
    FullCircle(tokens, p);
    assert p - d + d == p;
    assert GoodAt(tokens, p - d, d, Always(preferred));
    if gap <= d {
      assert p - d + (d - gap) == p - gap;
      assert GoodAt(tokens, p - d, d - gap, Always(preferred));
    }
    if first < d {
      assert p - d + first == p - (d - first);
      assert PreferredBefore(tokens, preferred, p, d - first);
      BackStep(tokens, p, d - first);
    }
  }

  lemma {:induction false} PicksBehind(
    tokens: seq<string>, preferred: set<string>, available: set<string>, p: nat, d: nat)
    requires NoRepeats(tokens) && p < |tokens| && tokens[p] in preferred && d <= |tokens|
    ensures var gap := Gap(tokens, preferred, p, 1);
            Picks(tokens, preferred, available, tokens[p], p - |tokens| + 1, p + 1 - d) ==
            if d <= gap then gap - d else 0
    decreases |tokens| - d
  {
    hide At, NoRepeats, Pick;
    if d < |tokens| {
      PicksBehind(tokens, preferred, available, p, d + 1);
      PickBehind(tokens, preferred, available, p, d);
    }
  }

  lemma {:induction false} FirstHitPeriod(tokens: seq<string>, x: int, good: Class, offset: nat)
    requires tokens != [] && offset <= |tokens|
    ensures FirstHit(tokens, x + |tokens|, good, offset) == FirstHit(tokens, x, good, offset)
    decreases |tokens| - offset
  {
    hide At;
    if offset < |tokens| {
      AtPeriod(tokens, x + offset);
      assert x + |tokens| + offset == x + offset + |tokens|;
      FirstHitPeriod(tokens, x, good, offset + 1);
    }
  }

  lemma PickPeriod(tokens: seq<string>, x: int, preferred: set<string>, available: set<string>)
    requires tokens != []
    ensures Pick(tokens, x + |tokens|, preferred, available) == Pick(tokens, x, preferred, available)
  {
    hide At;
    FirstHitPeriod(tokens, x, Always(preferred), 0);
    FirstHitPeriod(tokens, x, Always(available), 0);
    var p, a := FirstHit(tokens, x, Always(preferred), 0), FirstHit(tokens, x, Always(available), 0);
    AtPeriod(tokens, x);
    AtPeriod(tokens, x + p);
    AtPeriod(tokens, x + a);
    assert x + |tokens| + p == x + p + |tokens| && x + |tokens| + a == x + a + |tokens|;
  }

  lemma {:induction false} PicksFirst(
    tokens: seq<string>, preferred: set<string>, available: set<string>, t: string, lo: int, hi: int)
    requires tokens != [] && lo < hi
    ensures Picks(tokens, preferred, available, t, lo, hi) ==
            (if Pick(tokens, lo, preferred, available) == t then 1 else 0)
            + Picks(tokens, preferred, available, t, lo + 1, hi)
    decreases hi - lo
  {
    if lo + 1 < hi {
      PicksFirst(tokens, preferred, available, t, lo, hi - 1);
    }
  }

  /** Windows as long as the token list all count the same. */
  lemma {:induction false} WindowsAgree(
    tokens: seq<string>, preferred: set<string>, available: set<string>, t: string, lo: int, c: int)
    requires tokens != [] && lo <= c
    ensures Picks(tokens, preferred, available, t, c, c + |tokens|) ==
            Picks(tokens, preferred, available, t, lo, lo + |tokens|)
    decreases c - lo
  {
    hide Pick;
    if lo < c {
      WindowsAgree(tokens, preferred, available, t, lo, c - 1);
      PicksFirst(tokens, preferred, available, t, c - 1, c - 1 + |tokens|);
      PickPeriod(tokens, c - 1, preferred, available);
      assert c - 1 + |tokens| == c + |tokens| - 1;
    }
  }

  /** Exact rotation: in any window of as many calls as there are tokens, a preferred token is
      chosen as often as its position is away from the previous preferred one. */
  lemma PreferredShare(tokens: seq<string>, preferred: set<string>, available: set<string>, p: nat, c: nat)
    requires NoRepeats(tokens) && p < |tokens| && tokens[p] in preferred
    ensures Picks(tokens, preferred, available, tokens[p], c, c + |tokens|) == Gap(tokens, preferred, p, 1)
  {
    hide Pick, Picks, Gap, NoRepeats;
    PicksBehind(tokens, preferred, available, p, 0);
    WindowsAgree(tokens, preferred, available, tokens[p], p + 1 - |tokens|, c);
  }

  /** And no other token is chosen at all. */
  lemma {:induction false} OthersNever(
    tokens: seq<string>, preferred: set<string>, available: set<string>, p: nat, t: string, lo: int, hi: int)
    requires p < |tokens| && tokens[p] in preferred && t !in preferred
    ensures Picks(tokens, preferred, available, t, lo, hi) == 0
    decreases hi - lo
  {
    if lo < hi {
      OthersNever(tokens, preferred, available, p, t, lo, hi - 1);
      assert tokens[p] in tokens;
      PickClass(tokens, hi - 1, preferred, available);
    }
  }

  // ---------------------------------------------------------------- the provider

  class RoundRobinTokenProvider {
    const tokens: seq<string>
    const tokenSet: set<string>
    const threshold: int
    const cooldownDuration: int
    var nextIndex: nat
    var remaining: map<string, nat>
    var cooldownUntil: map<string, int>

    ghost predicate Valid()
      reads this
    {
      && NoRepeats(tokens) && "" !in tokens && tokenSet == (set t <- tokens)
      && nextIndex < UINT64_RANGE
      && remaining.Keys <= tokenSet && cooldownUntil.Keys <= tokenSet
    }

    constructor (given: seq<string>, threshold: int, cooldownDuration: int)
      ensures Valid() && tokens == Dedup(given) && nextIndex == 0 && remaining == map[] && cooldownUntil == map[]
      ensures this.threshold == threshold && this.cooldownDuration == cooldownDuration
    {
      var kept: seq<string>, members: set<string> := [], {};
      for i := 0 to |given|
        invariant kept == Dedup(given[..i]) && members == (set t <- kept)
      {
        assert given[..i + 1][..i] == given[..i];
        var token := given[i];
        if token == "" || token in members {
          continue;
        }
        kept := kept + [token];
        members := members + {token};
      }
      assert given[..|given|] == given;
      DedupFacts(given);
      tokens, tokenSet := kept, members;
      nextIndex, remaining, cooldownUntil := 0, map[], map[];
      this.threshold, this.cooldownDuration := threshold, cooldownDuration;
    }

    predicate InCooldown(token: string, now: int)
      reads `cooldownUntil
    {
      CoolsDown(cooldownUntil, token, now)
    }

    predicate IsPreferred(token: string, now: int)
      reads `remaining, `cooldownUntil
    {
      HasRoom(threshold, remaining, cooldownUntil, token, now)
    }

    ghost function Preferred(now: int): set<string>
      reads `remaining, `cooldownUntil
    {
      set t | t in tokens && IsPreferred(t, now)
    }

    ghost function Available(now: int): set<string>
      reads `cooldownUntil
    {
      set t | t in tokens && !InCooldown(t, now)
    }

    /** The classes as the two scans see them, with a new reading of the clock for every token. */
    ghost function PreferredOver(clock: nat -> int): Class
      reads `remaining, `cooldownUntil
    {
      var (r, c) := (remaining, cooldownUntil);
      (offset: nat) => set t | t in tokens && HasRoom(threshold, r, c, t, clock(offset))
    }

    ghost function AvailableOver(clock: nat -> int): Class
      reads `cooldownUntil
    {
      var c := cooldownUntil;
      (offset: nat) => set t | t in tokens && !CoolsDown(c, t, clock(|tokens| + offset))
    }

    /** `clock` gives the reading for each token that is looked at, of the first scan and then of the second,
        and `reading` tells with which of them the token was found. */
    method NextToken(clock: nat -> int) returns (token: string, ghost reading: nat)
      requires Valid()
      modifies this`nextIndex
      ensures Valid()
      ensures tokens == [] ==> token == "" && nextIndex == old(nextIndex)
      ensures tokens != [] ==> nextIndex == (old(nextIndex) + 1) % 18_446_744_073_709_551_616
      ensures tokens != [] ==> token == Scan(tokens, old(nextIndex), PreferredOver(clock), AvailableOver(clock))
      ensures tokens != [] ==>
                FoundAt(tokens, threshold, remaining, cooldownUntil, old(nextIndex), clock, token, reading)
      ensures (exists t :: t in tokens &&
                 QualifiesThroughout(tokens, threshold, remaining, cooldownUntil, clock, t)) ==>
                && (token !in cooldownUntil || cooldownUntil[token] <= clock(reading))
                && (threshold <= 0 || token !in remaining || remaining[token] >= threshold)
    {
      hide At, FirstHit, FoundAt, QualifiesThroughout;
      reading := 0;
      if |tokens| == 0 {
        return "", 0;
      }
      ghost var counter := nextIndex;
      ghost var preferred, available := PreferredOver(clock), AvailableOver(clock);
      var index := nextIndex % |tokens|;
      nextIndex := (nextIndex + 1) % UINT64_RANGE;
      for offset := 0 to |tokens|
        invariant nextIndex == (counter + 1) % UINT64_RANGE
        invariant forall o: nat :: o < offset ==> !GoodAt(tokens, counter, o, preferred)
      {
        IndexAt(tokens, counter, offset);
        token := tokens[(index + offset) % |tokens|];
        if IsPreferred(token, clock(offset)) {
          ScanStops(tokens, counter, offset, preferred);
          reading := WhatIsFound(counter, clock);
          return;
        }
      }
      ScanStops(tokens, counter, |tokens|, preferred);
      for offset := 0 to |tokens|
        invariant nextIndex == (counter + 1) % UINT64_RANGE
        invariant forall o: nat :: o < offset ==> !GoodAt(tokens, counter, o, available)
      {
        IndexAt(tokens, counter, offset);
        token := tokens[(index + offset) % |tokens|];
        if !InCooldown(token, clock(|tokens| + offset)) {
          ScanStops(tokens, counter, offset, available);
          reading := WhatIsFound(counter, clock);
          return;
        }
      }
      ScanStops(tokens, counter, |tokens|, available);
      IndexAt(tokens, counter, 0);
      reading := WhatIsFound(counter, clock);
      token := tokens[index];
    }

    /** What the scans find, said of the observations themselves. */
    lemma WhatIsFound(counter: nat, clock: nat -> int) returns (reading: nat)
      requires tokens != []
      ensures var token := Scan(tokens, counter, PreferredOver(clock), AvailableOver(clock));
              && FoundAt(tokens, threshold, remaining, cooldownUntil, counter, clock, token, reading)
              && ((exists t :: t in tokens &&
                     QualifiesThroughout(tokens, threshold, remaining, cooldownUntil, clock, t)) ==>
                    && (token !in cooldownUntil || cooldownUntil[token] <= clock(reading))
                    && (threshold <= 0 || token !in remaining || remaining[token] >= threshold))
    {
      hide At, GoodAt, PreferredOver, AvailableOver, FirstHit;
      var n, preferred, available := |tokens|, PreferredOver(clock), AvailableOver(clock);
      var p, a := FirstHit(tokens, counter, preferred, 0), FirstHit(tokens, counter, available, 0);
      reading := if p < n then p else if a < n then n + a else 2 * n;
      forall o: nat | o < n
        ensures GoodAt(tokens, counter, o, preferred) <==>
                !IsPassed(At(tokens, counter + o), threshold, remaining, cooldownUntil, clock(o))
      {
        PreferredAt(counter, clock, o);
      }
      forall o: nat | n <= o < 2 * n && o < reading
        ensures IsPassedAgain(At(tokens, counter + o), cooldownUntil, clock(o))
      {
        AvailableAt(counter, clock, o);
        var k: nat := o - n;
        assert !GoodAt(tokens, counter, k, available);
      }
      if n <= reading < 2 * n {
        AvailableAt(counter, clock, reading);
      }
      PositionOf(counter, a);
      PositionOf(counter, 0);
      var token := Scan(tokens, counter, preferred, available);
      assert token == At(tokens, counter + reading);
      if t :| t in tokens && QualifiesThroughout(tokens, threshold, remaining, cooldownUntil, clock, t) {
        var offset := SomewhereOnce(counter, t);
        assert !IsPassed(At(tokens, counter + offset), threshold, remaining, cooldownUntil, clock(offset));
      }
    }

    lemma SomewhereOnce(counter: nat, t: string) returns (offset: nat)
      requires t in tokens
      ensures offset < |tokens| && At(tokens, counter + offset) == t
    {
      var i :| 0 <= i < |tokens| && tokens[i] == t;
      offset := Reach(counter, i, |tokens|);
    }

    lemma PreferredAt(counter: nat, clock: nat -> int, o: nat)
      requires o < |tokens|
      ensures GoodAt(tokens, counter, o, PreferredOver(clock)) <==>
              !IsPassed(At(tokens, counter + o), threshold, remaining, cooldownUntil, clock(o))
    {
      InTokens(tokens, counter + o);
    }

    lemma AvailableAt(counter: nat, clock: nat -> int, o: nat)
      requires |tokens| <= o < 2 * |tokens|
      ensures GoodAt(tokens, counter, o - |tokens|, AvailableOver(clock)) <==>
              !IsPassedAgain(At(tokens, counter + o), cooldownUntil, clock(o))
    {
      hide At;
      var k: nat := o - |tokens|;
      var t := At(tokens, counter + k);
      InTokens(tokens, counter + k);
      AtPeriod(tokens, counter + k);
      assert counter + k + |tokens| == counter + o;
      assert t in AvailableOver(clock)(k) <==> !CoolsDown(cooldownUntil, t, clock(|tokens| + k));
    }

    lemma PositionOf(counter: nat, o: nat)
      requires tokens != []
      ensures At(tokens, counter + (|tokens| + o)) == At(tokens, counter + o)
      ensures At(tokens, counter + (2 * |tokens| + o)) == At(tokens, counter + o)
    {
      hide At;
      AtPeriod(tokens, counter + o);
      AtPeriod(tokens, counter + o + |tokens|);
      assert counter + (|tokens| + o) == counter + o + |tokens|;
      assert counter + (2 * |tokens| + o) == counter + o + |tokens| + |tokens|;
    }

    /** The preferred tokens, said of the observations themselves. */
    lemma PreferredAre(now: int)
      ensures Preferred(now) == Qualified(tokens, threshold, remaining, cooldownUntil, now)
      ensures forall t :: t in Preferred(now) <==> t in tokens && IsPreferred(t, now)
    {
    }

    /** A clock that does not go back makes both classes grow. */
    lemma ClassesGrow(clock: nat -> int)
      requires forall i: nat, j: nat :: i <= j ==> clock(i) <= clock(j)
      ensures Grows(PreferredOver(clock)) && Grows(AvailableOver(clock))
    {
      var available := AvailableOver(clock);
      forall i: nat, j: nat, t | i <= j && t in available(i) ensures t in available(j) {
        var early, late: nat := |tokens| + i, |tokens| + j;
        assert clock(early) <= clock(late);
        assert !CoolsDown(cooldownUntil, t, clock(early));
        assert !CoolsDown(cooldownUntil, t, clock(late));
      }
    }

    /** While the clock stands still, or no cooldown ends between its readings, the classes do not change. */
    lemma SteadyClock(clock: nat -> int, now: int, x: int)
      requires tokens != []
      requires forall i: nat, t :: i < 2 * |tokens| && t in tokens ==> (InCooldown(t, clock(i)) <==> InCooldown(t, now))
      ensures Scan(tokens, x, PreferredOver(clock), AvailableOver(clock)) ==
              Pick(tokens, x, Preferred(now), Available(now))
    {
      hide Scan, Pick;
      var preferred, available := PreferredOver(clock), AvailableOver(clock);
      forall o: nat | o < |tokens| ensures preferred(o) == Preferred(now) && available(o) == Available(now) {
        assert forall t :: t in tokens ==> (InCooldown(t, clock(o)) <==> InCooldown(t, now));
        assert forall t :: t in tokens ==> (InCooldown(t, clock(|tokens| + o)) <==> InCooldown(t, now));
      }
      ScanOfSame(tokens, x, preferred, available, Preferred(now), Available(now));
    }

    method ObserveTokenRemaining(token: string, count: int)
      requires Valid()
      modifies this`remaining
      ensures Valid()
      ensures remaining ==
              if token in tokens then old(remaining)[token := if count < 0 then 0 else count] else old(remaining)
    {
      if token == "" || token !in tokenSet {
        return;
      }
      remaining := remaining[token := if count < 0 then 0 else count];
    }

    method ObserveRateLimitedToken(token: string, now: int)
      requires Valid()
      modifies this`cooldownUntil
      ensures Valid()
      ensures cooldownUntil ==
              if token in tokens then old(cooldownUntil)[token := now + cooldownDuration] else old(cooldownUntil)
    {
      if token == "" || token !in tokenSet {
        return;
      }
      cooldownUntil := cooldownUntil[token := now + cooldownDuration];
    }
  }

  /** The token is out of cooldown at every reading of the first scan, and no observed count of it is below
      the threshold, if there is one. */
  predicate QualifiesThroughout(tokens: seq<string>, threshold: int, remaining: map<string, nat>,
                                cooldownUntil: map<string, int>, clock: nat -> int, t: string)
  {
    && (t in cooldownUntil ==> forall i: nat | i < |tokens| :: cooldownUntil[t] <= clock(i))
    && (threshold > 0 && t in remaining ==> threshold <= remaining[t])
  }

  /** The token is the first one in cyclic order from the counter that is out of cooldown when it is looked at
      and not known to be below the threshold; if there is none, the first one that is out of cooldown when it
      is looked at for the second time; if there is none either, the one at the counter. */
  ghost predicate FoundAt(tokens: seq<string>, threshold: int, remaining: map<string, nat>,
                          cooldownUntil: map<string, int>, counter: nat, clock: nat -> int, token: string, reading: nat)
    requires tokens != []
  {
    var n := |tokens|;
    && reading <= 2 * n && token == At(tokens, counter + reading)
    && (reading < n ==>
          && (token in cooldownUntil ==> cooldownUntil[token] <= clock(reading))
          && (threshold > 0 && token in remaining ==> threshold <= remaining[token]))
    && (forall o: nat | o < n && o < reading ::
          IsPassed(At(tokens, counter + o), threshold, remaining, cooldownUntil, clock(o)))
    && (n <= reading < 2 * n ==> token in cooldownUntil ==> cooldownUntil[token] <= clock(reading))
    && (forall o: nat | n <= o < 2 * n && o < reading ::
          IsPassedAgain(At(tokens, counter + o), cooldownUntil, clock(o)))
  }

  /** The first scan goes on: the token cools down, or its observed count is below the threshold. */
  predicate IsPassed(
    t: string, threshold: int, remaining: map<string, nat>, cooldownUntil: map<string, int>, now: int) {
    || (t in cooldownUntil && now < cooldownUntil[t])
    || (threshold > 0 && t in remaining && remaining[t] < threshold)
  }

  /** The second scan goes on: the token cools down. */
  predicate IsPassedAgain(t: string, cooldownUntil: map<string, int>, now: int) {
    t in cooldownUntil && now < cooldownUntil[t]
  }

  /** The tokens that are out of cooldown at a moment and not known to be below the threshold. */
  function Qualified(tokens: seq<string>, threshold: int, remaining: map<string, nat>, cooldownUntil: map<string, int>,
                     now: int): set<string>
  {
    set t | t in tokens
            && (t in cooldownUntil ==> cooldownUntil[t] <= now)
            && (threshold > 0 && t in remaining ==> threshold <= remaining[t])
  }

  predicate CoolsDown(cooldownUntil: map<string, int>, token: string, now: int) {
    token in cooldownUntil && now < cooldownUntil[token]
  }

  predicate HasRoom(
    threshold: int, remaining: map<string, nat>, cooldownUntil: map<string, int>, token: string, now: int) {
    !CoolsDown(cooldownUntil, token, now) && (threshold <= 0 || token !in remaining || remaining[token] >= threshold)
  }

  /** The class loses nothing, as those of a clock that does not go back. */
  ghost predicate Grows(good: Class) {
    forall i: nat, j: nat :: i <= j ==> good(i) <= good(j)
  }

  /** Whatever cooldowns end while it is chosen: while some token is preferred from the first reading on, the
      chosen one is preferred by the last; the same for tokens out of cooldown; and only if none is either
      to the end is it the token at the index. */
  lemma {:induction false} ScanClass(tokens: seq<string>, x: int, preferred: Class, available: Class)
    requires tokens != [] && Grows(preferred) && Grows(available)
    ensures var t, n := Scan(tokens, x, preferred, available), |tokens|;
            && t in tokens
            && ((exists u :: u in tokens && u in preferred(0)) ==> t in preferred(n))
            && ((exists u :: u in tokens && u in available(0)) ==> t in preferred(n) || t in available(n))
            && ((forall u <- tokens :: u !in preferred(n) && u !in available(n)) ==> t == tokens[x % n])
  {
    hide At, Grows;
    var n := |tokens|;
    HitOfClass(tokens, x, preferred);
    HitOfClass(tokens, x, available);
    InTokens(tokens, x);
    if u :| u in tokens && u in preferred(0) {
      SomewhereAhead(tokens, x, u, preferred);
    }
    if u :| u in tokens && u in available(0) {
      SomewhereAhead(tokens, x, u, available);
    }
  }

  lemma HitOfClass(tokens: seq<string>, x: int, good: Class)
    requires tokens != [] && Grows(good)
    ensures var h := FirstHit(tokens, x, good, 0);
            h < |tokens| ==> At(tokens, x + h) in tokens && At(tokens, x + h) in good(|tokens|)
  {
    var h := FirstHit(tokens, x, good, 0);
    assert good(h) <= good(|tokens|);
    InTokens(tokens, x + h);
  }

  lemma InTokens(tokens: seq<string>, x: int)
    requires tokens != []
    ensures At(tokens, x) in tokens && At(tokens, x) == tokens[x % |tokens|]
  {
  }

  lemma SomewhereAhead(tokens: seq<string>, x: int, t: string, good: Class)
    requires tokens != [] && t in tokens && t in good(0) && Grows(good)
    ensures FirstHit(tokens, x, good, 0) < |tokens|
  {
    var i :| 0 <= i < |tokens| && tokens[i] == t;
    var offset := Reach(x, i, |tokens|);
    assert good(0) <= good(offset);
    assert GoodAt(tokens, x, offset, good);
  }

  /** A token whose observed count is below the threshold is not handed out while another one qualifies. */
  method ExhaustedIsAvoided(provider: RoundRobinTokenProvider, t: string, count: int, clock: nat -> int)
    returns (token: string)
    requires provider.Valid() && t in provider.tokens && count < provider.threshold && 0 < provider.threshold
    requires exists u :: u in provider.tokens && u != t &&
               QualifiesThroughout(provider.tokens, provider.threshold, provider.remaining, provider.cooldownUntil,
                                   clock, u)
    modifies provider`remaining, provider`nextIndex
    ensures provider.Valid() && token in provider.tokens && token != t
  {
    hide FoundAt, Scan;
    ghost var u :| u in provider.tokens && u != t &&
      QualifiesThroughout(provider.tokens, provider.threshold, provider.remaining, provider.cooldownUntil, clock, u);
    provider.ObserveTokenRemaining(t, count);
    assert QualifiesThroughout(provider.tokens, provider.threshold, provider.remaining, provider.cooldownUntil,
                               clock, u);
    ghost var counter := provider.nextIndex;
    ghost var reading;
    token, reading := provider.NextToken(clock);
    FoundIsThere(provider.tokens, provider.threshold, provider.remaining, provider.cooldownUntil, counter, clock, token,
                 reading);
  }

  /** A rate-limited token is not handed out before its cooldown has passed while another one qualifies. */
  method RateLimitedIsAvoided(provider: RoundRobinTokenProvider, t: string, now: int, clock: nat -> int)
    returns (token: string)
    requires provider.Valid() && t in provider.tokens
    requires forall i: nat | i <= 2 * |provider.tokens| :: clock(i) < now + provider.cooldownDuration
    requires exists u :: u in provider.tokens && u != t &&
               QualifiesThroughout(provider.tokens, provider.threshold, provider.remaining, provider.cooldownUntil,
                                   clock, u)
    modifies provider`cooldownUntil, provider`nextIndex
    ensures provider.Valid() && token in provider.tokens && token != t
  {
    hide FoundAt, Scan;
    ghost var u :| u in provider.tokens && u != t &&
      QualifiesThroughout(provider.tokens, provider.threshold, provider.remaining, provider.cooldownUntil, clock, u);
    provider.ObserveRateLimitedToken(t, now);
    assert QualifiesThroughout(provider.tokens, provider.threshold, provider.remaining, provider.cooldownUntil,
                               clock, u);
    ghost var counter := provider.nextIndex;
    ghost var reading;
    token, reading := provider.NextToken(clock);
    FoundIsThere(provider.tokens, provider.threshold, provider.remaining, provider.cooldownUntil, counter, clock, token,
                 reading);
  }

  lemma FoundIsThere(tokens: seq<string>, threshold: int, remaining: map<string, nat>, cooldownUntil: map<string, int>,
                     counter: nat, clock: nat -> int, token: string, reading: nat)
    requires tokens != [] && FoundAt(tokens, threshold, remaining, cooldownUntil, counter, clock, token, reading)
    ensures token in tokens && reading <= 2 * |tokens|
  {
    InTokens(tokens, counter + reading);
  }

  /** A round of as many calls as there are tokens, without observations and without the counter
      wrapping: every preferred token is returned exactly as often as its cyclic distance from
      the previous preferred one says, and nothing else is returned. */
  method FullRound(provider: RoundRobinTokenProvider, now: int) returns (chosen: seq<string>)
    requires provider.Valid() && provider.nextIndex + |provider.tokens| < UINT64_RANGE
    requires Qualified(provider.tokens, provider.threshold, provider.remaining, provider.cooldownUntil, now) != {}
    modifies provider`nextIndex
    ensures provider.Valid() && |chosen| == |provider.tokens|
    ensures var preferred :=
              Qualified(provider.tokens, provider.threshold, provider.remaining, provider.cooldownUntil, now);
            && (forall t <- chosen :: t in preferred)
            && forall p: nat :: p < |provider.tokens| && provider.tokens[p] in preferred ==>
                 multiset(chosen)[provider.tokens[p]] == Gap(provider.tokens, preferred, p, 1)
  {
    hide Gap, Qualified, HasRoom, NoRepeats, RoundRobinTokenProvider.Preferred, RoundRobinTokenProvider.IsPreferred;
    provider.PreferredAre(now);
    chosen := OneRound(provider, now);
    provider.PreferredAre(now);
    ghost var tokens, preferred := provider.tokens, provider.Preferred(now);
    assert forall p: nat :: p < |tokens| && tokens[p] in preferred ==>
             multiset(chosen)[tokens[p]] == Gap(tokens, preferred, p, 1);
  }

  method OneRound(provider: RoundRobinTokenProvider, now: int) returns (chosen: seq<string>)
    requires provider.Valid() && provider.nextIndex + |provider.tokens| < UINT64_RANGE
    requires provider.Preferred(now) != {}
    modifies provider`nextIndex
    ensures provider.Valid() && |chosen| == |provider.tokens|
    ensures forall p: nat :: p < |provider.tokens| && provider.IsPreferred(provider.tokens[p], now) ==>
              multiset(chosen)[provider.tokens[p]] == Gap(provider.tokens, provider.Preferred(now), p, 1)
    ensures forall t <- chosen :: t in provider.tokens && provider.IsPreferred(t, now)
  {
    hide Pick, Gap, Picks, NoRepeats;
    ghost var preferred, available := provider.Preferred(now), provider.Available(now);
    ghost var tokens, counter := provider.tokens, provider.nextIndex;
    chosen := [];
    for i := 0 to |provider.tokens|
      invariant provider.Valid() && provider.nextIndex == counter + i && |chosen| == i
      invariant provider.Preferred(now) == preferred && provider.Available(now) == available
      invariant forall j :: 0 <= j < i ==> chosen[j] == Pick(tokens, counter + j, preferred, available)
    {
      assert (counter + i + 1) % UINT64_RANGE == counter + i + 1;
      provider.SteadyClock(_ => now, now, counter + i);
      var token, _ := provider.NextToken(_ => now);
      chosen := chosen + [token];
    }
    ghost var some :| some in preferred;
    forall t | t in chosen ensures t in tokens && provider.IsPreferred(t, now) {
      var j :| 0 <= j < |chosen| && chosen[j] == t;
      assert some in tokens;
      PickClass(tokens, counter + j, preferred, available);
    }
    forall p: nat | p < |tokens| && provider.IsPreferred(tokens[p], now)
      ensures multiset(chosen)[tokens[p]] == Gap(tokens, preferred, p, 1)
    {
      CountChosen(tokens, preferred, available, counter, chosen, tokens[p]);
      PreferredShare(tokens, preferred, available, p, counter);
    }
  }

  lemma {:induction false} CountChosen(
    tokens: seq<string>, preferred: set<string>, available: set<string>, counter: nat, chosen: seq<string>,
    t: string)
    requires tokens != []
    requires forall j :: 0 <= j < |chosen| ==> chosen[j] == Pick(tokens, counter + j, preferred, available)
    ensures multiset(chosen)[t] == Picks(tokens, preferred, available, t, counter, counter + |chosen|)
  {
    hide Pick;
    if chosen != [] {
      var last := |chosen| - 1;
      assert chosen == chosen[..last] + [chosen[last]];
      CountChosen(tokens, preferred, available, counter, chosen[..last], t);
    }
  }
}
