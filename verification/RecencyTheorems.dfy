/**
  Theorems about whole runs of the L1 cache: which budgets include which, what is retained,
  what a sweep does to the recency order, and how the cache refines the store of the service.
 */
module RecencyTheorems {
  import opened Records
  import opened Recency
  import opened Sequences

  datatype Op = SetOp(key: string, record: Record) | GetOp(key: string)

  function Apply(items: seq<Item>, op: Op, budget: nat): seq<Item> {
    match op
    case SetOp(key, record) => Put(items, key, record, budget)
    case GetOp(key) => Touch(items, key)
  }

  function RunOps(items: seq<Item>, ops: seq<Op>, budget: nat): seq<Item>
    decreases |ops|
  {
    if ops == [] then items else RunOps(Apply(items, ops[0], budget), ops[1..], budget)
  }

  lemma {:induction false} ApplyDistinct(items: seq<Item>, op: Op, budget: nat)
    requires Distinct(items)
    ensures Distinct(Apply(items, op, budget))
  {
    match op
    case SetOp(key, record) =>
      if key != "" {
        PutIsLongestFit(items, key, record, budget);
      }
    case GetOp(key) => TouchDistinct(items, key);
  }

  // ---------------------------------------------------------------- prefixes

  lemma {:induction false} WithoutPrefix(small: seq<Item>, large: seq<Item>, key: string)
    requires small <= large
    ensures Without(small, key) <= Without(large, key)
  {
    if small != [] {
      WithoutPrefix(small[1..], large[1..], key);
    }
  }

  lemma {:induction false} FitsInTrim(order: seq<Item>, prefix: seq<Item>, budget: nat)
    requires prefix <= order && Total(prefix) <= budget
    ensures prefix <= Trim(order, budget)
  {
    TrimIsLongestFit(order, budget);
    assert order[..|prefix|] == prefix;
  }

  lemma {:induction false} TouchPrefix(small: seq<Item>, large: seq<Item>, key: string)
    requires small <= large && Distinct(large) && Has(small, key)
    ensures Touch(small, key) <= Touch(large, key)
  {
    hide Find, Without;
    var i :| 0 <= i < |small| && small[i].key == key;
    WithoutAt(small, i);
    WithoutAt(large, i);
    WithoutPrefix(small, large, key);
  }

  // ---------------------------------------------------------------- inclusion

  /** A Get hits in both caches or misses in both, or the smaller cache is empty anyway. */
  predicate GetAgrees(small: seq<Item>, large: seq<Item>, op: Op) {
    op.GetOp? ==> (Has(small, op.key) <==> Has(large, op.key)) || small == []
  }

  /** Every Get of the run does. */
  predicate GetsAgree(small: seq<Item>, large: seq<Item>, ops: seq<Op>, smallBudget: nat, largeBudget: nat)
    decreases |ops|
  {
    ops != [] ==>
      && GetAgrees(small, large, ops[0])
      && GetsAgree(Apply(small, ops[0], smallBudget), Apply(large, ops[0], largeBudget),
                   ops[1..], smallBudget, largeBudget)
  }

  /** Before the run and after each of its steps the smaller cache is a prefix of the larger one. */
  predicate PrefixThroughout(small: seq<Item>, large: seq<Item>, ops: seq<Op>, smallBudget: nat, largeBudget: nat)
    decreases |ops|
  {
    && small <= large
    && (ops != [] ==> PrefixThroughout(Apply(small, ops[0], smallBudget), Apply(large, ops[0], largeBudget), ops[1..],
                                       smallBudget, largeBudget))
  }

  /** One operation keeps the prefix exactly when it is no Get that tells the caches apart. */
  lemma {:induction false} PrefixStepIff(small: seq<Item>, large: seq<Item>, op: Op, smallBudget: nat, largeBudget: nat)
    requires small <= large && Distinct(large) && smallBudget <= largeBudget
    ensures Apply(small, op, smallBudget) <= Apply(large, op, largeBudget) <==> GetAgrees(small, large, op)
  {
    match op
    case SetOp(key, record) =>
      if key != "" {
        WithoutPrefix(small, large, key);
        var order := [Item(key, record)] + Without(small, key);
        TrimIsLongestFit(order, smallBudget);
        FitsInTrim([Item(key, record)] + Without(large, key), Trim(order, smallBudget), largeBudget);
      }
    case GetOp(key) => TouchPrefixIff(small, large, key);
  }

  lemma {:induction false} TouchPrefixIff(small: seq<Item>, large: seq<Item>, key: string)
    requires small <= large && Distinct(large)
    ensures Touch(small, key) <= Touch(large, key) <==> (Has(small, key) <==> Has(large, key)) || small == []
  {
    hide Find, Without;
    if Has(small, key) {
      TouchPrefix(small, large, key);
      var i :| 0 <= i < |small| && small[i].key == key;
      assert large[i].key == key;
    } else {
      WithoutAbsent(small, key);
      if i :| 0 <= i < |large| && large[i].key == key {
        WithoutAt(large, i);
        assert Touch(large, key)[0].key == key;
      } else {
        WithoutAbsent(large, key);
      }
    }
  }

  /** A cache with a smaller budget stays a prefix of the recency order of one with a larger
      budget, records included, exactly as long as no Get tells them apart. */
  lemma {:induction false} InclusionIff(
    small: seq<Item>, large: seq<Item>, ops: seq<Op>, smallBudget: nat, largeBudget: nat)
    requires small <= large && Distinct(large) && smallBudget <= largeBudget
    ensures PrefixThroughout(small, large, ops, smallBudget, largeBudget) <==>
            GetsAgree(small, large, ops, smallBudget, largeBudget)
    decreases |ops|
  {
    if ops != [] {
      PrefixStepIff(small, large, ops[0], smallBudget, largeBudget);
      if GetAgrees(small, large, ops[0]) {
        ApplyDistinct(large, ops[0], largeBudget);
        var small', large' := Apply(small, ops[0], smallBudget), Apply(large, ops[0], largeBudget);
        InclusionIff(small', large', ops[1..], smallBudget, largeBudget);
      }
    }
  }

  lemma {:induction false} PrefixAtTheEnd(
    small: seq<Item>, large: seq<Item>, ops: seq<Op>, smallBudget: nat, largeBudget: nat)
    requires PrefixThroughout(small, large, ops, smallBudget, largeBudget)
    ensures RunOps(small, ops, smallBudget) <= RunOps(large, ops, largeBudget)
    decreases |ops|
  {
    if ops != [] {
      var small', large' := Apply(small, ops[0], smallBudget), Apply(large, ops[0], largeBudget);
      PrefixAtTheEnd(small', large', ops[1..], smallBudget, largeBudget);
    }
  }

  /** In particular the smaller cache is a prefix after the run. */
  lemma {:induction false} Inclusion(
    small: seq<Item>, large: seq<Item>, ops: seq<Op>, smallBudget: nat, largeBudget: nat)
    requires small <= large && Distinct(large) && smallBudget <= largeBudget
    requires GetsAgree(small, large, ops, smallBudget, largeBudget)
    ensures RunOps(small, ops, smallBudget) <= RunOps(large, ops, largeBudget)
  {
    InclusionIff(small, large, ops, smallBudget, largeBudget);
    PrefixAtTheEnd(small, large, ops, smallBudget, largeBudget);
  }

  lemma {:induction false} SetsAgree(
    small: seq<Item>, large: seq<Item>, ops: seq<Op>, smallBudget: nat, largeBudget: nat)
    requires forall op <- ops :: op.SetOp?
    ensures GetsAgree(small, large, ops, smallBudget, largeBudget)
    decreases |ops|
  {
    if ops != [] {
      SetsAgree(Apply(small, ops[0], smallBudget), Apply(large, ops[0], largeBudget),
                ops[1..], smallBudget, largeBudget);
    }
  }

  /** For any sequence of Sets, overwrites that change sizes included. */
  lemma {:induction false} SetsInclude(ops: seq<Op>, smallBudget: nat, largeBudget: nat)
    requires smallBudget <= largeBudget && forall op <- ops :: op.SetOp?
    ensures RunOps([], ops, smallBudget) <= RunOps([], ops, largeBudget)
  {
    SetsAgree([], [], ops, smallBudget, largeBudget);
    Inclusion([], [], ops, smallBudget, largeBudget);
  }

  /** Three keys, one of them with a payload as big as another whole entry. */
  function Interleaving(r: Record): seq<Op> {
    [SetOp("z", r.(payload := seq(257, _ => 0))), SetOp("x", r), GetOp("z"), SetOp("y", r)]
  }

  lemma {:induction false} RunOfFour(
    ops: seq<Op>, s1: seq<Item>, s2: seq<Item>, s3: seq<Item>, s4: seq<Item>, budget: nat)
    requires |ops| == 4
    requires Apply([], ops[0], budget) == s1 && Apply(s1, ops[1], budget) == s2
    requires Apply(s2, ops[2], budget) == s3 && Apply(s3, ops[3], budget) == s4
    ensures RunOps([], ops, budget) == s4
  {
    assert ops[1..][1..] == ops[2..] && ops[2..][1..] == ops[3..] && ops[3..][1..] == [];
    assert RunOps(s3, ops[3..], budget) == s4;
    assert RunOps(s2, ops[2..], budget) == s4;
  }

  lemma {:induction false} PutAbsent(items: seq<Item>, key: string, record: Record, budget: nat)
    requires key != "" && !Has(items, key)
    ensures Put(items, key, record, budget) == Trim([Item(key, record)] + items, budget)
  {
    WithoutAbsent(items, key);
  }

  lemma {:induction false} TouchSecond(a: Item, b: Item)
    requires a.key != b.key
    ensures Touch([a, b], b.key) == [b, a]
  {
    WithoutAt([a, b], 1);
    assert [b] + [a] == [b, a];
  }

  lemma {:induction false} SmallRun(r: Record)
    requires Size(Item("x", r)) == 257
    ensures RunOps([], Interleaving(r), 514) == [Item("y", r), Item("x", r)]
  {
    hide Without, RunOps;
    var big := r.(payload := seq(257, _ => 0));
    var x, y, z := Item("x", r), Item("y", r), Item("z", big);
    assert Size(z) == 514;
    TotalOfOne(z); TotalOfOne(x); TotalOfTwo(x, z); TotalOfTwo(y, x);
    PutAbsent([], "z", big, 514); PutAbsent([z], "x", r, 514); PutAbsent([x], "y", r, 514);
    assert [z] + [] == [z] && [x] + [z] == [x, z] && [y] + [x] == [y, x] && [x, z][..1] == [x];
    WithoutAbsent([x], "z");
    RunOfFour(Interleaving(r), [z], [x], [x], [y, x], 514);
  }

  lemma {:induction false} LargeRun(r: Record)
    requires Size(Item("x", r)) == 257
    ensures RunOps([], Interleaving(r), 771) == [Item("y", r), Item("z", r.(payload := seq(257, _ => 0)))]
  {
    hide Find, Without, RunOps;
    var big := r.(payload := seq(257, _ => 0));
    var x, y, z := Item("x", r), Item("y", r), Item("z", big);
    assert Size(z) == 514;
    TotalOfOne(z); TotalOfTwo(x, z); TotalOfTwo(y, z); TotalOfThree(y, z, x);
    PutAbsent([], "z", big, 771); PutAbsent([z], "x", r, 771); PutAbsent([z, x], "y", r, 771);
    assert [z] + [] == [z] && [x] + [z] == [x, z] && [y] + [z, x] == [y, z, x] && [y, z, x][..2] == [y, z];
    TouchSecond(x, z);
    RunOfFour(Interleaving(r), [z], [x, z], [z, x], [y, z], 771);
  }

  /** Without that condition even containment fails: after a Get that only the larger cache can
      answer, the smaller cache holds a key that the larger one has evicted. */
  lemma {:induction false} LargerBudgetMayHoldLess(r: Record)
    requires Size(Item("x", r)) == 257
    ensures Has(RunOps([], Interleaving(r), 514), "x") && !Has(RunOps([], Interleaving(r), 771), "x")
  {
    SmallRun(r);
    LargeRun(r);
    assert [Item("y", r), Item("x", r)][1].key == "x";
  }

  lemma {:induction false} TotalOfOne(a: Item)
    ensures Total([a]) == Size(a)
  {
    assert [a][..0] == [];
  }

  lemma {:induction false} TotalOfTwo(a: Item, b: Item)
    ensures Total([a, b]) == Size(a) + Size(b)
  {
    TotalOfOne(a);
    assert [a, b][..1] == [a];
  }

  lemma {:induction false} TotalOfThree(a: Item, b: Item, c: Item)
    ensures Total([a, b, c]) == Size(a) + Size(b) + Size(c)
  {
    TotalOfTwo(a, b);
    assert [a, b, c][..2] == [a, b];
  }

  // ---------------------------------------------------------------- retention

  /** The items touched since the window opened, most recent first, with their current records. */
  function Window(window: seq<Item>, items: seq<Item>, op: Op): seq<Item> {
    match op
    case SetOp(key, record) =>
      if key == "" then window else [Item(key, record)] + Without(window, key)
    case GetOp(key) =>
      match Find(items, key)
      case Some(record) => [Item(key, record)] + Without(window, key)
      case None => window
  }

  /** At every step of the run everything touched since the window opened fits the budget. */
  predicate WindowFits(items: seq<Item>, window: seq<Item>, ops: seq<Op>, budget: nat)
    decreases |ops|
  {
    ops != [] ==>
      && Total(Window(window, items, ops[0])) <= budget
      && WindowFits(Apply(items, ops[0], budget), Window(window, items, ops[0]), ops[1..], budget)
  }

  /** The record of the last Set of the key in the run, or the one it had before. */
  function LastSet(key: string, record: Record, ops: seq<Op>): Record
    decreases |ops|
  {
    if ops == [] then record
    else LastSet(key, if ops[0].SetOp? && ops[0].key == key then ops[0].record else record, ops[1..])
  }

  lemma {:induction false} WindowStep(items: seq<Item>, window: seq<Item>, op: Op, budget: nat)
    requires Distinct(items) && window <= items
    requires Total(Window(window, items, op)) <= budget
    ensures Window(window, items, op) <= Apply(items, op, budget)
  {
    match op
    case SetOp(key, record) =>
      if key != "" {
        WithoutPrefix(window, items, key);
        FitsInTrim([Item(key, record)] + Without(items, key), Window(window, items, op), budget);
      }
    case GetOp(key) => WithoutPrefix(window, items, key);
  }

  lemma {:induction false} WindowFind(items: seq<Item>, window: seq<Item>, op: Op, key: string, record: Record)
    requires Distinct(items) && window <= items && key != ""
    requires Find(window, key) == Some(record)
    ensures Find(Window(window, items, op), key) ==
            Some(if op.SetOp? && op.key == key then op.record else record)
  {
    FindMember(window, key);
    FindMember(items, key);
    assert Item(key, record) in window && Item(key, record) in items;
    if op.key != key {
      FindWithout(window, op.key, key);
      forall front: Item ensures ([front] + Without(window, op.key))[1..] == Without(window, op.key) {
      }
    }
  }

  lemma {:induction false} FindWithout(items: seq<Item>, removed: string, key: string)
    requires removed != key
    ensures Find(Without(items, removed), key) == Find(items, key)
  {
    if items != [] {
      FindWithout(items[1..], removed, key);
    }
  }

  lemma {:induction false} WindowRetains(
    items: seq<Item>, window: seq<Item>, ops: seq<Op>, budget: nat, key: string, record: Record)
    requires Distinct(items) && window <= items && key != ""
    requires Find(window, key) == Some(record)
    requires WindowFits(items, window, ops, budget)
    ensures Find(RunOps(items, ops, budget), key) == Some(LastSet(key, record, ops))
    decreases |ops|
  {
    if ops == [] {
      FindMember(window, key);
      FindMember(items, key);
      assert Item(key, record) in items;
    } else {
      WindowStep(items, window, ops[0], budget);
      WindowFind(items, window, ops[0], key, record);
      ApplyDistinct(items, ops[0], budget);
      WindowRetains(Apply(items, ops[0], budget), Window(window, items, ops[0]), ops[1..], budget, key,
                    if ops[0].SetOp? && ops[0].key == key then ops[0].record else record);
    }
  }

  /** A key that was just touched survives any run in which, at every step, its size and the
      current sizes of the distinct keys touched since fit the budget; it then still has the
      record of its last Set. */
  lemma {:induction false} Retention(items: seq<Item>, ops: seq<Op>, budget: nat)
    requires Distinct(items) && items != [] && items[0].key != ""
    requires WindowFits(items, [items[0]], ops, budget)
    ensures Find(RunOps(items, ops, budget), items[0].key) == Some(LastSet(items[0].key, items[0].record, ops))
  {
    WindowRetains(items, [items[0]], ops, budget, items[0].key, items[0].record);
  }

  /** The items touched since the key was, most recent first, and the key's own at the end. */
  function KeyWindow(window: seq<Item>, items: seq<Item>, op: Op, key: string): seq<Item> {
    if op.key == key && (op.SetOp? || Has(items, key)) then Window([], items, op) else Window(window, items, op)
  }

  predicate EndsWithKey(window: seq<Item>, key: string) {
    window != [] && window[|window| - 1].key == key
  }

  /** Every Set of the run leaves the window within budget. */
  predicate SetsFit(items: seq<Item>, window: seq<Item>, ops: seq<Op>, budget: nat, key: string)
    decreases |ops|
  {
    ops != [] ==>
      && (ops[0].SetOp? ==> Total(KeyWindow(window, items, ops[0], key)) <= budget)
      && SetsFit(Apply(items, ops[0], budget), KeyWindow(window, items, ops[0], key), ops[1..], budget, key)
  }

  /** The key is cached before the run and after each of its steps. */
  predicate StaysCached(items: seq<Item>, ops: seq<Op>, budget: nat, key: string)
    decreases |ops|
  {
    Has(items, key) && (ops != [] ==> StaysCached(Apply(items, ops[0], budget), ops[1..], budget, key))
  }

  /** A list that ends with a key is a prefix of what is left after trimming exactly when it fits. */
  lemma {:induction false} TrimKeepsIff(order: seq<Item>, window: seq<Item>, budget: nat, key: string)
    requires Distinct(order) && window <= order && EndsWithKey(window, key)
    ensures Has(Trim(order, budget), key) <==> Total(window) <= budget
    ensures Total(window) <= budget ==> window <= Trim(order, budget)
  {
    TrimIsLongestFit(order, budget);
    var kept, last := Trim(order, budget), |window| - 1;
    assert order[last].key == key && order[..|window|] == window;
    if Total(window) <= budget {
      FitsInTrim(order, window, budget);
      assert kept[last].key == key;
    } else {
      LongerIsLarger(window, kept, order);
      forall i | 0 <= i < |kept| ensures kept[i].key != key {
        assert i < last && order[i] == kept[i];
      }
    }
  }

  lemma {:induction false} LongerIsLarger(window: seq<Item>, kept: seq<Item>, order: seq<Item>)
    requires window <= order && kept <= order
    ensures |window| <= |kept| ==> Total(window) <= Total(kept)
  {
    if |window| <= |kept| {
      TotalMonotone(kept, |window|);
      assert kept[..|window|] == window;
    }
  }

  lemma {:induction false} WithoutKeepsEnd(window: seq<Item>, other: string, key: string)
    requires EndsWithKey(window, key) && other != key
    ensures EndsWithKey(Without(window, other), key)
  {
    if |window| > 1 {
      WithoutKeepsEnd(window[1..], other, key);
    }
  }

  lemma {:induction false} WithoutSingle(key: string)
    ensures Without([], key) == []
  {
  }

  /** What one operation does to the window of a cached key. */
  lemma {:induction false} KeyWindowStep(items: seq<Item>, window: seq<Item>, op: Op, budget: nat, key: string)
    requires Distinct(items) && Total(items) <= budget && key != ""
    requires window <= items && EndsWithKey(window, key)
    ensures var window', items' := KeyWindow(window, items, op, key), Apply(items, op, budget);
            && EndsWithKey(window', key) && Distinct(items') && Total(items') <= budget
            && (op.SetOp? ==> (Has(items', key) <==> Total(window') <= budget))
            && (op.SetOp? ==> Total(window') <= budget ==> window' <= items')
            && (op.GetOp? ==> Has(items', key) && window' <= items')
  {
    hide Find, Without, Total, Trim, Distinct, Has;
    ApplyDistinct(items, op, budget);
    WithoutSingle(op.key);
    HasEnd(window, items, key);
    match op
    case SetOp(k, record) =>
      if k == "" {
        TotalMonotone(items, |window|);
        assert items[..|window|] == window;
      } else {
        var order := [Item(k, record)] + Without(items, k);
        WithoutPrefix(window, items, k);
        if k != key {
          WithoutKeepsEnd(window, k, key);
        }
        PutIsLongestFit(items, k, record, budget);
        TrimKeepsIff(order, KeyWindow(window, items, op, key), budget, key);
      }
    case GetOp(k) =>
      TouchTotal(items, k);
      WithoutPrefix(window, items, k);
      FindMember(items, k);
      if k != key {
        WithoutKeepsEnd(window, k, key);
      }
      HasEnd(KeyWindow(window, items, op, key), Apply(items, op, budget), key);
  }

  lemma HasEnd(window: seq<Item>, items: seq<Item>, key: string)
    ensures window <= items && EndsWithKey(window, key) ==> Has(items, key)
  {
    if window <= items && EndsWithKey(window, key) {
      assert items[|window| - 1].key == key;
    }
  }

  /** A cached key stays cached throughout a run exactly when every Set of it leaves the key and the distinct
      keys touched since the key was, with their current sizes, within budget. */
  lemma {:induction false} RetentionIff(items: seq<Item>, window: seq<Item>, ops: seq<Op>, budget: nat, key: string)
    requires Distinct(items) && Total(items) <= budget && key != ""
    requires window <= items && EndsWithKey(window, key)
    ensures StaysCached(items, ops, budget, key) <==> SetsFit(items, window, ops, budget, key)
    decreases |ops|
  {
    hide Find, Without, Total, Trim, Distinct, Has, EndsWithKey, KeyWindow, Apply;
    HasEnd(window, items, key);
    if ops != [] {
      KeyWindowStep(items, window, ops[0], budget, key);
      var window', items' := KeyWindow(window, items, ops[0], key), Apply(items, ops[0], budget);
      if window' <= items' {
        RetentionIff(items', window', ops[1..], budget, key);
      } else {
        NotCached(items', ops[1..], budget, key);
      }
    }
  }

  lemma NotCached(items: seq<Item>, ops: seq<Op>, budget: nat, key: string)
    ensures StaysCached(items, ops, budget, key) ==> Has(items, key)
  {
  }

  /** While a key stays cached, it has the record of its last Set. */
  lemma {:induction false} StaysWithLastSet(items: seq<Item>, ops: seq<Op>, budget: nat, key: string, record: Record)
    requires Distinct(items) && key != "" && Find(items, key) == Some(record) && StaysCached(items, ops, budget, key)
    ensures Find(RunOps(items, ops, budget), key) == Some(LastSet(key, record, ops))
    decreases |ops|
  {
    if ops != [] {
      ApplyDistinct(items, ops[0], budget);
      NotCached(Apply(items, ops[0], budget), ops[1..], budget, key);
      StepKeepsRecord(items, ops[0], budget, key, record);
      var record' := if ops[0].SetOp? && ops[0].key == key then ops[0].record else record;
      StaysWithLastSet(Apply(items, ops[0], budget), ops[1..], budget, key, record');
    }
  }

  lemma {:induction false} StepKeepsRecord(items: seq<Item>, op: Op, budget: nat, key: string, record: Record)
    requires Distinct(items) && key != "" && Find(items, key) == Some(record) && Has(Apply(items, op, budget), key)
    ensures Find(Apply(items, op, budget), key) ==
            Some(if op.SetOp? && op.key == key then op.record else record)
  {
    hide Distinct, Has, Trim;
    ApplyDistinct(items, op, budget);
    FindMember(Apply(items, op, budget), key);
    FindMember(items, key);
    match op
    case SetOp(k, r) =>
      if k != "" {
        WithoutMembers(items, k);
        var order := [Item(k, r)] + Without(items, k);
        PutIsLongestFit(items, k, r, budget);
        FindMember(order, key);
      }
    case GetOp(k) =>
      WithoutMembers(items, k);
      FindMember(items, k);
  }

  // ---------------------------------------------------------------- a sweep of Gets

  function TouchAll(items: seq<Item>, keys: seq<string>): seq<Item> {
    if keys == [] then items
    else Touch(TouchAll(items, keys[..|keys| - 1]), keys[|keys| - 1])
  }

  /** The items of the keys that are cached, the last key first. */
  function Swept(items: seq<Item>, keys: seq<string>): seq<Item> {
    if keys == [] then []
    else
      var last := keys[|keys| - 1];
      (match Find(items, last) case Some(record) => [Item(last, record)] case None => [])
      + Swept(items, keys[..|keys| - 1])
  }

  /** The other items, in their order. */
  function Unswept(items: seq<Item>, keys: seq<string>): seq<Item> {
    if items == [] then []
    else (if items[0].key in keys then [] else [items[0]]) + Unswept(items[1..], keys)
  }

  lemma {:induction false} UnsweptOneMore(items: seq<Item>, keys: seq<string>, key: string)
    ensures Without(Unswept(items, keys), key) == Unswept(items, keys + [key])
  {
    if items != [] {
      UnsweptOneMore(items[1..], keys, key);
      var rest := Unswept(items[1..], keys);
      assert items[0].key !in keys ==> Unswept(items, keys)[0] == items[0] && Unswept(items, keys)[1..] == rest;
      assert items[0].key in keys ==> Unswept(items, keys) == rest;
      assert items[0].key in keys + [key] <==> items[0].key in keys || items[0].key == key;
    }
  }

  lemma {:induction false} UnsweptNone(items: seq<Item>)
    ensures Unswept(items, []) == items
  {
    if items != [] {
      UnsweptNone(items[1..]);
    }
  }

  lemma {:induction false} UnsweptFind(items: seq<Item>, keys: seq<string>, key: string)
    requires key !in keys
    ensures Find(Unswept(items, keys), key) == Find(items, key)
  {
    if items != [] {
      UnsweptFind(items[1..], keys, key);
      var rest := Unswept(items[1..], keys);
      assert items[0].key !in keys ==> Unswept(items, keys)[0] == items[0] && Unswept(items, keys)[1..] == rest;
      assert items[0].key in keys ==> Unswept(items, keys) == rest;
    }
  }

  lemma {:induction false} SweptMembers(items: seq<Item>, keys: seq<string>)
    ensures forall item <- Swept(items, keys) :: item.key in keys
  {
    if keys != [] {
      SweptMembers(items, keys[..|keys| - 1]);
    }
  }

  lemma {:induction false} SkipPrefix(front: seq<Item>, back: seq<Item>, key: string)
    requires forall item <- front :: item.key != key
    ensures Find(front + back, key) == Find(back, key)
    ensures Without(front + back, key) == front + Without(back, key)
  {
    if front == [] {
      assert front + back == back;
    } else {
      SkipPrefix(front[1..], back, key);
      assert (front + back)[0] == front[0] && (front + back)[1..] == front[1..] + back;
      Reattach(front, Without(back, key));
    }
  }

  lemma Reattach(front: seq<Item>, back: seq<Item>)
    requires front != []
    ensures [front[0]] + (front[1..] + back) == front + back
  {
  }

  /** Getting keys one after another puts the cached ones at the front, the last one first, and
      keeps all the others behind them in their old order. */
  lemma {:induction false} SweepRealigns(items: seq<Item>, keys: seq<string>)
    requires NoRepeats(keys)
    ensures TouchAll(items, keys) == Swept(items, keys) + Unswept(items, keys)
  {
    if keys == [] {
      UnsweptNone(items);
    } else {
      var init, last := keys[..|keys| - 1], keys[|keys| - 1];
      SweepRealigns(items, init);
      SweptMembers(items, init);
      TouchBehind(Swept(items, init), Unswept(items, init), last);
      UnsweptFind(items, init, last);
      UnsweptOneMore(items, init, last);
      assert init + [last] == keys;
    }
  }

  lemma {:induction false} TouchBehind(front: seq<Item>, back: seq<Item>, key: string)
    requires forall item <- front :: item.key != key
    ensures Touch(front + back, key) ==
            (match Find(back, key) case Some(record) => [Item(key, record)] case None => [])
            + front + Without(back, key)
  {
    SkipPrefix(front, back, key);
    match Find(back, key)
    case Some(record) =>
      assert [Item(key, record)] + (front + Without(back, key)) == [Item(key, record)] + front + Without(back, key);
    case None =>
      NotFound(back, key);
      assert [] + front == front;
  }

  lemma {:induction false} NotFound(items: seq<Item>, key: string)
    requires Find(items, key) == None
    ensures Without(items, key) == items
  {
    if items != [] {
      NotFound(items[1..], key);
    }
  }

  // ---------------------------------------------------------------- the store of the service

  /** The key-value store that a recency list stands for. */
  function View(items: seq<Item>): map<string, Record> {
    map key | key in (set item <- items :: item.key) && Find(items, key).Some? :: Find(items, key).value
  }

  /** The keys that a Set evicts, its own among them when its record alone is too big. */
  function Evicted(items: seq<Item>, key: string, record: Record, budget: nat): set<string> {
    View([Item(key, record)] + Without(items, key)).Keys - View(Put(items, key, record, budget)).Keys
  }

  /** A Get leaves the store alone; a Set writes it and then evicts some keys, for any budget.
      So a cache of any budget behaves like the store of the service's state machine. */
  lemma {:induction false} CacheRefinesStore(items: seq<Item>, key: string, record: Record, budget: nat)
    requires Distinct(items) && key != ""
    ensures View(Touch(items, key)) == View(items)
    ensures View(Put(items, key, record, budget)) == View(items)[key := record] - Evicted(items, key, record, budget)
  {
    var order := [Item(key, record)] + Without(items, key);
    var after := Put(items, key, record, budget);
    PutIsLongestFit(items, key, record, budget);
    ViewOfFront(items, key, record);
    ViewOfPrefix(after, order);
    FindMember(items, key);
    match Find(items, key)
    case Some(cached) => ViewOfFront(items, key, cached);
    case None =>
  }

  lemma {:induction false} ViewAt(items: seq<Item>, key: string)
    requires Distinct(items)
    ensures key in View(items) <==> Find(items, key).Some?
    ensures key in View(items) ==> View(items)[key] == Find(items, key).value
  {
    FindMember(items, key);
  }

  lemma {:induction false} ViewOfFront(items: seq<Item>, key: string, record: Record)
    requires Distinct(items)
    ensures View([Item(key, record)] + Without(items, key)) == View(items)[key := record]
  {
    var order := [Item(key, record)] + Without(items, key);
    WithoutDistinct(items, key);
    forall other
      ensures Find(order, other) == if other == key then Some(record) else Find(items, other)
      ensures other in View(order) <==> Find(order, other).Some?
      ensures other in View(items) <==> Find(items, other).Some?
    {
      if other != key {
        FindWithout(items, key, other);
        assert order[1..] == Without(items, key);
      }
      ViewAt(order, other);
      ViewAt(items, other);
    }
  }

  lemma {:induction false} ViewOfPrefix(prefix: seq<Item>, items: seq<Item>)
    requires prefix <= items && Distinct(items)
    ensures forall key <- View(prefix) :: key in View(items) && View(prefix)[key] == View(items)[key]
  {
    forall key | key in View(prefix)
      ensures key in View(items) && View(prefix)[key] == View(items)[key]
    {
      FindMember(prefix, key);
      FindMember(items, key);
      ViewAt(items, key);
      assert Item(key, View(prefix)[key]) in items;
    }
  }
}
