/**
  What the L1 cache computes: a list of items, most recently used first, and a byte budget.
 */
module Recency {
  import opened Records

  datatype Item = Item(key: string, record: Record)

  const RECORD_METADATA_OVERHEAD_BYTES := 256

  function EstimateEntryUsage(key: string, record: Record): nat {
    |key| + |record.payload| + |record.etag| + |record.url| + RECORD_METADATA_OVERHEAD_BYTES
  }

  function Size(item: Item): nat {
    EstimateEntryUsage(item.key, item.record)
  }

  function Total(items: seq<Item>): nat {
    if items == [] then 0 else Total(items[..|items| - 1]) + Size(items[|items| - 1])
  }

  predicate Has(items: seq<Item>, key: string) {
    exists i :: 0 <= i < |items| && items[i].key == key
  }

  predicate Distinct(items: seq<Item>) {
    forall i, j :: 0 <= i < j < |items| ==> items[i].key != items[j].key
  }

  function Find(items: seq<Item>, key: string): Option<Record> {
    if items == [] then None
    else if items[0].key == key then Some(items[0].record)
    else Find(items[1..], key)
  }

  function Without(items: seq<Item>, key: string): seq<Item> {
    if items == [] then []
    else if items[0].key == key then Without(items[1..], key)
    else [items[0]] + Without(items[1..], key)
  }

  /** Drop least recently used items until the rest fits the budget. */
  function Trim(items: seq<Item>, budget: nat): seq<Item> {
    if items == [] || Total(items) <= budget then items else Trim(items[..|items| - 1], budget)
  }

  /** A hit moves its item to the front. */
  function Touch(items: seq<Item>, key: string): seq<Item> {
    match Find(items, key)
    case Some(record) => [Item(key, record)] + Without(items, key)
    case None => items
  }

  function Put(items: seq<Item>, key: string, record: Record, budget: nat): seq<Item> {
    if key == "" then items else Trim([Item(key, record)] + Without(items, key), budget)
  }

  // ---------------------------------------------------------------- basic facts

  lemma {:induction false} WithoutMembers(items: seq<Item>, key: string)
    ensures forall item :: item in Without(items, key) <==> item in items && item.key != key
  {
    if items != [] {
      WithoutMembers(items[1..], key);
      assert items == [items[0]] + items[1..];
    }
  }

  lemma {:induction false} WithoutDistinct(items: seq<Item>, key: string)
    requires Distinct(items)
    ensures Distinct(Without(items, key)) && !Has(Without(items, key), key)
  {
    WithoutMembers(items, key);
    if items != [] {
      WithoutDistinct(items[1..], key);
      WithoutMembers(items[1..], key);
      var rest := Without(items[1..], key);
      if items[0].key != key {
        forall j | 0 <= j < |rest| ensures rest[j].key != items[0].key {
          assert rest[j] in items[1..];
        }
      }
    }
  }

  /** Removing the item at a known position. */
  lemma {:induction false} WithoutAt(items: seq<Item>, i: nat)
    requires Distinct(items) && i < |items|
    ensures Without(items, items[i].key) == items[..i] + items[i + 1..]
    ensures Find(items, items[i].key) == Some(items[i].record)
  {
    if i == 0 {
      WithoutAbsent(items[1..], items[0].key);
    } else {
      WithoutAt(items[1..], i - 1);
      assert items[..i] == [items[0]] + items[1..][..i - 1];
    }
  }

  lemma {:induction false} HasTail(items: seq<Item>, key: string)
    requires items != []
    ensures Has(items, key) <==> items[0].key == key || Has(items[1..], key)
  {
    if Has(items[1..], key) {
      var i :| 0 <= i < |items[1..]| && items[1..][i].key == key;
      assert items[i + 1].key == key;
    }
    if Has(items, key) && items[0].key != key {
      var i :| 0 <= i < |items| && items[i].key == key;
      assert items[1..][i - 1].key == key;
    }
  }

  lemma {:induction false} WithoutAbsent(items: seq<Item>, key: string)
    requires !Has(items, key)
    ensures Without(items, key) == items && Find(items, key) == None
  {
    hide Has;
    if items != [] {
      HasTail(items, key);
      WithoutAbsent(items[1..], key);
      assert items == [items[0]] + items[1..];
    }
  }

  lemma {:induction false} TotalMonotone(items: seq<Item>, n: nat)
    requires n <= |items|
    ensures Total(items[..n]) <= Total(items)
  {
    if n < |items| {
      TotalMonotone(items[..|items| - 1], n);
      assert items[..|items| - 1][..n] == items[..n];
    } else {
      assert items[..n] == items;
    }
  }

  /** Trimming leaves exactly the longest prefix that fits the budget. */
  lemma {:induction false} TrimIsLongestFit(items: seq<Item>, budget: nat)
    ensures Trim(items, budget) <= items
    ensures Total(Trim(items, budget)) <= budget
    ensures forall n :: |Trim(items, budget)| < n <= |items| ==> Total(items[..n]) > budget
  {
    if items != [] && Total(items) > budget {
      var init := items[..|items| - 1];
      TrimIsLongestFit(init, budget);
      forall n | |Trim(items, budget)| < n <= |items|
        ensures Total(items[..n]) > budget
      {
        if n < |items| {
          assert init[..n] == items[..n];
        } else {
          assert items[..n] == items;
        }
      }
    } else {
      assert items[..|items|] == items;
    }
  }

  /** The contents of a cache after a Set: the longest fitting prefix of the updated recency
      order, empty when the new entry alone is too big, and always with distinct keys. */
  lemma {:induction false} PutIsLongestFit(items: seq<Item>, key: string, record: Record, budget: nat)
    requires key != "" && Distinct(items)
    ensures var order := [Item(key, record)] + Without(items, key);
            var after := Put(items, key, record, budget);
            && Distinct(order) && Distinct(after)
            && after <= order && Total(after) <= budget
            && (forall n :: |after| < n <= |order| ==> Total(order[..n]) > budget)
            && (EstimateEntryUsage(key, record) > budget ==> after == [])
            && (EstimateEntryUsage(key, record) <= budget ==> |after| > 0 && after[0] == Item(key, record))
  {
    var order := [Item(key, record)] + Without(items, key);
    var after := Put(items, key, record, budget);
    WithoutDistinct(items, key);
    TrimIsLongestFit(order, budget);
    assert order[..1] == [Item(key, record)];
    assert Total(order[..1]) == EstimateEntryUsage(key, record) by {
      assert order[..1][..0] == [];
    }
    if |after| > 0 {
      TotalMonotone(after, 1);
      assert after[..1] == order[..1];
    }
  }

  lemma {:induction false} FindMember(items: seq<Item>, key: string)
    requires Distinct(items)
    ensures forall record :: Item(key, record) in items <==> Find(items, key) == Some(record)
    ensures Find(items, key).Some? <==> Has(items, key)
  {
    if i :| 0 <= i < |items| && items[i].key == key {
      WithoutAt(items, i);
    } else {
      WithoutAbsent(items, key);
    }
  }

  lemma {:induction false} TouchDistinct(items: seq<Item>, key: string)
    requires Distinct(items)
    ensures Distinct(Touch(items, key))
  {
    WithoutDistinct(items, key);
  }

  // ---------------------------------------------------------------- keys and totals

  function Keys(items: seq<Item>): set<string> {
    set item <- items :: item.key
  }

  lemma {:induction false} KeysHas(items: seq<Item>, key: string)
    ensures Has(items, key) <==> key in Keys(items)
  {
    if Has(items, key) {
      var i :| 0 <= i < |items| && items[i].key == key;
      assert items[i] in items;
    }
  }

  lemma EmptyTotal()
    ensures Total([]) == 0
  {
  }

  lemma {:induction false} TotalSplit(front: seq<Item>, back: seq<Item>)
    ensures Total(front + back) == Total(front) + Total(back)
  {
    if back == [] {
      assert front + back == front;
    } else {
      var last := |back| - 1;
      TotalSplit(front, back[..last]);
      assert (front + back)[..|front| + last] == front + back[..last];
    }
  }

  lemma {:induction false} TotalFront(item: Item, rest: seq<Item>)
    ensures Total([item] + rest) == Size(item) + Total(rest)
  {
    TotalSplit([item], rest);
    assert [item][..0] == [];
  }

  lemma {:induction false} TotalAt(items: seq<Item>, i: nat)
    requires i < |items|
    ensures Total(items) == Size(items[i]) + Total(items[..i] + items[i + 1..])
  {
    TotalSplit(items[..i], items[i..]);
    assert items[..i] + items[i..] == items;
    TotalFront(items[i], items[i + 1..]);
    assert [items[i]] + items[i + 1..] == items[i..];
    TotalSplit(items[..i], items[i + 1..]);
  }

  /** Moving an item to the front, possibly with a new record. */
  lemma {:induction false} FrontFacts(items: seq<Item>, i: nat, record: Record)
    requires Distinct(items) && i < |items|
    ensures var key := items[i].key;
            var moved := [Item(key, record)] + items[..i] + items[i + 1..];
            && moved == [Item(key, record)] + Without(items, key)
            && Distinct(moved) && Keys(moved) == Keys(items)
            && Total(moved) == Total(items) - Size(items[i]) + Size(Item(key, record))
  {
    var key := items[i].key;
    var rest := items[..i] + items[i + 1..];
    WithoutAt(items, i);
    WithoutDistinct(items, key);
    TotalAt(items, i);
    TotalFront(Item(key, record), rest);
    assert [Item(key, record)] + items[..i] + items[i + 1..] == [Item(key, record)] + rest;
    KeysFront(items, key, record);
    assert items[i].key in Keys(items);
  }

  lemma {:induction false} KeysFront(items: seq<Item>, key: string, record: Record)
    ensures Keys([Item(key, record)] + Without(items, key)) == Keys(items) + {key}
  {
    var moved := [Item(key, record)] + Without(items, key);
    WithoutMembers(items, key);
    forall k | k in Keys(items) + {key} ensures k in Keys(moved) {
      if k == key {
        assert moved[0].key == k;
      } else {
        var item :| item in items && item.key == k;
        assert item in Without(items, key) && item in moved;
      }
    }
  }

  lemma {:induction false} NewFacts(items: seq<Item>, key: string, record: Record)
    requires Distinct(items) && key !in Keys(items)
    ensures var order := [Item(key, record)] + items;
            && order == [Item(key, record)] + Without(items, key)
            && Distinct(order) && Keys(order) == Keys(items) + {key}
            && Total(order) == Total(items) + Size(Item(key, record))
  {
    hide Has, Find, Without, Total;
    KeysHas(items, key);
    WithoutAbsent(items, key);
    forall j | 0 <= j < |items| ensures items[j].key != key {
      assert items[j] in items;
    }
    KeysFront(items, key, record);
    TotalFront(Item(key, record), items);
  }

  lemma {:induction false} DropLastFacts(items: seq<Item>)
    requires Distinct(items) && items != []
    ensures var init := items[..|items| - 1];
            && Distinct(init) && Keys(init) == Keys(items) - {items[|items| - 1].key}
            && Total(items) == Total(init) + Size(items[|items| - 1])
  {
    var init, last := items[..|items| - 1], items[|items| - 1];
    forall k | k in Keys(items) - {last.key} ensures k in Keys(init) {
      var i :| 0 <= i < |items| && items[i].key == k;
      assert init[i] in init;
    }
    forall k | k in Keys(init) ensures k in Keys(items) - {last.key} {
      var i :| 0 <= i < |init| && init[i].key == k;
      assert items[i] in items;
    }
  }

  /** Replacing the record of an item in place. */
  lemma {:induction false} ReplaceFacts(items: seq<Item>, i: nat, record: Record)
    requires Distinct(items) && i < |items|
    ensures var key := items[i].key;
            var replaced := items[i := Item(key, record)];
            && Distinct(replaced) && Keys(replaced) == Keys(items)
            && Total(replaced) == Total(items) - Size(items[i]) + Size(Item(key, record))
            && Touch(replaced, key) == [Item(key, record)] + Without(items, key)
  {
    var key := items[i].key;
    var replaced := items[i := Item(key, record)];
    WithoutAt(items, i);
    WithoutAt(replaced, i);
    TotalAt(items, i);
    TotalAt(replaced, i);
    assert replaced[..i] == items[..i] && replaced[i + 1..] == items[i + 1..];
    FrontFacts(items, i, record);
    FrontFacts(replaced, i, record);
  }

  lemma {:induction false} TouchTotal(items: seq<Item>, key: string)
    requires Distinct(items)
    ensures Total(Touch(items, key)) == Total(items)
  {
    if Has(items, key) {
      var i :| 0 <= i < |items| && items[i].key == key;
      WithoutAt(items, i);
      FrontFacts(items, i, items[i].record);
    } else {
      WithoutAbsent(items, key);
    }
  }
}
