/**
  The L1 cache on the heap: a map of entries and a linked recency list that share elements,
  running byte accounting and an eviction loop.  It refines the item lists of `Recency`.
 */
module L1Cache {
  import opened Records
  import opened Recency
  import opened LinkedList

  /** A record whose payload is a byte array that may be shared. */
  datatype HeapRecord = HeapRecord(
    payload: array<byte>,
    etag: string,
    url: string,
    fetchedAt: int,
    lastHitAt: int,
    lastCheckedAt: int,
    expiresAt: int,
    sourceStatus: int)
  {
    ghost function Value(): Record
      reads payload
    {
      Record(payload[..], etag, url, fetchedAt, lastHitAt, lastCheckedAt, expiresAt, sourceStatus)
    }
  }

  method CloneRecord(record: HeapRecord) returns (cloned: HeapRecord)
    ensures fresh(cloned.payload) && cloned.Value() == record.Value()
  {
    var bytes := record.payload;
    var payload := new byte[bytes.Length](i requires 0 <= i < bytes.Length reads bytes => bytes[i]);
    cloned := record.(payload := payload);
    assert payload[..] == record.payload[..];
  }

  method EstimateUsage(key: string, record: HeapRecord) returns (bytes: int)
    ensures bytes == EstimateEntryUsage(key, record.Value())
    ensures bytes == |key| + record.payload.Length + |record.etag| + |record.url| + 256
  {
    bytes := |key| + record.payload.Length + |record.etag| + |record.url| + RECORD_METADATA_OVERHEAD_BYTES;
  }

  class Entry {
    var record: HeapRecord
    var sizeBytes: int
    const element: Element

    constructor (record: HeapRecord, sizeBytes: int, element: Element)
      ensures this.record == record && this.sizeBytes == sizeBytes && this.element == element
    {
      this.record, this.sizeBytes, this.element := record, sizeBytes, element;
    }
  }

  const DEFAULT_USAGE_BYTES := 1024 * 1024 * 1024

  class Cache {
    var entries: map<string, Entry>
    const recency: List
    var usageBytes: int
    const maxUsageBytes: nat

    /** The contents, most recently used first. */
    ghost var items: seq<Item>
    /** The objects that operations may update. */
    ghost var Repr: set<object>
    /** The arrays that hold, or once held, stored payloads; no operation writes to them. */
    ghost var buffers: set<array<byte>>

    /** The element, the entry and the item at a position belong together. */
    ghost predicate Matches(i: int)
      requires 0 <= i < |items| && |items| == |recency.elements|
      reads this, recency, recency.elements, entries.Values, buffers
    {
      var key := recency.elements[i].value;
      && key == items[i].key && key != ""
      && key in entries
      && entries[key].element == recency.elements[i]
      && entries[key].sizeBytes == Size(items[i])
      && entries[key].record.payload in buffers
      && entries[key].record.Value() == items[i].record
    }

    ghost predicate Consistent()
      reads this, Repr, buffers
    {
      && this in Repr && recency in Repr && recency.root in Repr
      && (forall e <- recency.elements :: e in Repr)
      && (forall key <- entries :: entries[key] in Repr)
      && (forall b <- buffers :: b !in Repr)
      && recency.Valid()
      && |items| == |recency.elements| && Distinct(items)
      && (forall i :: 0 <= i < |items| ==> Matches(i))
      && entries.Keys == Keys(items)
      && usageBytes == Total(items)
    }

    ghost predicate Valid()
      reads this, Repr, buffers
    {
      Consistent() && Total(items) <= maxUsageBytes
    }

    constructor (maxUsageBytes: int)
      ensures Valid() && fresh(Repr) && items == [] && buffers == {}
      ensures this.maxUsageBytes == if maxUsageBytes <= 0 then 1_073_741_824 else maxUsageBytes
    {
      var list := new List();
      entries := map[];
      recency := list;
      usageBytes := 0;
      this.maxUsageBytes := if maxUsageBytes <= 0 then DEFAULT_USAGE_BYTES else maxUsageBytes;
      items, buffers := [], {};
      Repr := {this, list, list.root};
    }

    /** The position of a cached key. */
    ghost function Position(key: string): (i: nat)
      reads this, Repr, buffers
      requires Consistent() && key in entries
      ensures i < |items| && items[i].key == key && recency.elements[i] == entries[key].element
    {
      assert exists i :: 0 <= i < |items| && items[i].key == key;
      var i :| 0 <= i < |items| && items[i].key == key;
      assert Matches(i);
      i
    }

    /** `recency.MoveToFront` together with its effect on the contents. */
    method MoveToFront(key: string)
      requires Consistent() && key in entries
      modifies Repr
      ensures Consistent() && Repr == old(Repr) && buffers == old(buffers) && entries == old(entries)
      ensures items == Touch(old(items), key)
    {
      hide Distinct, Keys, Total, Find, Without, List.Valid, List.LinkedAt, List.RingAt;
      ghost var i := Position(key);
      assert Matches(i);
      recency.MoveToFront(entries[key].element, i);
      WithoutAt(items, i);
      FrontFacts(items, i, items[i].record);
      items := [items[i]] + items[..i] + items[i + 1..];
      forall j | 0 <= j < |items|
        ensures Matches(j)
      {
        assert old(Matches(if j == 0 then i else if j <= i then j - 1 else j));
      }
    }

    /** Returns a copy of the record. */
    method Get(key: string) returns (found: Option<HeapRecord>)
      requires Valid()
      modifies Repr
      ensures Valid() && Repr == old(Repr) && buffers == old(buffers)
      ensures items == Touch(old(items), key)
      ensures found == None <==> Find(old(items), key) == None
      ensures found.Some? ==> fresh(found.value.payload) && Some(found.value.Value()) == Find(old(items), key)
    {
      Locate(key);
      if key == "" || key !in entries {
        return None;
      }
      MoveToFront(key);
      Locate(key);
      TouchTotal(old(items), key);
      var cloned := CloneRecord(entries[key].record);
      return Some(cloned);
    }

    /** Returns the record itself; its payload is the stored array. */
    method GetReadonly(key: string) returns (found: Option<HeapRecord>)
      requires Valid()
      modifies Repr
      ensures Valid() && Repr == old(Repr) && buffers == old(buffers)
      ensures items == Touch(old(items), key)
      ensures found == None <==> Find(old(items), key) == None
      ensures found.Some? ==> found.value.payload in buffers && Some(found.value.Value()) == Find(old(items), key)
    {
      Locate(key);
      if key == "" || key !in entries {
        return None;
      }
      MoveToFront(key);
      Locate(key);
      TouchTotal(old(items), key);
      return Some(entries[key].record);
    }

    lemma Locate(key: string)
      requires Consistent()
      ensures key in entries ==> key != "" && entries[key].record.payload in buffers
      ensures key in entries ==> Find(items, key) == Some(entries[key].record.Value())
      ensures key !in entries ==> Find(items, key) == None
    {
      if key in entries {
        var i := Position(key);
        assert Matches(i);
        WithoutAt(items, i);
      } else {
        KeysHas(items, key);
        WithoutAbsent(items, key);
      }
    }

    lemma ValidFacts()
      requires Valid()
      ensures Distinct(items) && Find(items, "") == None && Total(items) <= maxUsageBytes
    {
      Locate("");
    }

    method Set(key: string, record: HeapRecord)
      requires Valid()
      modifies Repr
      ensures Valid() && fresh(Repr - old(Repr)) && old(buffers) <= buffers && fresh(buffers - old(buffers))
      ensures items == Put(old(items), key, old(record.Value()), maxUsageBytes)
    {
      hide Consistent, Keys, Total, Find, Without, List.Valid;
      if key == "" {
        return;
      }
      var cloned := CloneRecord(record);
      var sizeBytes := EstimateUsage(key, cloned);
      if key in entries {
        Overwrite(key, cloned, sizeBytes);
        MoveToFront(key);
      } else {
        Insert(key, cloned, sizeBytes);
      }
      EvictToBudget();
    }

    method Overwrite(key: string, record: HeapRecord, sizeBytes: int)
      requires Consistent() && key in entries
      requires record.payload !in Repr && sizeBytes == EstimateEntryUsage(key, record.Value())
      modifies Repr
      ensures Consistent() && Repr == old(Repr) && entries == old(entries) && buffers == old(buffers) + {record.payload}
      ensures Touch(items, key) == [Item(key, record.Value())] + Without(old(items), key)
    {
      hide Keys, Total, Find, Without, List.Valid, List.LinkedAt, List.RingAt;
      ghost var i := Position(key);
      assert Matches(i);
      var existing := entries[key];
      usageBytes := usageBytes - existing.sizeBytes;
      existing.record := record;
      existing.sizeBytes := sizeBytes;
      usageBytes := usageBytes + sizeBytes;
      buffers := buffers + {record.payload};
      items := items[i := Item(key, record.Value())];
      ReplaceFacts(old(items), i, record.Value());
      forall j | 0 <= j < |items|
        ensures Matches(j)
      {
        assert old(Matches(j)) && old(items[j].key == key <==> j == i);
      }
    }

    method Insert(key: string, record: HeapRecord, sizeBytes: int)
      requires Consistent() && key != "" && key !in entries
      requires record.payload !in Repr && sizeBytes == EstimateEntryUsage(key, record.Value())
      modifies Repr
      ensures Consistent() && fresh(Repr - old(Repr)) && buffers == old(buffers) + {record.payload}
      ensures items == [Item(key, record.Value())] + Without(old(items), key)
    {
      hide Keys, Total, Find, Without, List.Valid, List.LinkedAt, List.RingAt, EstimateEntryUsage;
      NewFacts(items, key, record.Value());
      Link(key, record, sizeBytes);
      forall j | 0 <= j < |items|
        ensures Matches(j)
      {
        if j > 0 {
          assert old(Matches(j - 1)) && items[j].key != key;
        }
      }
    }

    method Link(key: string, record: HeapRecord, sizeBytes: int)
      requires recency.Valid()
      modifies this, recency, recency.root, recency.elements
      ensures recency.Valid()
      ensures key in entries && entries == old(entries)[key := entries[key]] && fresh(entries[key])
      ensures fresh(entries[key].element) && entries[key].element.value == key
      ensures entries[key].record == record && entries[key].sizeBytes == sizeBytes
      ensures recency.elements == [entries[key].element] + old(recency.elements)
      ensures usageBytes == old(usageBytes) + sizeBytes
      ensures buffers == old(buffers) + {record.payload}
      ensures Repr == old(Repr) + {entries[key], entries[key].element}
      ensures items == [Item(key, record.Value())] + old(items)
    {
      var element := recency.PushFront(key);
      var entry := new Entry(record, sizeBytes, element);
      entries := entries[key := entry];
      usageBytes := usageBytes + sizeBytes;
      buffers := buffers + {record.payload};
      Repr := Repr + {element, entry};
      items := [Item(key, record.Value())] + items;
    }

    /** The eviction loop.  The source also guards against an empty list, a key without an entry
        and negative usage; none of them can happen. */
    method EvictToBudget()
      requires Consistent()
      modifies Repr
      ensures Valid() && Repr == old(Repr) && buffers == old(buffers)
      ensures items == Trim(old(items), maxUsageBytes)
    {
      while usageBytes > maxUsageBytes
        invariant Consistent() && Repr == old(Repr) && buffers == old(buffers)
        invariant Trim(items, maxUsageBytes) == Trim(old(items), maxUsageBytes)
        decreases |items|
      {
        EvictOldest();
      }
    }

    method EvictOldest()
      requires Consistent() && usageBytes > maxUsageBytes
      modifies Repr
      ensures Consistent() && Repr == old(Repr) && buffers == old(buffers)
      ensures |old(items)| > 0 && items == old(items)[..|old(items)| - 1]
    {
      hide Keys, Find, Without, List.Valid, List.LinkedAt, List.RingAt, Size, Total, HeapRecord.Value;
      EmptyTotal();
      var oldest := recency.Back();
      if oldest == null {
        assert false;
      }
      ghost var last := |items| - 1;
      assert Matches(last);
      DropLastFacts(items);
      var key := oldest.value;
      recency.Remove(oldest, last);
      if key !in entries {
        assert false;
      }
      var existing := entries[key];
      entries := entries - {key};
      usageBytes := usageBytes - existing.sizeBytes;
      items := items[..last];
      if usageBytes < 0 {
        assert false;
      }
      forall j | 0 <= j < |items|
        ensures Matches(j)
      {
        assert old(Matches(j));
      }
    }
  }
}
